/** The request validators of backend/app/utils/error_handlers.py:
    `validate_search_query` cleans a search query and `validate_file_upload`
    checks an upload's size and name. Each raised `HTTPException` (always
    status 400) is an `Err` or `Fail` carrying the reason. Python's
    `str.isprintable` depends on the Unicode database and is a parameter. */
module ErrorHandlers {
  import opened PyStrings

  /** Why a request was refused. */
  datatype Rejection =
    | EmptyQuery
    | QueryTooLong
    | FileTooLarge(size: int)
    | EmptyFilename
    | InvalidFilename

  /** The longest query accepted, in characters. */
  const MaxQueryLength := 500

  /** `MAX_FILE_SIZE`: 50 MiB. */
  const MaxFileSize := 50 * 1024 * 1024

  /** `"".join(c for c in s if keep(c))`. */
  function Keep(keep: char -> bool, s: string): (r: string)
    ensures |r| <= |s|
    ensures forall i :: 0 <= i < |r| ==> keep(r[i])
  {
    if s == [] then []
    else Keep(keep, s[..|s| - 1]) + (if keep(s[|s| - 1]) then [s[|s| - 1]] else [])
  }

  /** When every character is kept, `Keep` changes nothing. */
  lemma {:induction false} KeepAll(keep: char -> bool, s: string)
    ensures (forall i :: 0 <= i < |s| ==> keep(s[i])) ==> Keep(keep, s) == s
  {
    if s != [] && forall i :: 0 <= i < |s| ==> keep(s[i]) {
      KeepAll(keep, s[..|s| - 1]);
      assert s == s[..|s| - 1] + [s[|s| - 1]];
    }
  }

  /** `Keep` picks exactly the kept positions of `s`, in increasing order. */
  lemma {:induction false} KeepPicks(keep: char -> bool, s: string) returns (picked: seq<nat>)
    ensures |picked| == |Keep(keep, s)|
    ensures forall k :: 0 <= k < |picked| ==> picked[k] < |s| && Keep(keep, s)[k] == s[picked[k]]
    ensures forall k, l :: 0 <= k < l < |picked| ==> picked[k] < picked[l]
    ensures forall i :: 0 <= i < |s| && keep(s[i]) ==> i in picked
  {
    if s == [] {
      picked := [];
    } else {
      var last := |s| - 1;
      var init := s[..last];
      var rest := KeepPicks(keep, init);
      picked := rest + (if keep(s[last]) then [last] else []);
      var kept := Keep(keep, s);
      assert kept == Keep(keep, init) + (if keep(s[last]) then [s[last]] else []);
      forall k | 0 <= k < |picked|
        ensures picked[k] < |s| && kept[k] == s[picked[k]]
      {
        if k < |rest| {
          assert picked[k] == rest[k] && init[rest[k]] == s[rest[k]];
        }
      }
      forall i | 0 <= i < |s| && keep(s[i])
        ensures i in picked
      {
        if i < last {
          assert init[i] == s[i];
        }
      }
    }
  }

  /** `validate_search_query`; `None` stands for a missing query. */
  function ValidateSearchQuery(query: Option<string>, isPrintable: char -> bool): (r: Result<string, Rejection>)
    ensures r == Err(EmptyQuery) <==> query == None || AllSpace(query.value)
    ensures r == Err(QueryTooLong) <==>
      query != None && !AllSpace(query.value) && |Strip(query.value)| > MaxQueryLength
    ensures r.Err? ==> r == Err(EmptyQuery) || r == Err(QueryTooLong)
    ensures r.Ok? ==> query != None && |r.value| <= |Strip(query.value)| <= MaxQueryLength
    ensures r.Ok? ==> forall i :: 0 <= i < |r.value| ==> isPrintable(r.value[i])
    ensures r.Ok? && (forall i :: 0 <= i < |Strip(query.value)| ==> isPrintable(Strip(query.value)[i])) ==>
      r.value == Strip(query.value)
  {
    match query
    case None => Err(EmptyQuery)
    case Some(q) =>
      StripEmptyIffAllSpace(q);
      var stripped := Strip(q);
      if q == [] || stripped == [] then Err(EmptyQuery)
      else if |stripped| > MaxQueryLength then Err(QueryTooLong)
      else
        KeepAll(isPrintable, stripped);
        Ok(Keep(isPrintable, stripped))
  }
  /** An accepted query keeps every printable character of the stripped
      query, in order, and nothing else. */
  lemma {:induction false} AcceptedQueryIsPrintablePart(query: string, isPrintable: char -> bool) returns (picked: seq<nat>)
    requires ValidateSearchQuery(Some(query), isPrintable).Ok?
    ensures var cleaned := ValidateSearchQuery(Some(query), isPrintable).value;
      var stripped := Strip(query);
      && |picked| == |cleaned|
      && (forall k :: 0 <= k < |picked| ==> picked[k] < |stripped| && cleaned[k] == stripped[picked[k]])
      && (forall k, l :: 0 <= k < l < |picked| ==> picked[k] < picked[l])
      && (forall i :: 0 <= i < |stripped| && isPrintable(stripped[i]) ==> i in picked)
  {
    picked := KeepPicks(isPrintable, Strip(query));
  }

  /** A query that is not whitespace but has no printable character (a lone
      NUL, say) passes the emptiness check and comes back empty. */
  lemma {:induction false} UnprintableQueryCleansToEmpty(isPrintable: char -> bool)
    requires !isPrintable('\0')
    ensures ValidateSearchQuery(Some("\0"), isPrintable) == Ok("")
  {
    assert Strip("\0") == "\0";
  }

  /** The substrings `validate_file_upload` refuses in a filename. */
  const DangerousParts: seq<string> := ["..", "/", "\\", "<", ">", ":", "\"", "|", "?", "*"]

  /** Python's `part in s` on strings: `part` starts somewhere in `s`. */
  predicate Contains(s: string, part: string)
    decreases |s|
  {
    StartsWith(s, part) || (s != [] && Contains(s[1..], part))
  }

  /** `any(part in s for part in parts)`. */
  predicate ContainsAny(s: string, parts: seq<string>) {
    parts != [] && (Contains(s, parts[0]) || ContainsAny(s, parts[1..]))
  }

  predicate HasDangerousPart(filename: string) {
    ContainsAny(filename, DangerousParts)
  }

  /** `part in s` holds exactly when `part` is the slice of `s` at some
      position. */
  lemma {:induction false} ContainsIff(s: string, part: string)
    ensures Contains(s, part) <==> exists i :: 0 <= i <= |s| - |part| && StartsWith(s[i..], part)
  {
    assert s[0..] == s;
    if s != [] {
      ContainsIff(s[1..], part);
      if Contains(s[1..], part) {
        var i :| 0 <= i <= |s[1..]| - |part| && StartsWith(s[1..][i..], part);
        assert s[1..][i..] == s[i + 1..];
      }
      if i :| 0 < i <= |s| - |part| && StartsWith(s[i..], part) {
        assert s[1..][i - 1..] == s[i..];
      }
    }
  }

  /** `validate_file_upload`; `None` stands for a missing filename. */
  function ValidateFileUpload(fileSize: int, filename: Option<string>): (r: Outcome<Rejection>)
    ensures r == Fail(FileTooLarge(fileSize)) <==> fileSize > MaxFileSize
    ensures r == Fail(EmptyFilename) <==> fileSize <= MaxFileSize && (filename == None || AllSpace(filename.value))
    ensures r == Fail(InvalidFilename) <==>
      fileSize <= MaxFileSize && filename != None && !AllSpace(filename.value) && HasDangerousPart(filename.value)
    ensures r == Pass <==>
      fileSize <= MaxFileSize && filename != None && !AllSpace(filename.value) && !HasDangerousPart(filename.value)
  {
    if fileSize > MaxFileSize then Fail(FileTooLarge(fileSize))
    else match filename
      case None => Fail(EmptyFilename)
      case Some(name) =>
        StripEmptyIffAllSpace(name);
        if name == [] || |Strip(name)| == 0 then Fail(EmptyFilename)
        else if HasDangerousPart(name) then Fail(InvalidFilename)
        else Pass
  }

  /** `any(...)` over a list holds exactly when some part is contained. */
  lemma {:induction false} ContainsAnyIff(s: string, parts: seq<string>)
    ensures ContainsAny(s, parts) <==> exists p :: 0 <= p < |parts| && Contains(s, parts[p])
  {
    if parts != [] {
      ContainsAnyIff(s, parts[1..]);
      if p :| 0 < p < |parts| && Contains(s, parts[p]) {
        assert parts[1..][p - 1] == parts[p];
      }
    }
  }

  /** Letters, digits, `_` and `-`: characters no refused part starts with. */
  predicate PlainChar(c: char) {
    ('a' <= c <= 'z') || ('A' <= c <= 'Z') || ('0' <= c <= '9') || c == '_' || c == '-'
  }

  predicate PlainName(s: string) {
    s != [] && forall i :: 0 <= i < |s| ==> PlainChar(s[i])
  }

  /** A name with a single dot between two plain parts passes, whatever
      its size up to the limit. */
  lemma {:induction false} DottedNameAccepted(fileSize: int, stem: string, ext: string)
    requires fileSize <= MaxFileSize
    requires PlainName(stem) && PlainName(ext)
    ensures ValidateFileUpload(fileSize, Some(stem + "." + ext)) == Pass
  {
    var s := stem + "." + ext;
    assert !IsSpace(s[0]) by { assert s[0] == stem[0]; }
    forall p | 0 <= p < |DangerousParts|
      ensures !Contains(s, DangerousParts[p])
    {
      var part := DangerousParts[p];
      ContainsIff(s, part);
      assert part != [] && !PlainChar(part[0]);
      assert p != 0 ==> part[0] != '.';
      forall i | 0 <= i <= |s| - |part|
        ensures !StartsWith(s[i..], part)
      {
        assert s[i..][0] == s[i];
        if i < |stem| {
          assert s[i] == stem[i];
        } else if i > |stem| {
          assert s[i] == ext[i - |stem| - 1];
        } else if p == 0 {
          assert s[i..][1] == ext[0];
        }
      }
    }
    ContainsAnyIff(s, DangerousParts);
  }

  /** A name holding any one of the refused characters is refused, unless
      the size is refused first. */
  lemma {:induction false} RefusedCharRejected(fileSize: int, filename: string, i: nat)
    requires fileSize <= MaxFileSize
    requires i < |filename| && filename[i] in "/\\<>:\"|?*"
    ensures ValidateFileUpload(fileSize, Some(filename)) == Fail(InvalidFilename)
  {
    var c := filename[i];
    assert !AllSpace(filename) by { assert !IsSpace(c); }
    assert HasDangerousPart(filename) by {
      var p := if c == '/' then 1 else if c == '\\' then 2 else if c == '<' then 3 else if c == '>' then 4
        else if c == ':' then 5 else if c == '"' then 6 else if c == '|' then 7 else if c == '?' then 8 else 9;
      assert DangerousParts[p] == [c];
      assert StartsWith(filename[i..], DangerousParts[p]);
      ContainsIff(filename, DangerousParts[p]);
      ContainsAnyIff(filename, DangerousParts);
    }
  }

  /** Two dots in a row are refused, and an oversized file is refused
      before its name is looked at. */
  lemma {:induction false} FilenameExamples()
    ensures ValidateFileUpload(1024, Some("a..pdf")) == Fail(InvalidFilename)
    ensures ValidateFileUpload(MaxFileSize + 1, Some("a..pdf")) == Fail(FileTooLarge(MaxFileSize + 1))
  {
    var name := "a..pdf";
    assert !AllSpace(name) by { assert !IsSpace(name[0]); }
    assert HasDangerousPart(name) by {
      assert StartsWith(name[1..], "..");
      assert Contains(name, DangerousParts[0]);
    }
  }
}
