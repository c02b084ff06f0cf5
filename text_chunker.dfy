/** The text chunker (`TextChunker` in backend/app/utils/text_chunker.py):
    paragraphs are split on blank lines, packed greedily into chunks under a
    token budget, and each new chunk is seeded with an overlap made of the
    trailing sentences of the chunk just closed. The tokenizer is kept
    abstract as the configuration's `countTokens`. */
module TextChunking {
  import opened PyStrings

  /** The chunker's configuration; `countTokens` stands for the
      sentence-transformers tokenizer. */
  datatype Chunker = Chunker(maxTokens: int, overlapTokens: int, countTokens: string -> nat)

  // ---------------------------------------------------------------------
  // split_by_paragraphs: re.split(r'\n\s*\n', text.strip()), then strip
  // every piece and drop the empty ones.
  // ---------------------------------------------------------------------

  /** The end of the run of whitespace that starts at `i`. */
  function SpaceRunEnd(s: string, i: nat): (j: nat)
    requires i <= |s|
    ensures i <= j <= |s|
    ensures forall m :: i <= m < j ==> IsSpace(s[m])
    ensures j == |s| || !IsSpace(s[j])
    decreases |s| - i
  {
    if i < |s| && IsSpace(s[i]) then SpaceRunEnd(s, i + 1) else i
  }

  /** The last newline in `s[lo..hi]`, if there is one. */
  function LastNewline(s: string, lo: nat, hi: nat): (k: Option<nat>)
    requires lo <= hi <= |s|
    ensures k.Some? ==> lo <= k.value < hi && s[k.value] == '\n'
    ensures k.None? ==> forall m :: lo <= m < hi ==> s[m] != '\n'
    decreases hi - lo
  {
    if hi == lo then None
    else if s[hi - 1] == '\n' then Some(hi - 1)
    else LastNewline(s, lo, hi - 1)
  }

  /** `LastNewline` finds the last newline of the range. */
  lemma {:induction false} LastNewlineIsLast(s: string, lo: nat, hi: nat)
    requires lo <= hi <= |s| && LastNewline(s, lo, hi).Some?
    ensures forall m :: LastNewline(s, lo, hi).value < m < hi ==> s[m] != '\n'
    decreases hi - lo
  {
    if s[hi - 1] != '\n' {
      LastNewlineIsLast(s, lo, hi - 1);
    }
  }

  lemma {:induction false} AllSpaceOfRange(s: string, lo: nat, hi: nat)
    requires lo <= hi <= |s|
    requires forall m :: lo <= m < hi ==> IsSpace(s[m])
    ensures AllSpace(s[lo..hi])
  {
    forall m | 0 <= m < hi - lo
      ensures IsSpace(s[lo..hi][m])
    {
      assert s[lo..hi][m] == s[lo + m];
    }
  }

  /** Where a match of `\n\s*\n` that starts at `i` ends: the greedy `\s*`
      takes the whole whitespace run, then gives characters back until the
      match can close on a newline. */
  function BlankLineAt(s: string, i: nat): (e: Option<nat>)
    requires i <= |s|
    ensures e.Some? ==> i + 2 <= e.value <= |s| && s[i] == '\n' && s[e.value - 1] == '\n'
    ensures e.Some? ==> AllSpace(s[i..e.value])
  {
    if i < |s| && s[i] == '\n' then
      match LastNewline(s, i + 1, SpaceRunEnd(s, i + 1))
      case None => None
      case Some(k) =>
        AllSpaceOfRange(s, i, k + 1);
        Some(k + 1)
    else None
  }

  /** The leftmost match of `\n\s*\n` at or after `from`, as (start, end). */
  function FirstBlankLine(s: string, from: nat): (m: Option<(nat, nat)>)
    requires from <= |s|
    ensures m.Some? ==> from <= m.value.0 && m.value.0 + 2 <= m.value.1 <= |s|
    ensures m.Some? ==> BlankLineAt(s, m.value.0) == Some(m.value.1)
    decreases |s| - from
  {
    if from == |s| then None
    else match BlankLineAt(s, from)
      case Some(e) => Some((from, e))
      case None => FirstBlankLine(s, from + 1)
  }

  /** The greedy `\s*` leaves no newline in the whitespace after a match. */
  lemma {:induction false} BlankLineGreedy(s: string, i: nat)
    requires i <= |s| && BlankLineAt(s, i).Some?
    ensures var e := BlankLineAt(s, i).value;
      forall m :: e <= m < |s| && s[m] == '\n' ==> !AllSpace(s[e..m])
  {
    var e := BlankLineAt(s, i).value;
    var r := SpaceRunEnd(s, i + 1);
    LastNewlineIsLast(s, i + 1, r);
    forall m | e <= m < |s| && s[m] == '\n'
      ensures !AllSpace(s[e..m])
    {
      assert r < m;
      assert s[e..m][r - e] == s[r];
    }
  }

  /** `FirstBlankLine` finds the leftmost match: two newlines with only
      whitespace between them, at or after `from`, are not skipped. */
  lemma {:induction false} FirstBlankLineLeftmost(s: string, from: nat, i: nat, j: nat)
    requires from <= i < j < |s| && s[i] == '\n' && s[j] == '\n'
    requires AllSpace(s[i + 1..j])
    ensures FirstBlankLine(s, from).Some? && FirstBlankLine(s, from).value.0 <= i
    decreases i - from
  {
    if BlankLineAt(s, from).None? {
      if from == i {
        BlankLineFound(s, i, j);
      }
      FirstBlankLineLeftmost(s, from + 1, i, j);
    }
  }

  /** `re.split(r'\n\s*\n', s)`: the pieces between the matches. */
  function SplitOnBlankLines(s: string): (pieces: seq<string>)
    ensures |pieces| >= 1
    decreases |s|
  {
    match FirstBlankLine(s, 0)
    case None => [s]
    case Some((a, e)) => [s[..a]] + SplitOnBlankLines(s[e..])
  }

  /** The matches of `\n\s*\n` that `re.split` cuts out of `s`, in order. */
  function BlankLineSeparators(s: string): (seps: seq<string>)
    ensures |seps| + 1 == |SplitOnBlankLines(s)|
    decreases |s|
  {
    match FirstBlankLine(s, 0)
    case None => []
    case Some((a, e)) => [s[a..e]] + BlankLineSeparators(s[e..])
  }

  /** `pieces[0] + seps[0] + pieces[1] + … + seps[n - 1] + pieces[n]`. */
  function Interleave(pieces: seq<string>, seps: seq<string>): string
    requires |pieces| == |seps| + 1
    decreases |seps|
  {
    if seps == [] then pieces[0] else pieces[0] + seps[0] + Interleave(pieces[1..], seps[1..])
  }

  /** A string `\n\s*\n` matches whole: newline, whitespace, newline. */
  predicate IsBlankLine(sep: string) {
    |sep| >= 2 && sep[0] == '\n' && sep[|sep| - 1] == '\n' && AllSpace(sep)
  }

  /** No two newlines with only whitespace between them. */
  predicate NoBlankLine(p: string) {
    forall i, j :: 0 <= i < j < |p| && p[i] == '\n' && p[j] == '\n' ==> !AllSpace(p[i + 1..j])
  }

  /** Every newline is followed by something other than whitespace. */
  predicate NoNewlineInTrailingSpace(p: string) {
    forall m :: 0 <= m < |p| && p[m] == '\n' ==> !AllSpace(p[m + 1..])
  }

  /** Every newline comes after something other than whitespace. */
  predicate NoNewlineInLeadingSpace(p: string) {
    forall m :: 0 <= m < |p| && p[m] == '\n' ==> !AllSpace(p[..m])
  }

  /** Two newlines with only whitespace between them start a match. */
  lemma {:induction false} BlankLineFound(s: string, i: nat, j: nat)
    requires i < j < |s| && s[i] == '\n' && s[j] == '\n'
    requires AllSpace(s[i + 1..j])
    ensures BlankLineAt(s, i).Some?
  {
    var r := SpaceRunEnd(s, i + 1);
    assert j < r;
  }

  /** The text before the leftmost match (all of `s` when there is none)
      holds no blank line, and does not end in a newline followed only by
      whitespace. */
  lemma {:induction false} BeforeFirstBlankLine(s: string, a: nat)
    requires a == if FirstBlankLine(s, 0).Some? then FirstBlankLine(s, 0).value.0 else |s|
    ensures NoBlankLine(s[..a])
    ensures a < |s| ==> NoNewlineInTrailingSpace(s[..a])
  {
    var p := s[..a];
    forall i, j | 0 <= i < j < |p| && p[i] == '\n' && p[j] == '\n'
      ensures !AllSpace(p[i + 1..j])
    {
      if AllSpace(p[i + 1..j]) {
        assert p[i + 1..j] == s[i + 1..j];
        FirstBlankLineLeftmost(s, 0, i, j);
      }
    }
    if a < |s| {
      forall m | 0 <= m < |p| && p[m] == '\n'
        ensures !AllSpace(p[m + 1..])
      {
        if AllSpace(p[m + 1..]) {
          assert p[m + 1..] == s[m + 1..a];
          FirstBlankLineLeftmost(s, 0, m, a);
        }
      }
    }
  }

  /** Leading whitespace without a newline survives taking a prefix. */
  lemma {:induction false} LeadingSpacePrefix(t: string, n: nat)
    requires n <= |t| && NoNewlineInLeadingSpace(t)
    ensures NoNewlineInLeadingSpace(t[..n])
  {
    forall m | 0 <= m < n && t[..n][m] == '\n'
      ensures !AllSpace(t[..n][..m])
    {
      assert t[..n][..m] == t[..m];
    }
  }

  /** The first piece of a split is a prefix of the text. */
  lemma {:induction false} FirstPieceIsPrefix(t: string)
    ensures |SplitOnBlankLines(t)[0]| <= |t|
    ensures SplitOnBlankLines(t)[0] == t[..|SplitOnBlankLines(t)[0]|]
  {
    match FirstBlankLine(t, 0)
    case None =>
    case Some((a, e)) =>
  }

  lemma {:induction false} SlicesJoin<T>(s: seq<T>, a: nat, e: nat)
    requires a <= e <= |s|
    ensures s[..a] + s[a..e] + s[e..] == s
  {
    assert s[a..e] + s[e..] == s[a..];
    assert s[..a] + s[a..] == s;
  }

  lemma {:induction false} InterleaveCons(p: string, sep: string, pieces: seq<string>, seps: seq<string>)
    requires |pieces| == |seps| + 1
    ensures Interleave([p] + pieces, [sep] + seps) == p + sep + Interleave(pieces, seps)
  {
    assert ([p] + pieces)[1..] == pieces;
    assert ([sep] + seps)[1..] == seps;
  }

  /** Joining the pieces of `re.split(r'\n\s*\n', s)` with the separators
      it cut out gives `s` back. */
  lemma {:induction false} SplitOnBlankLinesRejoins(s: string)
    ensures Interleave(SplitOnBlankLines(s), BlankLineSeparators(s)) == s
    decreases |s|
  {
    match FirstBlankLine(s, 0)
    case None =>
    case Some((a, e)) =>
      var t := s[e..];
      SplitOnBlankLinesRejoins(t);
      calc {
        Interleave(SplitOnBlankLines(s), BlankLineSeparators(s));
        Interleave([s[..a]] + SplitOnBlankLines(t), [s[a..e]] + BlankLineSeparators(t));
        { InterleaveCons(s[..a], s[a..e], SplitOnBlankLines(t), BlankLineSeparators(t)); }
        s[..a] + s[a..e] + t;
        { SlicesJoin(s, a, e); }
        s;
      }
  }

  /** Every separator `re.split(r'\n\s*\n', s)` cuts out is a blank line. */
  lemma {:induction false} BlankLineSeparatorsAreBlank(s: string)
    ensures forall k :: 0 <= k < |BlankLineSeparators(s)| ==> IsBlankLine(BlankLineSeparators(s)[k])
    decreases |s|
  {
    match FirstBlankLine(s, 0)
    case None =>
    case Some((a, e)) =>
      var t := s[e..];
      BlankLineSeparatorsAreBlank(t);
      MatchIsBlankLine(s, a);
      AllBlankCons(s[a..e], BlankLineSeparators(t));
      assert BlankLineSeparators(s) == [s[a..e]] + BlankLineSeparators(t);
  }

  /** What a match of `\n\s*\n` covers is a blank line. */
  lemma {:induction false} MatchIsBlankLine(s: string, a: nat)
    requires a <= |s| && BlankLineAt(s, a).Some?
    ensures IsBlankLine(s[a..BlankLineAt(s, a).value])
  {
    var e := BlankLineAt(s, a).value;
    assert s[a..e][0] == s[a] && s[a..e][e - a - 1] == s[e - 1];
  }

  lemma {:induction false} AllBlankCons(sep: string, later: seq<string>)
    requires IsBlankLine(sep)
    requires forall k :: 0 <= k < |later| ==> IsBlankLine(later[k])
    ensures forall k :: 0 <= k < |[sep] + later| ==> IsBlankLine(([sep] + later)[k])
  {
    forall k | 1 <= k < |[sep] + later|
      ensures IsBlankLine(([sep] + later)[k])
    {
      assert ([sep] + later)[k] == later[k - 1];
    }
  }

  /** No piece of `re.split(r'\n\s*\n', s)` holds a blank line. */
  lemma {:induction false} SplitOnBlankLinesNoBlankLine(s: string)
    ensures forall k :: 0 <= k < |SplitOnBlankLines(s)| ==> NoBlankLine(SplitOnBlankLines(s)[k])
    decreases |s|
  {
    match FirstBlankLine(s, 0)
    case None =>
      assert s[..|s|] == s;
      BeforeFirstBlankLine(s, |s|);
    case Some((a, e)) =>
      var t := s[e..];
      var pieces, rest := SplitOnBlankLines(s), SplitOnBlankLines(t);
      assert pieces == [s[..a]] + rest;
      SplitOnBlankLinesNoBlankLine(t);
      BeforeFirstBlankLine(s, a);
      forall k | 1 <= k < |pieces|
        ensures NoBlankLine(pieces[k])
      {
        assert NoBlankLine(rest[k - 1]);
      }
  }

  /** Each cut of `re.split(r'\n\s*\n', s)` is at the leftmost match and
      as long as the greedy `\s*` allows: no newline is left in the
      whitespace that ends a piece before a separator, nor in the
      whitespace that starts a piece after one. */
  lemma {:induction false} SplitOnBlankLinesGreedy(s: string)
    ensures var pieces := SplitOnBlankLines(s);
      && (forall k :: 0 <= k < |pieces| - 1 ==> NoNewlineInTrailingSpace(pieces[k]))
      && (forall k :: 1 <= k < |pieces| ==> NoNewlineInLeadingSpace(pieces[k]))
    decreases |s|
  {
    match FirstBlankLine(s, 0)
    case None =>
    case Some((a, e)) =>
      var t := s[e..];
      var pieces, rest := SplitOnBlankLines(s), SplitOnBlankLines(t);
      assert pieces == [s[..a]] + rest;
      SplitOnBlankLinesGreedy(t);
      BeforeFirstBlankLine(s, a);
      assert NoNewlineInLeadingSpace(rest[0]) by {
        AfterBlankLine(s, a);
        FirstPieceIsPrefix(t);
        LeadingSpacePrefix(t, |rest[0]|);
      }
      forall k | 1 <= k < |pieces|
        ensures NoNewlineInLeadingSpace(pieces[k])
        ensures k < |pieces| - 1 ==> NoNewlineInTrailingSpace(pieces[k])
      {
        assert NoNewlineInLeadingSpace(rest[k - 1]);
        assert k < |pieces| - 1 ==> NoNewlineInTrailingSpace(rest[k - 1]);
      }
  }

  /** The text after the leftmost match starts with no newline in its
      leading whitespace. */
  lemma {:induction false} AfterBlankLine(s: string, a: nat)
    requires FirstBlankLine(s, 0).Some? && FirstBlankLine(s, 0).value.0 == a
    ensures NoNewlineInLeadingSpace(s[FirstBlankLine(s, 0).value.1..])
  {
    var e := FirstBlankLine(s, 0).value.1;
    var t := s[e..];
    BlankLineGreedy(s, a);
    forall m | 0 <= m < |t| && t[m] == '\n'
      ensures !AllSpace(t[..m])
    {
      assert s[e..e + m] == t[..m];
    }
  }

  /** The comprehension `[p.strip() for p in pieces if p.strip()]`. */
  function StrippedNonEmpty(pieces: seq<string>): (ps: seq<string>)
    ensures |ps| <= |pieces|
  {
    if pieces == [] then []
    else (if Strip(pieces[0]) != [] then [Strip(pieces[0])] else []) + StrippedNonEmpty(pieces[1..])
  }

  /** `split_by_paragraphs`. */
  function SplitByParagraphs(text: string): (ps: seq<string>)
    ensures AllStrippedNonEmpty(ps)
  {
    StrippedNonEmptyShape(SplitOnBlankLines(Strip(text)));
    StrippedNonEmpty(SplitOnBlankLines(Strip(text)))
  }

  /** The whitespace-free text of a list of strings, in order. */
  function SquashEach(ps: seq<string>): string {
    if ps == [] then [] else Squash(ps[0]) + SquashEach(ps[1..])
  }

  /** Cutting a run of whitespace out of `s` keeps its whitespace-free
      text. */
  lemma {:induction false} SquashAroundSpace(s: string, a: nat, e: nat)
    requires a <= e <= |s| && AllSpace(s[a..e])
    ensures Squash(s) == Squash(s[..a]) + Squash(s[e..])
  {
    var sep := s[a..e];
    assert Squash(s[a..]) == Squash(s[e..]) by {
      SquashAllSpace(sep);
      assert sep + s[e..] == s[a..];
      SquashAppend(sep, s[e..]);
    }
    assert Squash(s) == Squash(s[..a]) + Squash(s[a..]) by {
      assert s[..a] + s[a..] == s;
      SquashAppend(s[..a], s[a..]);
    }
  }

  lemma {:induction false} SplitOnBlankLinesKeepsText(s: string)
    ensures SquashEach(SplitOnBlankLines(s)) == Squash(s)
    decreases |s|
  {
    match FirstBlankLine(s, 0)
    case None =>
      assert SplitOnBlankLines(s) == [s];
      assert [s][1..] == [];
    case Some((a, e)) =>
      var pieces := SplitOnBlankLines(s);
      assert pieces == [s[..a]] + SplitOnBlankLines(s[e..]);
      assert pieces[1..] == SplitOnBlankLines(s[e..]);
      SplitOnBlankLinesKeepsText(s[e..]);
      SquashAroundSpace(s, a, e);
  }

  lemma {:induction false} StrippedNonEmptyKeepsText(pieces: seq<string>)
    ensures SquashEach(StrippedNonEmpty(pieces)) == SquashEach(pieces)
  {
    if pieces != [] {
      var p := pieces[0];
      var rest := StrippedNonEmpty(pieces[1..]);
      StrippedNonEmptyKeepsText(pieces[1..]);
      assert SquashEach(pieces) == Squash(p) + SquashEach(pieces[1..]);
      if Strip(p) != [] {
        var kept := [Strip(p)] + rest;
        assert StrippedNonEmpty(pieces) == kept;
        assert kept[1..] == rest;
        assert SquashEach(kept) == Squash(Strip(p)) + SquashEach(rest);
        SquashStrip(p);
      } else {
        assert StrippedNonEmpty(pieces) == rest;
        StripEmptyIffAllSpace(p);
        SquashAllSpace(p);
      }
    }
  }

  /** Every paragraph is stripped and non-empty. */
  lemma {:induction false} ParagraphsAreStrippedAndNonEmpty(text: string)
    ensures forall i :: 0 <= i < |SplitByParagraphs(text)| ==>
      SplitByParagraphs(text)[i] != [] && Strip(SplitByParagraphs(text)[i]) == SplitByParagraphs(text)[i]
  {
    var ps := SplitByParagraphs(text);
    forall i | 0 <= i < |ps|
      ensures ps[i] != [] && Strip(ps[i]) == ps[i]
    {
      StripIdentity(ps[i]);
    }
  }

  /** Every piece is non-empty and stripped. */
  predicate AllStrippedNonEmpty(ps: seq<string>) {
    forall i :: 0 <= i < |ps| ==> ps[i] != [] && IsStripped(ps[i])
  }

  lemma {:induction false} StrippedNonEmptyShape(pieces: seq<string>)
    ensures AllStrippedNonEmpty(StrippedNonEmpty(pieces))
  {
    if pieces != [] {
      var rest := StrippedNonEmpty(pieces[1..]);
      StrippedNonEmptyShape(pieces[1..]);
      var p := Strip(pieces[0]);
      if p != [] {
        var ps := [p] + rest;
        assert StrippedNonEmpty(pieces) == ps;
        forall i | 0 <= i < |ps|
          ensures ps[i] != [] && IsStripped(ps[i])
        {
          if i > 0 {
            assert ps[i] == rest[i - 1];
          }
        }
      } else {
        assert StrippedNonEmpty(pieces) == rest;
      }
    }
  }

  /** Splitting into paragraphs loses no text other than whitespace. */
  lemma {:induction false} ParagraphsKeepText(text: string)
    ensures SquashEach(SplitByParagraphs(text)) == Squash(text)
  {
    SquashStrip(text);
    SplitOnBlankLinesKeepsText(Strip(text));
    StrippedNonEmptyKeepsText(SplitOnBlankLines(Strip(text)));
  }

  lemma {:induction false} SquashEachOfParagraphs(ps: seq<string>)
    requires ps != [] ==> ps[0] != [] && IsStripped(ps[0])
    ensures SquashEach(ps) == [] <==> ps == []
  {
    if ps != [] {
      var p := ps[0];
      assert Squash(p) == [p[0]] + Squash(p[1..]);
      assert SquashEach(ps) == Squash(p) + SquashEach(ps[1..]);
    }
  }

  lemma {:induction false} SquashEmptyIffAllSpace(s: string)
    ensures Squash(s) == [] <==> AllSpace(s)
  {
    if Squash(s) == [] {
      SquashEmptyAllSpace(s);
    }
    if AllSpace(s) {
      SquashAllSpace(s);
    }
  }

  /** Empty or whitespace-only text, and only such text, has no paragraphs. */
  lemma {:induction false} NoParagraphsIffBlank(text: string)
    ensures SplitByParagraphs(text) == [] <==> AllSpace(text)
  {
    var ps := SplitByParagraphs(text);
    ParagraphsKeepText(text);
    ParagraphsAreStrippedAndNonEmpty(text);
    if ps != [] {
      StripIdentity(ps[0]);
    }
    SquashEachOfParagraphs(ps);
    SquashEmptyIffAllSpace(text);
  }

  // ---------------------------------------------------------------------
  // _create_overlap: re.split(r'[.!?]+', text), then a right-to-left loop
  // that prepends stripped sentence pieces while the budget allows.
  // ---------------------------------------------------------------------

  predicate IsSentenceEnd(c: char) {
    c == '.' || c == '!' || c == '?'
  }

  predicate NoSentenceEnd(p: string) {
    forall k :: 0 <= k < |p| ==> !IsSentenceEnd(p[k])
  }

  /** The first sentence-ending character at or after `i` (or `|s|`). */
  function FirstSentenceEnd(s: string, i: nat): (k: nat)
    requires i <= |s|
    ensures i <= k <= |s|
    ensures k < |s| ==> IsSentenceEnd(s[k])
    ensures forall m :: i <= m < k ==> !IsSentenceEnd(s[m])
    decreases |s| - i
  {
    if i == |s| || IsSentenceEnd(s[i]) then i else FirstSentenceEnd(s, i + 1)
  }

  /** The end of the run of sentence-ending characters starting at `i`. */
  function SentenceEndRun(s: string, i: nat): (k: nat)
    requires i <= |s|
    ensures i <= k <= |s|
    ensures i < |s| && IsSentenceEnd(s[i]) ==> i < k
    ensures forall m :: i <= m < k ==> IsSentenceEnd(s[m])
    ensures k == |s| || !IsSentenceEnd(s[k])
    decreases |s| - i
  {
    if i < |s| && IsSentenceEnd(s[i]) then SentenceEndRun(s, i + 1) else i
  }

  /** `re.split(r'[.!?]+', s)`: the pieces between maximal runs of `.`, `!`
      and `?`; there is always at least one (possibly empty) piece. */
  function SplitSentences(s: string): (pieces: seq<string>)
    ensures |pieces| >= 1
    ensures forall i :: 0 <= i < |pieces| ==> NoSentenceEnd(pieces[i])
    decreases |s|
  {
    var a := FirstSentenceEnd(s, 0);
    if a == |s| then [s]
    else [s[..a]] + SplitSentences(s[SentenceEndRun(s, a)..])
  }

  /** The runs of `.`, `!` and `?` that `re.split(r'[.!?]+', s)` cuts
      out, in order. */
  function SentenceSeparators(s: string): (seps: seq<string>)
    ensures |seps| + 1 == |SplitSentences(s)|
    decreases |s|
  {
    var a := FirstSentenceEnd(s, 0);
    if a == |s| then []
    else [s[a..SentenceEndRun(s, a)]] + SentenceSeparators(s[SentenceEndRun(s, a)..])
  }

  /** A non-empty run of sentence-ending characters. */
  predicate IsSentenceEndRun(sep: string) {
    sep != [] && forall k :: 0 <= k < |sep| ==> IsSentenceEnd(sep[k])
  }

  /** `re.split(r'[.!?]+', s)`: joining the pieces with the runs it cut out
      gives `s` back. */
  lemma {:induction false} SplitSentencesRejoins(s: string)
    ensures Interleave(SplitSentences(s), SentenceSeparators(s)) == s
    decreases |s|
  {
    var a := FirstSentenceEnd(s, 0);
    if a < |s| {
      var e := SentenceEndRun(s, a);
      var t := s[e..];
      SplitSentencesRejoins(t);
      calc {
        Interleave(SplitSentences(s), SentenceSeparators(s));
        Interleave([s[..a]] + SplitSentences(t), [s[a..e]] + SentenceSeparators(t));
        { InterleaveCons(s[..a], s[a..e], SplitSentences(t), SentenceSeparators(t)); }
        s[..a] + s[a..e] + t;
        { SlicesJoin(s, a, e); }
        s;
      }
    }
  }

  /** Every run `re.split(r'[.!?]+', s)` cuts out is a non-empty run of
      `.`, `!` and `?`. With the pieces holding none of those characters,
      this and the rejoining fix the split: every run is maximal. */
  lemma {:induction false} SentenceSeparatorsAreRuns(s: string)
    ensures forall k :: 0 <= k < |SentenceSeparators(s)| ==> IsSentenceEndRun(SentenceSeparators(s)[k])
    decreases |s|
  {
    var a := FirstSentenceEnd(s, 0);
    if a < |s| {
      var e := SentenceEndRun(s, a);
      var t := s[e..];
      SentenceSeparatorsAreRuns(t);
      var seps, later := SentenceSeparators(s), SentenceSeparators(t);
      assert seps == [s[a..e]] + later;
      assert IsSentenceEndRun(s[a..e]) by {
        forall m | 0 <= m < e - a
          ensures IsSentenceEnd(s[a..e][m])
        {
          assert s[a..e][m] == s[a + m];
        }
      }
      forall k | 1 <= k < |seps|
        ensures IsSentenceEndRun(seps[k])
      {
        assert IsSentenceEndRun(later[k - 1]);
      }
    }
  }

  /** `[p.strip() for p in pieces]`: the loop strips each sentence piece
      before it tries it. */
  function StripEach(xs: seq<string>): (r: seq<string>)
    ensures |r| == |xs|
    ensures forall k :: 0 <= k < |xs| ==> r[k] == Strip(xs[k])
  {
    if xs == [] then [] else [Strip(xs[0])] + StripEach(xs[1..])
  }

  /** The overlap the loop would try next: the stripped piece, then ". "
      and the overlap so far unless that is still empty. */
  function Candidate(stripped: string, overlap: string): string {
    if overlap != [] then stripped + ". " + overlap else stripped
  }

  /** The overlap after accepting every one of the stripped pieces, right
      to left. */
  function Accumulated(pieces: seq<string>): string {
    if pieces == [] then [] else Candidate(pieces[0], Accumulated(pieces[1..]))
  }

  /** Where the right-to-left loop stops when it starts at `i`: the first
      index `k` such that `pieces[k..i]` were all accepted. Every accepted
      intermediate overlap is within the budget, and the piece before `k`,
      if any, would have exceeded it. */
  function AcceptedFrom(cfg: Chunker, pieces: seq<string>, i: nat): (k: nat)
    requires i <= |pieces|
    ensures k <= i
    ensures forall j :: k <= j < i ==> Fits(cfg, pieces, j)
    ensures k == 0 || !Fits(cfg, pieces, k - 1)
    decreases i
  {
    if i == 0 then 0
    else if Fits(cfg, pieces, i - 1) then AcceptedFrom(cfg, pieces, i - 1)
    else i
  }

  /** The overlap made of `pieces[j..]` is within the budget. */
  predicate Fits(cfg: Chunker, pieces: seq<string>, j: nat)
    requires j <= |pieces|
  {
    cfg.countTokens(Accumulated(pieces[j..])) <= cfg.overlapTokens
  }

  /** What `_create_overlap(text)` returns. */
  function OverlapOf(cfg: Chunker, text: string): string {
    if text == [] then []
    else
      var pieces := StripEach(SplitSentences(text));
      Strip(Accumulated(pieces[AcceptedFrom(cfg, pieces, |pieces|)..]))
  }

  /** One iteration of the loop of `_create_overlap` at `i`: the overlap it
      tries is piece `i - 1` in front of the overlap so far; if that is
      within the budget the loop goes on towards the same stopping point,
      otherwise it has reached it. */
  lemma {:induction false} OverlapLoopStep(cfg: Chunker, pieces: seq<string>, i: nat, stop: nat)
    requires 0 < i <= |pieces| && AcceptedFrom(cfg, pieces, i) == stop
    ensures Accumulated(pieces[i - 1..]) == Candidate(pieces[i - 1], Accumulated(pieces[i..]))
    ensures cfg.countTokens(Accumulated(pieces[i - 1..])) <= cfg.overlapTokens ==> AcceptedFrom(cfg, pieces, i - 1) == stop
    ensures cfg.countTokens(Accumulated(pieces[i - 1..])) > cfg.overlapTokens ==> i == stop
  {
    assert pieces[i - 1..][1..] == pieces[i..];
  }

  /** `OverlapLoopStep` in the loop's own terms: the candidate is built
      from the stripped sentence `i - 1` and the overlap so far. */
  lemma {:induction false} OverlapIteration(cfg: Chunker, sentences: seq<string>, i: nat, stop: nat)
    requires 0 < i <= |sentences| && AcceptedFrom(cfg, StripEach(sentences), i) == stop
    ensures var pieces := StripEach(sentences);
      var overlap := Accumulated(pieces[i..]);
      var test := if overlap != [] then Strip(sentences[i - 1]) + ". " + overlap else Strip(sentences[i - 1]);
      && test == Accumulated(pieces[i - 1..])
      && (cfg.countTokens(test) <= cfg.overlapTokens ==> AcceptedFrom(cfg, pieces, i - 1) == stop)
      && (cfg.countTokens(test) > cfg.overlapTokens ==> i == stop)
  {
    OverlapLoopStep(cfg, StripEach(sentences), i, stop);
  }

  /** `_create_overlap`. */
  method CreateOverlap(cfg: Chunker, text: string) returns (overlap: string)
    ensures overlap == OverlapOf(cfg, text)
    ensures text == [] ==> overlap == []
  {
    if text == [] {
      return [];
    }
    var sentences := SplitSentences(text);
    ghost var pieces := StripEach(sentences);
    ghost var stop := AcceptedFrom(cfg, pieces, |pieces|);
    overlap := [];
    var i := |sentences|;
    while i > 0
      invariant 0 <= i <= |sentences|
      invariant overlap == Accumulated(pieces[i..])
      invariant AcceptedFrom(cfg, pieces, i) == stop
    {
      var sentence := sentences[i - 1];
      var testOverlap := if overlap != [] then Strip(sentence) + ". " + overlap else Strip(sentence);
      OverlapIteration(cfg, sentences, i, stop);
      if cfg.countTokens(testOverlap) <= cfg.overlapTokens {
        overlap := testOverlap;
        i := i - 1;
      } else {
        break;
      }
    }
    assert i == stop;
    overlap := Strip(overlap);
  }

  /** Pieces that are empty at the end of a list are dropped, as the loop
      does while its overlap is still empty. */
  function TrimEmptyTail(xs: seq<string>): (r: seq<string>)
    ensures |r| <= |xs| && r == xs[..|r|]
    ensures r == [] || r[|r| - 1] != []
    ensures forall k :: |r| <= k < |xs| ==> xs[k] == []
  {
    if xs == [] then []
    else
      var rest := TrimEmptyTail(xs[1..]);
      if rest == [] && xs[0] == [] then [] else [xs[0]] + rest
  }

  lemma {:induction false} JoinOfNonEmptyLast(sep: string, xs: seq<string>)
    requires xs != [] && xs[|xs| - 1] != []
    ensures Join(sep, xs) != []
  {
    if |xs| > 1 {
      JoinOfNonEmptyLast(sep, xs[1..]);
    }
  }

  /** The accumulated overlap is its pieces, with the empty ones at the end
      dropped, joined with ". ". */
  lemma {:induction false} AccumulatedIsJoin(pieces: seq<string>)
    ensures Accumulated(pieces) == Join(". ", TrimEmptyTail(pieces))
  {
    if pieces != [] {
      var rest := TrimEmptyTail(pieces[1..]);
      AccumulatedIsJoin(pieces[1..]);
      if rest != [] {
        JoinOfNonEmptyLast(". ", rest);
        var all := [pieces[0]] + rest;
        assert TrimEmptyTail(pieces) == all;
        assert all[1..] == rest;
      }
    }
  }

  /** Every piece is stripped. */
  predicate AllStripped(ps: seq<string>) {
    forall i :: 0 <= i < |ps| ==> IsStripped(ps[i])
  }

  /** Stripped pieces joined with ". " are stripped. */
  lemma {:induction false} DotJoinIsStripped(p: string, rest: string)
    requires IsStripped(p) && rest != [] && IsStripped(rest)
    ensures IsStripped(p + ". " + rest)
  {
    var tail := ". " + rest;
    var r := p + tail;
    assert r[|r| - 1] == tail[|tail| - 1] == rest[|rest| - 1];
    if p == [] {
      assert r == tail;
    } else {
      assert r[0] == p[0];
    }
  }

  /** The accumulated overlap never starts or ends with whitespace, so the
      final `strip()` of `_create_overlap` changes nothing. */
  lemma {:induction false} AccumulatedIsStripped(pieces: seq<string>)
    requires AllStripped(pieces)
    ensures IsStripped(Accumulated(pieces))
  {
    if pieces != [] {
      assert AllStripped(pieces[1..]) by {
        forall i | 0 <= i < |pieces| - 1 ensures IsStripped(pieces[1..][i]) {
          assert pieces[1..][i] == pieces[i + 1];
        }
      }
      AccumulatedIsStripped(pieces[1..]);
      var rest := Accumulated(pieces[1..]);
      if rest != [] {
        DotJoinIsStripped(pieces[0], rest);
      }
    }
  }

  /** The stripped sentence pieces from `k` on are all stripped. */
  lemma {:induction false} StrippedSuffix(text: string, k: nat)
    requires k <= |SplitSentences(text)|
    ensures AllStripped(StripEach(SplitSentences(text))[k..])
  {
    var sentences := SplitSentences(text);
    var pieces := StripEach(sentences);
    forall i | 0 <= i < |pieces| - k ensures IsStripped(pieces[k..][i]) {
      assert pieces[k..][i] == Strip(sentences[k + i]);
    }
  }

  /** The final `strip()` of `_create_overlap` changes nothing: the overlap
      is the accumulated pieces from where the loop stopped. */
  lemma {:induction false} OverlapIsAccumulated(cfg: Chunker, text: string, pieces: seq<string>, k: nat)
    requires text != [] && pieces == StripEach(SplitSentences(text))
    requires k == AcceptedFrom(cfg, pieces, |pieces|)
    ensures OverlapOf(cfg, text) == Accumulated(pieces[k..])
  {
    StrippedSuffix(text, k);
    AccumulatedIsStripped(pieces[k..]);
    StripIdentity(Accumulated(pieces[k..]));
  }

  /** `_create_overlap` returns the stripped sentence pieces from some index
      `k` to the end, joined with ". ": every overlap accepted on the way is
      within `overlapTokens`, and the loop stopped at the first piece that
      would have exceeded it. */
  lemma {:induction false} OverlapShape(cfg: Chunker, text: string) returns (k: nat)
    requires text != []
    ensures k <= |SplitSentences(text)|
    ensures OverlapOf(cfg, text) == Join(". ", TrimEmptyTail(StripEach(SplitSentences(text))[k..]))
    ensures forall j :: k <= j < |SplitSentences(text)| ==> Fits(cfg, StripEach(SplitSentences(text)), j)
    ensures k == 0 || !Fits(cfg, StripEach(SplitSentences(text)), k - 1)
  {
    var pieces := StripEach(SplitSentences(text));
    k := AcceptedFrom(cfg, pieces, |pieces|);
    OverlapIsAccumulated(cfg, text, pieces, k);
    AccumulatedIsJoin(pieces[k..]);
  }

  /** A non-empty overlap never exceeds `overlapTokens` tokens. */
  lemma {:induction false} OverlapWithinBudget(cfg: Chunker, text: string)
    ensures OverlapOf(cfg, text) != [] ==> cfg.countTokens(OverlapOf(cfg, text)) <= cfg.overlapTokens
  {
    if text != [] {
      var pieces := StripEach(SplitSentences(text));
      var k := AcceptedFrom(cfg, pieces, |pieces|);
      OverlapIsAccumulated(cfg, text, pieces, k);
      if k == |pieces| {
        assert pieces[k..] == [];
      } else {
        assert Fits(cfg, pieces, k);
      }
    }
  }

  // ---------------------------------------------------------------------
  // create_chunks_with_overlap: a greedy loop over the paragraphs.
  // ---------------------------------------------------------------------

  /** A chunk record. `charCount` and `hasOverlap` are the two keys that
      `chunk_document` adds afterwards; they are absent (`None`) in what
      `create_chunks_with_overlap` returns. */
  datatype Chunk = Chunk(
    text: string,
    tokenCount: nat,
    paragraphIndices: seq<nat>,
    chunkId: nat,
    charCount: Option<nat>,
    hasOverlap: Option<bool>)

  /** The loop's state: the chunks closed so far, the chunk being grown and
      the indices of its paragraphs. */
  datatype Packing = Packing(chunks: seq<Chunk>, current: string, indices: seq<nat>)

  /** Closes the current chunk, if it is non-empty, under the next id. */
  function Close(cfg: Chunker, st: Packing): seq<Chunk> {
    if st.current != [] then
      st.chunks + [Chunk(st.current, cfg.countTokens(st.current), st.indices, |st.chunks|, None, None)]
    else st.chunks
  }

  /** A new chunk's text: the overlap and the paragraph on separate lines,
      or the paragraph alone when the overlap is empty. */
  function Seeded(overlap: string, paragraph: string): string {
    if overlap != [] then overlap + "\n" + paragraph else paragraph
  }

  /** `_create_overlap` as a function value. The packing loop is stated
      for any `overlap`, so that its lemmas need not look inside
      `OverlapOf`; `Pack` then instantiates it with this one. */
  function OverlapFn(cfg: Chunker): string -> string {
    text => OverlapOf(cfg, text)
  }

  /** One iteration, for paragraph `i`; `overlap` computes the seed of a
      new chunk from the chunk just closed. */
  function Step(cfg: Chunker, overlap: string -> string, st: Packing, i: nat, paragraph: string): Packing {
    var test := if st.current != [] then st.current + "\n" + paragraph else paragraph;
    if cfg.countTokens(test) <= cfg.maxTokens then Packing(st.chunks, test, st.indices + [i])
    else Packing(Close(cfg, st), Seeded(overlap(st.current), paragraph), [i])
  }

  /** The state after the first `n` paragraphs. */
  function PackFirst(cfg: Chunker, overlap: string -> string, paragraphs: seq<string>, n: nat): Packing
    requires n <= |paragraphs|
  {
    if n == 0 then Packing([], [], [])
    else Step(cfg, overlap, PackFirst(cfg, overlap, paragraphs, n - 1), n - 1, paragraphs[n - 1])
  }

  /** What `create_chunks_with_overlap(paragraphs)` returns. */
  function Pack(cfg: Chunker, paragraphs: seq<string>): seq<Chunk> {
    Close(cfg, PackFirst(cfg, OverlapFn(cfg), paragraphs, |paragraphs|))
  }

  /** `create_chunks_with_overlap`. */
  method CreateChunksWithOverlap(cfg: Chunker, paragraphs: seq<string>) returns (chunks: seq<Chunk>)
    ensures chunks == Pack(cfg, paragraphs)
    ensures forall j :: 0 <= j < |chunks| ==>
      chunks[j].chunkId == j && chunks[j].tokenCount == cfg.countTokens(chunks[j].text)
  {
    chunks := [];
    var currentChunk: string := [];
    var chunkParagraphs: seq<nat> := [];
    for i := 0 to |paragraphs|
      invariant Packing(chunks, currentChunk, chunkParagraphs) == PackFirst(cfg, OverlapFn(cfg), paragraphs, i)
    {
      var paragraph := paragraphs[i];
      ghost var next := Step(cfg, OverlapFn(cfg), Packing(chunks, currentChunk, chunkParagraphs), i, paragraph);
      assert PackFirst(cfg, OverlapFn(cfg), paragraphs, i + 1) == next;
      var testChunk := if currentChunk != [] then currentChunk + "\n" + paragraph else paragraph;
      var tokenCount := cfg.countTokens(testChunk);
      if tokenCount <= cfg.maxTokens {
        currentChunk := testChunk;
        chunkParagraphs := chunkParagraphs + [i];
      } else {
        if currentChunk != [] {
          chunks := chunks + [Chunk(currentChunk, cfg.countTokens(currentChunk), chunkParagraphs, |chunks|, None, None)];
        }
        var overlapText := CreateOverlap(cfg, currentChunk);
        assert overlapText == OverlapFn(cfg)(currentChunk);
        currentChunk := if overlapText != [] then overlapText + "\n" + paragraph else paragraph;
        chunkParagraphs := [i];
      }
      assert Packing(chunks, currentChunk, chunkParagraphs) == next;
    }
    if currentChunk != [] {
      chunks := chunks + [Chunk(currentChunk, cfg.countTokens(currentChunk), chunkParagraphs, |chunks|, None, None)];
    }
    PackNumbered(cfg, paragraphs);
  }

  /** A chunk is within the token budget unless it is a single paragraph
      that seeded a new chunk and never grew: a lone oversized paragraph, or
      an overlap plus one paragraph, which the loop never re-checks. */
  predicate WithinBudgetUnlessSeeded(cfg: Chunker, text: string, indices: seq<nat>) {
    cfg.countTokens(text) <= cfg.maxTokens || |indices| == 1
  }

  /** Chunk `j` has id `j`, its token count is the tokenizer's count of its
      text, and its text is non-empty. */
  predicate WellNumbered(cfg: Chunker, chunks: seq<Chunk>) {
    forall j :: 0 <= j < |chunks| ==>
      && chunks[j].chunkId == j
      && chunks[j].tokenCount == cfg.countTokens(chunks[j].text)
      && chunks[j].text != []
      && WithinBudgetUnlessSeeded(cfg, chunks[j].text, chunks[j].paragraphIndices)
  }

  lemma {:induction false} PackFirstNumbered(cfg: Chunker, overlap: string -> string, paragraphs: seq<string>, n: nat)
    requires n <= |paragraphs|
    ensures WellNumbered(cfg, PackFirst(cfg, overlap, paragraphs, n).chunks)
    ensures var st := PackFirst(cfg, overlap, paragraphs, n);
      st.current == [] || WithinBudgetUnlessSeeded(cfg, st.current, st.indices)
  {
    if n > 0 {
      PackFirstNumbered(cfg, overlap, paragraphs, n - 1);
    }
  }

  /** Ids are 0, 1, ..., n-1 in output order; every token count is the
      tokenizer's count of the chunk's text; and a chunk over `maxTokens`
      holds exactly one paragraph. */
  lemma {:induction false} PackNumbered(cfg: Chunker, paragraphs: seq<string>)
    ensures WellNumbered(cfg, Pack(cfg, paragraphs))
  {
    PackFirstNumbered(cfg, OverlapFn(cfg), paragraphs, |paragraphs|);
  }

  /** The chunks' paragraph indices, concatenated in order. */
  function Flatten(chunks: seq<Chunk>): seq<nat> {
    if chunks == [] then [] else Flatten(chunks[..|chunks| - 1]) + chunks[|chunks| - 1].paragraphIndices
  }

  predicate NonEmptyParagraphs(paragraphs: seq<string>) {
    forall i :: 0 <= i < |paragraphs| ==> paragraphs[i] != []
  }

  /** Closing the current chunk moves its indices, if it has any text, to
      the end of the closed chunks' indices. */
  lemma {:induction false} CloseFlatten(cfg: Chunker, st: Packing)
    requires st.current == [] ==> st.indices == []
    ensures Flatten(Close(cfg, st)) == Flatten(st.chunks) + st.indices
  {
    var closed := Close(cfg, st);
    if st.current != [] {
      assert closed[..|closed| - 1] == st.chunks;
    }
  }

  /** One step adds paragraph `i`, and only it, to the indices seen so far. */
  lemma {:induction false} StepCovers(cfg: Chunker, overlap: string -> string, st: Packing, i: nat, p: string)
    requires p != [] && (st.current == [] ==> st.indices == [])
    ensures var next := Step(cfg, overlap, st, i, p);
      && next.current != [] && next.indices != []
      && Flatten(next.chunks) + next.indices == Flatten(st.chunks) + st.indices + [i]
  {
    var test := if st.current != [] then st.current + "\n" + p else p;
    if cfg.countTokens(test) > cfg.maxTokens {
      CloseFlatten(cfg, st);
    }
  }

  lemma {:induction false} PackFirstCovers(cfg: Chunker, overlap: string -> string, paragraphs: seq<string>, n: nat)
    requires n <= |paragraphs| && NonEmptyParagraphs(paragraphs)
    ensures var st := PackFirst(cfg, overlap, paragraphs, n);
      && (n == 0 ==> st == Packing([], [], []))
      && (n > 0 ==> st.current != [] && st.indices != [])
      && Flatten(st.chunks) + st.indices == Range(0, n)
  {
    if n > 0 {
      var st := PackFirst(cfg, overlap, paragraphs, n - 1);
      PackFirstCovers(cfg, overlap, paragraphs, n - 1);
      StepCovers(cfg, overlap, st, n - 1, paragraphs[n - 1]);
      assert PackFirst(cfg, overlap, paragraphs, n) == Step(cfg, overlap, st, n - 1, paragraphs[n - 1]);
      assert Range(0, n) == Range(0, n - 1) + [n - 1];
    }
  }

  /** Each paragraph lands in exactly one chunk, in order: the chunks'
      paragraph indices concatenate to 0, 1, ..., P-1. Hence zero
      paragraphs give zero chunks, and at least one gives at least one. */
  lemma {:induction false} PackCovers(cfg: Chunker, paragraphs: seq<string>)
    requires NonEmptyParagraphs(paragraphs)
    ensures Flatten(Pack(cfg, paragraphs)) == Range(0, |paragraphs|)
    ensures Pack(cfg, paragraphs) == [] <==> paragraphs == []
  {
    var n := |paragraphs|;
    PackFirstCovers(cfg, OverlapFn(cfg), paragraphs, n);
    var st := PackFirst(cfg, OverlapFn(cfg), paragraphs, n);
    var chunks := Pack(cfg, paragraphs);
    if n > 0 {
      assert chunks[..|chunks| - 1] == st.chunks;
    }
  }

  /** What a chunk starts with before its own paragraphs: nothing for the
      first chunk; otherwise the overlap of the chunk before it, on a line of
      its own, or nothing when that overlap is empty. */
  function Lead(overlap: string -> string, previous: Option<string>): string {
    match previous
    case None => []
    case Some(text) =>
      var seed := overlap(text);
      if seed != [] then seed + "\n" else []
  }

  function PreviousText(chunks: seq<Chunk>, j: nat): Option<string>
    requires j <= |chunks|
  {
    if j == 0 then None else Some(chunks[j - 1].text)
  }

  /** The paragraphs at the given indices. */
  function Select(paragraphs: seq<string>, indices: seq<nat>): (r: seq<string>)
    ensures |r| == |indices|
  {
    seq(|indices|, k requires 0 <= k < |indices| =>
      if indices[k] < |paragraphs| then paragraphs[indices[k]] else [])
  }

  predicate TextAt(overlap: string -> string, paragraphs: seq<string>, chunks: seq<Chunk>, j: nat)
    requires j < |chunks|
  {
    chunks[j].text == Lead(overlap, PreviousText(chunks, j)) + Join("\n", Select(paragraphs, chunks[j].paragraphIndices))
  }

  /** Every chunk's text is its lead followed by its own paragraphs, one per
      line: no paragraph text is lost, reordered or altered, and the only
      repeated text is the overlap. */
  predicate TextsFromParagraphs(overlap: string -> string, paragraphs: seq<string>, chunks: seq<Chunk>) {
    forall j :: 0 <= j < |chunks| ==> TextAt(overlap, paragraphs, chunks, j)
  }

  lemma {:induction false} TextAtExtend(overlap: string -> string, paragraphs: seq<string>, chunks: seq<Chunk>, c: Chunk, j: nat)
    requires j < |chunks| && TextAt(overlap, paragraphs, chunks, j)
    ensures TextAt(overlap, paragraphs, chunks + [c], j)
  {
    assert (chunks + [c])[j] == chunks[j];
    assert PreviousText(chunks + [c], j) == PreviousText(chunks, j);
  }

  lemma {:induction false} TextsExtend(overlap: string -> string, paragraphs: seq<string>, chunks: seq<Chunk>, c: Chunk)
    requires TextsFromParagraphs(overlap, paragraphs, chunks)
    requires c.text == Lead(overlap, PreviousText(chunks, |chunks|)) + Join("\n", Select(paragraphs, c.paragraphIndices))
    ensures TextsFromParagraphs(overlap, paragraphs, chunks + [c])
  {
    var all := chunks + [c];
    forall j | 0 <= j < |chunks|
      ensures TextAt(overlap, paragraphs, all, j)
    {
      TextAtExtend(overlap, paragraphs, chunks, c, j);
    }
    assert PreviousText(all, |chunks|) == PreviousText(chunks, |chunks|);
    assert TextAt(overlap, paragraphs, all, |chunks|);
  }

  lemma {:induction false} SelectAppend(paragraphs: seq<string>, indices: seq<nat>, i: nat)
    requires i < |paragraphs|
    ensures Select(paragraphs, indices + [i]) == Select(paragraphs, indices) + [paragraphs[i]]
  {
  }

  /** The chunk being grown has the shape of a closed chunk. */
  predicate CurrentFromParagraphs(overlap: string -> string, paragraphs: seq<string>, st: Packing) {
    st.current == Lead(overlap, PreviousText(st.chunks, |st.chunks|)) + Join("\n", Select(paragraphs, st.indices))
  }

  lemma {:induction false} AcceptKeepsShape(overlap: string -> string, paragraphs: seq<string>, st: Packing, i: nat)
    requires i < |paragraphs| && st.indices != []
    requires CurrentFromParagraphs(overlap, paragraphs, st)
    ensures CurrentFromParagraphs(overlap, paragraphs, Packing(st.chunks, st.current + "\n" + paragraphs[i], st.indices + [i]))
  {
    var lead := Lead(overlap, PreviousText(st.chunks, |st.chunks|));
    var body := Select(paragraphs, st.indices);
    SelectAppend(paragraphs, st.indices, i);
    JoinAppend("\n", body, paragraphs[i]);
    assert st.current + "\n" + paragraphs[i] == lead + (Join("\n", body) + "\n" + paragraphs[i]);
  }

  lemma {:induction false} RejectKeepsShape(cfg: Chunker, overlap: string -> string, paragraphs: seq<string>, st: Packing, i: nat)
    requires i < |paragraphs| && st.current != []
    requires TextsFromParagraphs(overlap, paragraphs, st.chunks)
    requires CurrentFromParagraphs(overlap, paragraphs, st)
    ensures var closed := Close(cfg, st);
      && TextsFromParagraphs(overlap, paragraphs, closed)
      && CurrentFromParagraphs(overlap, paragraphs, Packing(closed, Seeded(overlap(st.current), paragraphs[i]), [i]))
  {
    var closed := Close(cfg, st);
    TextsExtend(overlap, paragraphs, st.chunks, closed[|closed| - 1]);
    assert closed == st.chunks + [closed[|closed| - 1]];
    assert Select(paragraphs, [i]) == [paragraphs[i]];
    assert PreviousText(closed, |closed|) == Some(st.current);
  }

  /** One packing step keeps every chunk's text, and the current text, made
      of its paragraphs. */
  lemma {:induction false} StepTexts(cfg: Chunker, overlap: string -> string, paragraphs: seq<string>, st: Packing, i: nat)
    requires i < |paragraphs| && overlap([]) == []
    requires TextsFromParagraphs(overlap, paragraphs, st.chunks)
    requires st == Packing([], [], []) || (st.indices != [] && st.current != [] && CurrentFromParagraphs(overlap, paragraphs, st))
    ensures var next := Step(cfg, overlap, st, i, paragraphs[i]);
      TextsFromParagraphs(overlap, paragraphs, next.chunks) && CurrentFromParagraphs(overlap, paragraphs, next)
  {
    var p := paragraphs[i];
    var next := Step(cfg, overlap, st, i, p);
    var test := if st.current != [] then st.current + "\n" + p else p;
    if cfg.countTokens(test) <= cfg.maxTokens {
      assert next == Packing(st.chunks, test, st.indices + [i]);
      if st.current != [] {
        AcceptKeepsShape(overlap, paragraphs, st, i);
      } else {
        assert Select(paragraphs, [i]) == [p];
      }
    } else {
      assert next == Packing(Close(cfg, st), Seeded(overlap(st.current), p), [i]);
      if st.current != [] {
        RejectKeepsShape(cfg, overlap, paragraphs, st, i);
      } else {
        assert Select(paragraphs, [i]) == [p];
      }
    }
  }

  lemma {:induction false} PackFirstTexts(cfg: Chunker, overlap: string -> string, paragraphs: seq<string>, n: nat)
    requires n <= |paragraphs| && NonEmptyParagraphs(paragraphs) && overlap([]) == []
    ensures TextsFromParagraphs(overlap, paragraphs, PackFirst(cfg, overlap, paragraphs, n).chunks)
    ensures n > 0 ==> CurrentFromParagraphs(overlap, paragraphs, PackFirst(cfg, overlap, paragraphs, n))
  {
    if n > 0 {
      var i := n - 1;
      PackFirstTexts(cfg, overlap, paragraphs, i);
      PackFirstCovers(cfg, overlap, paragraphs, i);
      var st := PackFirst(cfg, overlap, paragraphs, i);
      StepTexts(cfg, overlap, paragraphs, st, i);
      assert PackFirst(cfg, overlap, paragraphs, n) == Step(cfg, overlap, st, i, paragraphs[i]);
    }
  }

  /** The content of every chunk of `create_chunks_with_overlap`. */
  lemma {:induction false} PackTexts(cfg: Chunker, paragraphs: seq<string>)
    requires NonEmptyParagraphs(paragraphs)
    ensures TextsFromParagraphs(OverlapFn(cfg), paragraphs, Pack(cfg, paragraphs))
  {
    var n := |paragraphs|;
    var overlap := OverlapFn(cfg);
    PackFirstTexts(cfg, overlap, paragraphs, n);
    PackFirstCovers(cfg, overlap, paragraphs, n);
    var st := PackFirst(cfg, overlap, paragraphs, n);
    if st.current != [] {
      var closed := Close(cfg, st);
      TextsExtend(overlap, paragraphs, st.chunks, closed[|closed| - 1]);
      assert closed == st.chunks + [closed[|closed| - 1]];
    }
  }

  // ---------------------------------------------------------------------
  // chunk_document: paragraphs, chunks, then the per-chunk metadata.
  // ---------------------------------------------------------------------

  /** A chunk with the metadata `chunk_document` adds. */
  function Stamped(c: Chunk): (r: Chunk)
    ensures r.text == c.text && r.paragraphIndices == c.paragraphIndices
    ensures r.chunkId == c.chunkId && r.tokenCount == c.tokenCount
    ensures r.charCount == Some(|c.text|) && r.hasOverlap == Some(c.chunkId > 0)
  {
    c.(charCount := Some(|c.text|), hasOverlap := Some(c.chunkId > 0))
  }

  function StampAll(drafts: seq<Chunk>): (r: seq<Chunk>)
    ensures |r| == |drafts|
    ensures forall j :: 0 <= j < |drafts| ==> r[j] == Stamped(drafts[j])
  {
    seq(|drafts|, j requires 0 <= j < |drafts| => Stamped(drafts[j]))
  }

  /** What `chunk_document(text)` returns. */
  function ChunksOf(cfg: Chunker, text: string): seq<Chunk> {
    StampAll(Pack(cfg, SplitByParagraphs(text)))
  }

  /** The metadata loop of `chunk_document`, which updates each chunk in
      place. */
  method AddChunkMetadata(drafts: seq<Chunk>) returns (chunks: seq<Chunk>)
    ensures chunks == StampAll(drafts)
  {
    chunks := drafts;
    for i := 0 to |chunks|
      invariant |chunks| == |drafts|
      invariant forall j :: 0 <= j < i ==> chunks[j] == Stamped(drafts[j])
      invariant forall j :: i <= j < |chunks| ==> chunks[j] == drafts[j]
    {
      chunks := chunks[i := chunks[i].(charCount := Some(|chunks[i].text|), hasOverlap := Some(chunks[i].chunkId > 0))];
    }
  }

  /** Ids, counts and overlap flags of stamped chunks; no chunks exactly
      when there are no paragraphs. */
  lemma {:induction false} StampedPackFacts(cfg: Chunker, paragraphs: seq<string>)
    requires NonEmptyParagraphs(paragraphs)
    ensures var chunks := StampAll(Pack(cfg, paragraphs));
      && (chunks == [] <==> paragraphs == [])
      && forall j :: 0 <= j < |chunks| ==>
        && chunks[j].chunkId == j
        && chunks[j].tokenCount == cfg.countTokens(chunks[j].text)
        && chunks[j].charCount == Some(|chunks[j].text|)
        && chunks[j].hasOverlap == Some(j > 0)
  {
    PackNumbered(cfg, paragraphs);
    PackCovers(cfg, paragraphs);
  }

  /** `chunk_document`. */
  method ChunkDocument(cfg: Chunker, text: string) returns (chunks: seq<Chunk>)
    ensures chunks == ChunksOf(cfg, text)
    ensures forall j :: 0 <= j < |chunks| ==>
      && chunks[j].chunkId == j
      && chunks[j].tokenCount == cfg.countTokens(chunks[j].text)
      && chunks[j].charCount == Some(|chunks[j].text|)
      && chunks[j].hasOverlap == Some(j > 0)
  {
    var paragraphs := SplitByParagraphs(text);
    var drafts := CreateChunksWithOverlap(cfg, paragraphs);
    chunks := AddChunkMetadata(drafts);
    ParagraphsAreStrippedAndNonEmpty(text);
    StampedPackFacts(cfg, paragraphs);
  }

  /** `chunk_document` returns no chunks exactly when the text is empty or
      all whitespace. */
  lemma {:induction false} ChunksEmptyIffBlank(cfg: Chunker, text: string)
    ensures ChunksOf(cfg, text) == [] <==> AllSpace(text)
  {
    ParagraphsAreStrippedAndNonEmpty(text);
    StampedPackFacts(cfg, SplitByParagraphs(text));
    NoParagraphsIffBlank(text);
  }

  /** Stamping keeps every chunk's text, and the content shape of packed
      chunks. */
  lemma {:induction false} StampedPackContent(cfg: Chunker, paragraphs: seq<string>)
    requires NonEmptyParagraphs(paragraphs)
    ensures var chunks := StampAll(Pack(cfg, paragraphs));
      && Flatten(chunks) == Range(0, |paragraphs|)
      && TextsFromParagraphs(OverlapFn(cfg), paragraphs, chunks)
  {
    PackTexts(cfg, paragraphs);
    PackCovers(cfg, paragraphs);
    var drafts := Pack(cfg, paragraphs);
    var chunks := StampAll(drafts);
    FlattenStamped(drafts, chunks);
    forall j | 0 <= j < |chunks|
      ensures TextAt(OverlapFn(cfg), paragraphs, chunks, j)
    {
      assert TextAt(OverlapFn(cfg), paragraphs, drafts, j);
      assert PreviousText(chunks, j) == PreviousText(drafts, j);
    }
  }

  /** The text of every chunk `chunk_document` returns is the overlap of the
      chunk before it (on its own line, when non-empty) followed by the
      chunk's own paragraphs of `text`, joined by newlines; and the chunks'
      paragraph indices run through 0, 1, ..., P-1 in order. */
  lemma {:induction false} ChunkDocumentContent(cfg: Chunker, text: string)
    ensures Flatten(ChunksOf(cfg, text)) == Range(0, |SplitByParagraphs(text)|)
    ensures TextsFromParagraphs(OverlapFn(cfg), SplitByParagraphs(text), ChunksOf(cfg, text))
  {
    ParagraphsAreStrippedAndNonEmpty(text);
    StampedPackContent(cfg, SplitByParagraphs(text));
  }

  lemma {:induction false} FlattenStamped(drafts: seq<Chunk>, chunks: seq<Chunk>)
    requires |chunks| == |drafts|
    requires forall j :: 0 <= j < |drafts| ==> chunks[j].paragraphIndices == drafts[j].paragraphIndices
    ensures Flatten(chunks) == Flatten(drafts)
  {
    if drafts != [] {
      FlattenStamped(drafts[..|drafts| - 1], chunks[..|chunks| - 1]);
    }
  }
}
