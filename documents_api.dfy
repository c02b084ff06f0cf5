/** `validate_file` of backend/app/api/documents.py: the upload's extension
    (from `os.path.splitext` of the lower-cased filename), its declared
    content type and its size decide whether the upload is accepted, and
    the accepted extension is returned without its dot. */
module DocumentsApi {
  import opened PyStrings

  /** The index of the last `c` in `s`, or -1: Python's `str.rfind`. */
  function RFind(s: string, c: char): (r: int)
    ensures -1 <= r < |s|
    ensures r >= 0 ==> s[r] == c
    ensures forall j :: r < j < |s| ==> s[j] != c
  {
    if s == [] then -1
    else if s[|s| - 1] == c then |s| - 1
    else RFind(s[..|s| - 1], c)
  }

  /** Some character of `p[lo..hi]` is not a dot. */
  predicate NonDotIn(p: string, lo: int, hi: int) {
    exists i :: lo <= i < hi && 0 <= i < |p| && p[i] != '.'
  }

  /** `os.path.splitext` on POSIX: the extension is the text from the last
      dot, provided that dot is in the last path component and is not part
      of the leading dots of that component. */
  function SplitExt(p: string): (r: (string, string))
    ensures r.0 + r.1 == p
    ensures r.1 == [] || r.1[0] == '.'
  {
    var sep := RFind(p, '/');
    var dot := RFind(p, '.');
    if dot > sep && NonDotIn(p, sep + 1, dot) then
      assert p[..dot] + p[dot..] == p;
      (p[..dot], p[dot..])
    else (p, [])
  }

  /** The extension holds one dot, its first character, and no slash. */
  lemma {:induction false} SplitExtSingleDot(p: string)
    ensures var ext := SplitExt(p).1;
      forall i :: 0 < i < |ext| ==> ext[i] != '.' && ext[i] != '/'
  {
    var sep := RFind(p, '/');
    var dot := RFind(p, '.');
    if dot > sep && NonDotIn(p, sep + 1, dot) {
      var ext := p[dot..];
      assert SplitExt(p).1 == ext;
      forall i | 0 < i < |ext|
        ensures ext[i] != '.' && ext[i] != '/'
      {
        assert ext[i] == p[dot + i];
      }
    }
  }

  /** The extension is empty exactly when the last path component has no
      dot after a character other than a dot. */
  lemma {:induction false} SplitExtEmptyIff(p: string)
    ensures SplitExt(p).1 == [] <==>
      forall i, j :: 0 <= i < j < |p| && p[j] == '.' && p[i] != '.' && p[i] != '/' ==>
        exists k :: i < k < |p| && p[k] == '/'
  {
    var sep := RFind(p, '/');
    var dot := RFind(p, '.');
    if dot > sep && NonDotIn(p, sep + 1, dot) {
      var i :| sep + 1 <= i < dot && 0 <= i < |p| && p[i] != '.';
      assert p[i] != '.' && p[dot] == '.' && i < dot;
      assert forall k :: i < k < |p| ==> p[k] != '/';
    } else {
      forall i, j | 0 <= i < j < |p| && p[j] == '.' && p[i] != '.' && p[i] != '/'
        ensures exists k :: i < k < |p| && p[k] == '/'
      {
        assert j <= dot;
        if i > sep {
          assert false;
        }
        assert p[sep] == '/' && i < sep;
      }
    }
  }

  const SupportedExtensions: set<string> := {".pdf", ".docx", ".txt"}

  /** The keys of `MIME_TYPE_MAP`. */
  const MappedContentTypes: set<string> :=
    {"application/pdf", "application/vnd.openxmlformats-officedocument.wordprocessingml.document"}

  /** The largest accepted size: 50 MiB. */
  const MaxUploadSize := 50 * 1024 * 1024

  /** What `file.size` gives: no attribute, `None`, or a byte count. */
  datatype Size = NoSizeAttribute | SizeNone | Size(bytes: int)

  /** The parts of an `UploadFile` that `validate_file` reads. */
  datatype UploadedFile = UploadedFile(filename: string, contentType: Option<string>, size: Size)

  /** Why an upload was refused; `SizeNotComparable` is the `TypeError`
      raised by comparing a `None` size with an integer. */
  datatype FileRejection =
    | UnsupportedType(extension: string)
    | ContentTypeMismatch(contentType: string, extension: string)
    | TooLarge
    | SizeNotComparable

  /** The extension `validate_file` looks at. */
  function ExtensionOf(filename: string): string {
    SplitExt(Lower(filename)).1
  }

  /** The MIME check: it refuses only a present, non-empty content type
      that is not mapped, is not a `text/` type, for an extension other
      than `.txt`. */
  predicate ContentTypeRefused(contentType: Option<string>, ext: string) {
    && contentType.Some?
    && contentType.value != []
    && contentType.value !in MappedContentTypes
    && !StartsWith(contentType.value, "text/")
    && ext != ".txt"
  }

  /** `validate_file`. */
  function ValidateFile(file: UploadedFile): (r: Result<string, FileRejection>)
    ensures r == Err(UnsupportedType(ExtensionOf(file.filename))) <==> ExtensionOf(file.filename) !in SupportedExtensions
    ensures r.Err? && r.error.ContentTypeMismatch? <==>
      ExtensionOf(file.filename) in SupportedExtensions && ContentTypeRefused(file.contentType, ExtensionOf(file.filename))
    ensures r == Err(SizeNotComparable) <==>
      ExtensionOf(file.filename) in SupportedExtensions && !ContentTypeRefused(file.contentType, ExtensionOf(file.filename))
      && file.size == SizeNone
    ensures r == Err(TooLarge) <==>
      ExtensionOf(file.filename) in SupportedExtensions && !ContentTypeRefused(file.contentType, ExtensionOf(file.filename))
      && file.size.Size? && file.size.bytes > MaxUploadSize
    ensures r.Err? && r.error.ContentTypeMismatch? ==>
      r.error == ContentTypeMismatch(file.contentType.value, ExtensionOf(file.filename))
    ensures r.Ok? <==>
      && ExtensionOf(file.filename) in SupportedExtensions
      && !ContentTypeRefused(file.contentType, ExtensionOf(file.filename))
      && (file.size.NoSizeAttribute? || (file.size.Size? && file.size.bytes <= MaxUploadSize))
    ensures r.Ok? ==> r.value in {"pdf", "docx", "txt"} && "." + r.value == ExtensionOf(file.filename)
  {
    var ext := ExtensionOf(file.filename);
    if ext !in SupportedExtensions then Err(UnsupportedType(ext))
    else if ContentTypeRefused(file.contentType, ext) then Err(ContentTypeMismatch(file.contentType.value, ext))
    else match file.size
      case SizeNone => Err(SizeNotComparable)
      case Size(bytes) => if bytes > MaxUploadSize then Err(TooLarge) else Ok(ext[1..])
      case NoSizeAttribute => Ok(ext[1..])
  }

  /** Only the filename's case-folded form matters. */
  lemma {:induction false} CaseInsensitive(file: UploadedFile)
    ensures ValidateFile(file) == ValidateFile(file.(filename := Lower(file.filename)))
  {
    LowerIdempotent(file.filename);
  }

  /** A supported extension with a content type the MIME check lets
      through (none, empty, mapped, `text/`, or any for `.txt`), and a size
      up to the limit, is accepted. */
  lemma {:induction false} AcceptedUploads(file: UploadedFile)
    requires ExtensionOf(file.filename) in SupportedExtensions
    requires !ContentTypeRefused(file.contentType, ExtensionOf(file.filename))
    requires file.size.NoSizeAttribute? || (file.size.Size? && file.size.bytes <= MaxUploadSize)
    ensures ValidateFile(file).Ok?
  {
  }

  /** A `.txt` upload is never refused for its content type, whatever it
      is. */
  lemma {:induction false} TextNeverMimeRefused(file: UploadedFile)
    requires ExtensionOf(file.filename) == ".txt"
    ensures !(ValidateFile(file).Err? && ValidateFile(file).error.ContentTypeMismatch?)
  {
  }

  /** The size limit is inclusive: exactly 50 MiB passes, one byte more
      does not. */
  lemma {:induction false} SizeLimitInclusive(file: UploadedFile)
    requires ExtensionOf(file.filename) in SupportedExtensions
    requires !ContentTypeRefused(file.contentType, ExtensionOf(file.filename))
    ensures ValidateFile(file.(size := Size(50 * 1024 * 1024))).Ok?
    ensures ValidateFile(file.(size := Size(50 * 1024 * 1024 + 1))) == Err(TooLarge)
  {
  }

  /** Neither a dot nor a slash occurs in `s`. */
  predicate Undotted(s: string) {
    forall i :: 0 <= i < |s| ==> s[i] != '.' && s[i] != '/'
  }

  /** `stem.ext` splits at its one dot. */
  lemma {:induction false} SplitExtOfName(stem: string, ext: string)
    requires stem != [] && Undotted(stem) && Undotted(ext)
    ensures SplitExt(stem + "." + ext) == (stem, "." + ext)
  {
    var p := stem + "." + ext;
    assert p[|stem|] == '.';
    assert forall i :: 0 <= i < |stem| ==> p[i] == stem[i];
    assert forall i :: |stem| < i < |p| ==> p[i] == ext[i - |stem| - 1];
    assert RFind(p, '/') == -1;
    assert RFind(p, '.') == |stem|;
    assert p[0] != '.';
    assert p[..|stem|] == stem && p[|stem|..] == "." + ext;
  }

  /** A name made of one leading dot and an undotted rest, such as
      `.pdf`, has no extension. */
  lemma {:induction false} SplitExtOfHiddenName(rest: string)
    requires Undotted(rest)
    ensures SplitExt("." + rest) == ("." + rest, "")
  {
    var p := "." + rest;
    assert forall i :: 0 < i < |p| ==> p[i] == rest[i - 1];
    assert p[0] == '.';
    assert RFind(p, '/') == -1;
    assert RFind(p, '.') == 0;
  }

  /** Lower-casing keeps a name's dots and slashes where they are. */
  lemma {:induction false} LowerUndotted(s: string)
    requires Undotted(s)
    ensures Undotted(Lower(s))
  {
  }

  /** The extension of `stem.ext` is the lower-cased `.ext`. */
  lemma {:induction false} ExtensionOfName(stem: string, ext: string)
    requires stem != [] && Undotted(stem) && Undotted(ext)
    ensures ExtensionOf(stem + "." + ext) == "." + Lower(ext)
  {
    LowerAppend(stem + ".", ext);
    LowerAppend(stem, ".");
    assert Lower(".") == ".";
    LowerUndotted(stem);
    LowerUndotted(ext);
    SplitExtOfName(Lower(stem), Lower(ext));
  }

  /** A hidden file named `.pdf` has no extension and is refused. */
  lemma {:induction false} HiddenFileRefused(size: Size, contentType: Option<string>)
    ensures ValidateFile(UploadedFile(".pdf", contentType, size)) == Err(UnsupportedType(""))
  {
    assert Lower(".pdf") == ".pdf";
    assert ".pdf" == "." + "pdf";
    SplitExtOfHiddenName("pdf");
  }
}
