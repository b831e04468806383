/** File validation, storage naming and small text utilities of the upload layer. */
module Helpers {
  import opened Wrappers
  import opened Text
  import opened Constants

  // ---------------------------------------------------------------------
  // validateFile
  // ---------------------------------------------------------------------

  /**
   * One validation error. The size message embeds two human-readable sizes
   * produced by floating-point formatting, so it is kept as its two numbers.
   */
  datatype FileError = UnsupportedType(fileType: string) | TooLarge(size: nat, maxSize: nat)

  /** The text shown for an unsupported type. */
  function UnsupportedMessage(fileType: string): string {
    "File type " + fileType + " is not supported"
  }

  datatype Validation = Validation(isValid: bool, errors: seq<FileError>)

  /**
   * `validateFile`, with the table looked up by own entries only: an
   * unsupported type is one error, a supported type is checked against its
   * own limit.
   */
  function ValidateFile(fileType: string, size: nat): (r: Validation)
    ensures r.isValid <==> |r.errors| == 0
    ensures |r.errors| <= 1
    ensures fileType !in SupportedFileTypes ==> r.errors == [UnsupportedType(fileType)]
    ensures fileType in SupportedFileTypes ==>
      (r.isValid <==> size <= SupportedFileTypes[fileType].maxSize)
    ensures fileType in SupportedFileTypes && !r.isValid ==>
      r.errors == [TooLarge(size, SupportedFileTypes[fileType].maxSize)]
    ensures r.isValid ==> fileType in SupportedFileTypes && size <= 25 * MiB
  {
    SupportedSizeBound();
    var errors :=
      if fileType !in SupportedFileTypes then [UnsupportedType(fileType)]
      else if size > SupportedFileTypes[fileType].maxSize then
        [TooLarge(size, SupportedFileTypes[fileType].maxSize)]
      else [];
    Validation(|errors| == 0, errors)
  }

  /**
   * `validateFile` exactly as written: the table is an object literal, so a
   * type such as "constructor" finds an inherited member, passes the
   * "supported" test, and then compares the size against `undefined`, which
   * is never exceeded.
   */
  function ValidateFileAsWritten(fileType: string, size: nat): (r: Validation)
    ensures fileType !in ObjectPrototypeNames ==> r == ValidateFile(fileType, size)
    ensures fileType in ObjectPrototypeNames ==> r.isValid
  {
    SupportedTypesAreOwnNames();
    match PropertyLookup(SupportedFileTypes, fileType)
    case Missing => Validation(false, [UnsupportedType(fileType)])
    case Inherited => Validation(true, [])
    case Own(info) =>
      if size > info.maxSize then Validation(false, [TooLarge(size, info.maxSize)])
      else Validation(true, [])
  }

  /** A file of type "constructor" and any size passes the validator as written. */
  lemma InheritedTypeAccepted(size: nat)
    ensures ValidateFileAsWritten("constructor", size).isValid
    ensures !ValidateFile("constructor", size).isValid
  {
  }

  // ---------------------------------------------------------------------
  // getFileIcon
  // ---------------------------------------------------------------------

  /** The four glyphs the file icons use. */
  datatype Glyph = Picture | Page | Memo | Clipboard

  function GlyphText(g: Glyph): string {
    match g
    case Picture => "\U{1F5BC}\U{FE0F}"
    case Page => "\U{1F4C4}"
    case Memo => "\U{1F4DD}"
    case Clipboard => "\U{1F4CB}"
  }

  /** `getFileIcon` of the helpers: image prefix, PDF, "word", exact `text/plain`, else a page. */
  function FileIcon(fileType: string): (g: Glyph)
    ensures g == Picture <==> StartsWith(fileType, "image/")
    ensures g == Memo <==>
      !StartsWith(fileType, "image/") && fileType != "application/pdf" && Contains(fileType, "word")
    ensures g == Clipboard <==>
      !StartsWith(fileType, "image/") && !Contains(fileType, "word") && fileType == "text/plain"
  {
    if StartsWith(fileType, "image/") then Picture
    else if fileType == "application/pdf" then Page
    else if Contains(fileType, "word") then Memo
    else if fileType == "text/plain" then Clipboard
    else Page
  }

  // ---------------------------------------------------------------------
  // generateFileName
  // ---------------------------------------------------------------------

  /**
   * `/\.[^/.]+$/` matches at `i`: a '.' followed by at least one character,
   * none of them '.' or '/', up to the end.
   */
  predicate ExtensionAt(name: string, i: int) {
    && 0 <= i < |name| - 1
    && name[i] == '.'
    && forall j :: i < j < |name| ==> name[j] != '.' && name[j] != '/'
  }

  /** `name.replace(/\.[^/.]+$/, '')`: the name without its final extension. */
  function Stem(name: string): (r: string)
    ensures forall i :: ExtensionAt(name, i) ==> r == name[..i]
    ensures (forall i :: !ExtensionAt(name, i)) ==> r == name
  {
    var i := LastIndexOf(name, '.');
    if 0 <= i < |name| - 1 && forall j :: i < j < |name| ==> name[j] != '/' then
      assert ExtensionAt(name, i);
      name[..i]
    else
      name
  }

  /** The characters `/[^a-zA-Z0-9-_]/` does not match. */
  predicate SafeChar(c: char) {
    ('a' <= c <= 'z') || ('A' <= c <= 'Z') || ('0' <= c <= '9') || c == '-' || c == '_'
  }

  /** `s.replace(/[^a-zA-Z0-9-_]/g, '_')`. */
  function Sanitize(s: string): (r: string)
    ensures |r| == |s|
    ensures forall i :: 0 <= i < |r| ==> SafeChar(r[i])
    ensures forall i :: 0 <= i < |s| && SafeChar(s[i]) ==> r[i] == s[i]
    ensures forall i :: 0 <= i < |s| && !SafeChar(s[i]) ==> r[i] == '_'
  {
    seq(|s|, i requires 0 <= i < |s| => if SafeChar(s[i]) then s[i] else '_')
  }

  /** Sanitising a sanitised name changes nothing. */
  lemma SanitizeIdempotent(s: string)
    ensures Sanitize(Sanitize(s)) == Sanitize(s)
  {
  }

  /**
   * `generateFileName(originalName, category)` at time `now`; `category` is
   * unused. The name is the time stamp, '_', the sanitised stem, '.' and the
   * original's last '.'-segment: it starts with the first four, has room for
   * exactly that segment after them, ends in it, and holds only safe
   * characters in between.
   */
  function GenerateFileName(originalName: string, category: string, now: nat): (r: string)
    ensures StartsWith(r, Decimal(now) + "_")
    ensures LastSegment(r, '.') == LastSegment(originalName, '.')
    ensures EndsWith(r, "." + LastSegment(originalName, '.'))
    ensures SafeBetween(r, |Decimal(now)| + 1, |r| - |LastSegment(originalName, '.')| - 1)
    ensures StartsWith(r, Decimal(now) + "_" + Sanitize(Stem(originalName)) + ".")
    ensures |r| == |Decimal(now)| + 1 + |Stem(originalName)| + 1 + |LastSegment(originalName, '.')|
  {
    var stamp := Decimal(now);
    var body := Sanitize(Stem(originalName));
    var ext := LastSegment(originalName, '.');
    NameParts(stamp, body, ext);
    stamp + "_" + body + "." + ext
  }

  /** A stamp, '_', a safe body, '.' and a '.'-free extension can be taken apart again. */
  lemma NameParts(stamp: string, body: string, ext: string)
    requires forall j :: 0 <= j < |body| ==> SafeChar(body[j])
    requires forall j :: 0 <= j < |ext| ==> ext[j] != '.'
    ensures var r := stamp + "_" + body + "." + ext;
      && StartsWith(r, stamp + "_")
      && LastSegment(r, '.') == ext
      && EndsWith(r, "." + ext)
      && SafeBetween(r, |stamp| + 1, |r| - |ext| - 1)
      && StartsWith(r, stamp + "_" + body + ".")
  {
    JoinExtension(stamp + "_" + body, ext);
    SafeMiddle(stamp + "_", body, ".", ext);
    ConcatEnds(stamp + "_" + body + ".", ext);
  }

  /** Joining a head and a '.'-free extension with '.' gives back that extension as the last segment. */
  lemma JoinExtension(head: string, ext: string)
    requires forall j :: 0 <= j < |ext| ==> ext[j] != '.'
    ensures LastSegment(head + "." + ext, '.') == ext
    ensures EndsWith(head + "." + ext, "." + ext)
  {
    assert head + "." + ext == head + ['.'] + ext;
    LastSegmentAppend(head, '.', ext);
    assert head + ['.'] + ext == head + ("." + ext);
    ConcatEnds(head, "." + ext);
  }

  /** Every character of `body` sits, unchanged, after `prefix` in `prefix + body + sep + rest`. */
  lemma JoinedBody(prefix: string, body: string, sep: string, rest: string)
    ensures StartsWith(prefix + body + sep + rest, prefix)
    ensures forall j :: |prefix| <= j < |prefix| + |body| ==> (prefix + body + sep + rest)[j] == body[j - |prefix|]
  {
    var r := prefix + body + sep + rest;
    assert r[..|prefix| + |body|] == prefix + body;
  }

  /** Every character of `r` at a position in `[lo, hi)` is safe. */
  predicate SafeBetween(r: string, lo: int, hi: int) {
    forall i :: lo <= i < hi && 0 <= i < |r| ==> SafeChar(r[i])
  }

  /** A safe middle part stays safe between its neighbours. */
  lemma SafeMiddle(prefix: string, body: string, sep: string, rest: string)
    requires forall j :: 0 <= j < |body| ==> SafeChar(body[j])
    ensures SafeBetween(prefix + body + sep + rest, |prefix|, |prefix| + |body|)
  {
    JoinedBody(prefix, body, sep, rest);
  }

  // ---------------------------------------------------------------------
  // truncateText, capitalizeFirst
  // ---------------------------------------------------------------------

  /** `truncateText(text, maxLength)`; a negative limit keeps no characters. */
  function TruncateText(text: string, maxLength: int): (r: string)
    ensures |text| <= maxLength ==> r == text
    ensures |text| > maxLength ==>
      var kept := if maxLength < 0 then 0 else maxLength;
      |r| == kept + 3 && StartsWith(text, r[..kept]) && EndsWith(r, "...")
  {
    if |text| <= maxLength then text
    else
      var kept := if maxLength < 0 then 0 else maxLength;
      text[..kept] + "..."
  }

  /** `capitalizeFirst(s)`: the first character upper-cased, the rest untouched. */
  function CapitalizeFirst(s: string): (r: string)
    ensures |r| == |s|
    ensures |s| > 0 ==> r[0] == UpperChar(s[0]) && r[1..] == s[1..]
  {
    Upper(s[..if |s| > 0 then 1 else 0]) + s[if |s| > 0 then 1 else 0..]
  }

  /** Capitalising twice is capitalising once. */
  lemma CapitalizeFirstIdempotent(s: string)
    ensures CapitalizeFirst(CapitalizeFirst(s)) == CapitalizeFirst(s)
  {
    if |s| > 0 {
      var r := CapitalizeFirst(s);
      assert CapitalizeFirst(r)[1..] == r[1..];
      assert CapitalizeFirst(r)[0] == r[0];
    }
  }
}
