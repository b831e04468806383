/**
 * What a document card shows: the preview (encrypted image, plain image or
 * icon), the card's own icon table, the file-type label, the category badge
 * and the human-readable size.
 */
module DocumentCard {
  import opened Wrappers
  import opened Text
  import opened Types
  import opened Constants
  import Helpers

  // ---------------------------------------------------------------------
  // getFileIcon of the card
  // ---------------------------------------------------------------------

  /**
   * The card's `getFileIcon`: like the helpers' table, except that any type
   * containing "text" gets the clipboard.
   */
  function CardIcon(fileType: string): (g: Helpers.Glyph)
    ensures g == Helpers.Picture <==> StartsWith(fileType, "image/")
    ensures g == Helpers.Memo <==>
      !StartsWith(fileType, "image/") && fileType != "application/pdf" && Contains(fileType, "word")
    ensures g == Helpers.Clipboard <==>
      && !StartsWith(fileType, "image/") && fileType != "application/pdf"
      && !Contains(fileType, "word") && Contains(fileType, "text")
  {
    if StartsWith(fileType, "image/") then Helpers.Picture
    else if fileType == "application/pdf" then Helpers.Page
    else if Contains(fileType, "word") then Helpers.Memo
    else if Contains(fileType, "text") then Helpers.Clipboard
    else Helpers.Page
  }

  /**
   * The two icon tables disagree exactly on the types that contain "text"
   * but are not `text/plain` (and are not images, PDF or "word" types): the
   * card shows the clipboard, the helpers the page.
   */
  lemma IconTablesDiffer(fileType: string)
    ensures CardIcon(fileType) != Helpers.FileIcon(fileType) <==>
      && !StartsWith(fileType, "image/")
      && !Contains(fileType, "word")
      && Contains(fileType, "text")
      && fileType != "text/plain"
    ensures CardIcon(fileType) != Helpers.FileIcon(fileType) ==>
      CardIcon(fileType) == Helpers.Clipboard && Helpers.FileIcon(fileType) == Helpers.Page
  {
    if fileType == "text/plain" {
      assert fileType[0] != "image/"[0];
      ContainsAt(fileType, "text", 0);
    }
    if fileType == "application/pdf" && Contains(fileType, "text") {
      ContainsChar(fileType, "text", 'x');
      assert false;
    }
  }

  /** `text/csv` is one of them. */
  lemma CsvIconsDiffer()
    ensures CardIcon("text/csv") == Helpers.Clipboard
    ensures Helpers.FileIcon("text/csv") == Helpers.Page
  {
    ContainsAt("text/csv", "text", 0);
    assert !Contains("text/csv", "word") by {
      if Contains("text/csv", "word") {
        ContainsChar("text/csv", "word", 'w');
        assert false;
      }
    }
  }

  // ---------------------------------------------------------------------
  // File-type label, preview, badge
  // ---------------------------------------------------------------------

  /** `file_type?.split('/')[1]?.toUpperCase() || 'FILE'`. */
  function TypeLabel(fileType: Option<string>): (r: string)
    ensures r != ""
    ensures (fileType.Some? && SecondSegment(fileType.value, '/').Some?
             && SecondSegment(fileType.value, '/').value != "") ==>
      r == Upper(SecondSegment(fileType.value, '/').value)
    ensures (fileType.None? || SecondSegment(fileType.value, '/').None?
             || SecondSegment(fileType.value, '/').value == "") ==> r == "FILE"
  {
    var segment := if fileType.Some? then SecondSegment(fileType.value, '/') else None;
    OrElse(if segment.Some? then Some(Upper(segment.value)) else None, "FILE")
  }

  /** Which preview a card shows. */
  datatype Preview =
    | EncryptedImage
    | PlainImage(url: string)
    | IconTile(glyph: Helpers.Glyph, caption: string)

  /** An image is a document whose type is present and starts with `image/`. */
  predicate IsImage(doc: Document) {
    doc.fileType.Some? && StartsWith(doc.fileType.value, "image/")
  }

  /** The preview: encrypted images are decrypted in place, other images load their URL, the rest show an icon. */
  function PreviewOf(doc: Document): (p: Preview)
    ensures p.EncryptedImage? <==> IsImage(doc) && doc.isEncrypted
    ensures p.PlainImage? <==> IsImage(doc) && !doc.isEncrypted
    ensures p.PlainImage? ==> p.url == doc.fileUrl
    ensures p.IconTile? <==> !IsImage(doc)
    ensures p.IconTile? ==> p.glyph != Helpers.Picture && p.caption == TypeLabel(doc.fileType)
    ensures p.IconTile? ==> p.glyph == CardIcon(doc.fileType.GetOr(""))
    ensures p.IconTile? && doc.fileType.None? ==> p.glyph == Helpers.Page
  {
    if IsImage(doc) then
      if doc.isEncrypted then EncryptedImage else PlainImage(doc.fileUrl)
    else
      IconTile(CardIcon(OrElse(doc.fileType, "")), TypeLabel(doc.fileType))
  }

  /** `getDocumentCategory(category)?.label || category`. */
  function CategoryBadge(category: string): (r: string)
    ensures category in DocumentCategories && DocumentCategories[category].labelText != "" ==>
      r == DocumentCategories[category].labelText
    ensures category !in DocumentCategories ==> r == category
  {
    match GetDocumentCategory(category)
    case Own(info) => if info.labelText != "" then info.labelText else category
    case Inherited => category
    case Missing => category
  }

  // ---------------------------------------------------------------------
  // formatFileSize
  // ---------------------------------------------------------------------

  function Pow1024(i: nat): (p: nat)
    ensures p >= 1
  {
    if i == 0 then 1 else 1024 * Pow1024(i - 1)
  }

  /** The unit index `floor(log(bytes) / log(1024))`, computed exactly. */
  function UnitIndex(bytes: nat): (i: nat)
    requires bytes >= 1
    ensures Pow1024(i) <= bytes < Pow1024(i + 1)
    decreases bytes
  {
    if bytes < 1024 then 0 else 1 + UnitIndex(bytes / 1024)
  }

  /** `parseFloat(x.toFixed(2))` printed back, for `x` given in hundredths: no trailing zeros. */
  function HundredthsText(n: nat): string {
    var whole := Decimal(n / 100);
    var frac := n % 100;
    if frac == 0 then whole
    else if frac % 10 == 0 then whole + "." + Decimal(frac / 10)
    else whole + "." + Decimal(frac / 10) + Decimal(frac % 10)
  }

  const SizeUnits: seq<string> := ["Bytes", "KB", "MB", "GB"]

  /**
   * `formatFileSize(bytes)` in exact arithmetic: zero is "0 Bytes";
   * otherwise the size in the largest unit not above it, rounded half-up to
   * two decimals. Past gigabytes the unit array runs out and JavaScript
   * prints "undefined".
   */
  function FormatFileSize(bytes: nat): (r: string)
    ensures bytes == 0 ==> r == "0 Bytes"
    ensures 1 <= bytes < 1024 ==> r == Decimal(bytes) + " Bytes"
    ensures bytes >= 1 ==> StartsWith(r, HundredthsText(SizeHundredths(bytes)) + " ")
    ensures bytes >= 1 ==> EndsWith(r, " " + SizeUnit(UnitIndex(bytes)))
    ensures bytes >= 1 ==> |r| == |HundredthsText(SizeHundredths(bytes))| + 1 + |SizeUnit(UnitIndex(bytes))|
  {
    if bytes == 0 then "0 Bytes"
    else
      SmallSizeInBytes(bytes);
      var unit := SizeUnit(UnitIndex(bytes));
      var number := HundredthsText(SizeHundredths(bytes));
      SizeText(number, unit);
      number + " " + unit
  }

  /** `sizes[i]` printed: the array's entry, or "undefined" past its end. */
  function SizeUnit(i: nat): string {
    if i < |SizeUnits| then SizeUnits[i] else "undefined"
  }

  /** Each range of sizes is printed in its own unit, and past gigabytes in none. */
  lemma FormatFileSizeUnit(bytes: nat)
    ensures 1024 <= bytes < 1048576 ==> EndsWith(FormatFileSize(bytes), " KB")
    ensures 1048576 <= bytes < 1073741824 ==> EndsWith(FormatFileSize(bytes), " MB")
    ensures 1073741824 <= bytes < 1099511627776 ==> EndsWith(FormatFileSize(bytes), " GB")
    ensures bytes >= 1099511627776 ==> EndsWith(FormatFileSize(bytes), " undefined")
  {
    if bytes >= 1 {
      UnitsByRange(bytes);
    }
  }

  /** A number, a space and a unit start with the number and space and end with the space and unit. */
  lemma SizeText(number: string, unit: string)
    ensures StartsWith(number + " " + unit, number + " ")
    ensures EndsWith(number + " " + unit, " " + unit)
  {
  }

  /**
   * `bytes / 1024^i` in hundredths, rounded half-up as `toFixed(2)` rounds
   * an exactly representable quotient: the nearest hundredth, the upper one
   * on a tie.
   */
  function SizeHundredths(bytes: nat): (h: nat)
    requires bytes >= 1
    ensures var p := Pow1024(UnitIndex(bytes));
      h * (2 * p) <= 200 * bytes + p < (h + 1) * (2 * p)
  {
    var p := Pow1024(UnitIndex(bytes));
    FloorDivision(200 * bytes + p, 2 * p);
    (200 * bytes + p) / (2 * p)
  }

  /** Floor division brackets its dividend between two multiples of the divisor. */
  lemma FloorDivision(x: nat, d: nat)
    requires d >= 1
    ensures x / d * d <= x < (x / d + 1) * d
  {
  }

  /** A larger exponent gives a power at least as large. */
  lemma {:induction false} PowMonotone(j: nat, i: nat)
    requires j <= i
    ensures Pow1024(j) <= Pow1024(i)
    decreases i
  {
    if j < i {
      PowMonotone(j, i - 1);
    }
  }

  /** The unit index is the one exponent whose power range holds `bytes`. */
  lemma UnitIndexOf(bytes: nat, i: nat)
    requires Pow1024(i) <= bytes < Pow1024(i + 1)
    ensures UnitIndex(bytes) == i
  {
    var k := UnitIndex(bytes);
    if k < i {
      PowMonotone(k + 1, i);
      assert false;
    } else if k > i {
      PowMonotone(i + 1, k);
      assert false;
    }
  }

  /** The unit the size is printed in, by range of `bytes`. */
  lemma UnitsByRange(bytes: nat)
    requires bytes >= 1
    ensures 1024 <= bytes < 1048576 ==> UnitIndex(bytes) == 1
    ensures 1048576 <= bytes < 1073741824 ==> UnitIndex(bytes) == 2
    ensures 1073741824 <= bytes < 1099511627776 ==> UnitIndex(bytes) == 3
    ensures bytes >= 1099511627776 ==> UnitIndex(bytes) >= 4
  {
    assert Pow1024(1) == 1024;
    assert Pow1024(2) == 1048576;
    assert Pow1024(3) == 1073741824;
    assert Pow1024(4) == 1099511627776;
    if 1024 <= bytes < 1048576 {
      UnitIndexOf(bytes, 1);
    } else if 1048576 <= bytes < 1073741824 {
      UnitIndexOf(bytes, 2);
    } else if 1073741824 <= bytes < 1099511627776 {
      UnitIndexOf(bytes, 3);
    } else if bytes >= 1099511627776 {
      var k := UnitIndex(bytes);
      if k < 4 {
        PowMonotone(k + 1, 4);
        assert false;
      }
    }
  }

  /** Below one kibibyte the unit index is 0 and the size is a whole number of bytes. */
  lemma SmallSizeInBytes(bytes: nat)
    requires bytes >= 1
    ensures bytes < 1024 ==> UnitIndex(bytes) == 0 && Pow1024(0) == 1
    ensures bytes < 1024 ==> (200 * bytes + 1) / 2 == 100 * bytes
    ensures HundredthsText(100 * bytes) == Decimal(bytes)
  {
    assert (100 * bytes) / 100 == bytes && (100 * bytes) % 100 == 0;
  }

  /** One kibibyte and a half reads "1.5 KB"; one mebibyte reads "1 MB". */
  lemma FormatFileSizeExamples()
    ensures FormatFileSize(1536) == "1.5 KB"
    ensures FormatFileSize(1048576) == "1 MB"
  {
    KibibyteAndAHalf();
    OneMebibyte();
  }

  lemma KibibyteAndAHalf()
    ensures FormatFileSize(1536) == "1.5 KB"
  {
    assert UnitIndex(1536) == 1;
    assert Pow1024(1) == 1024;
    assert SizeHundredths(1536) == 150;
    assert HundredthsText(150) == "1.5" by {
      assert Decimal(1) == "1" && Decimal(5) == "5";
    }
  }

  lemma OneMebibyte()
    ensures FormatFileSize(1048576) == "1 MB"
  {
    assert Pow1024(1) == 1024;
    assert Pow1024(2) == 1048576;
    assert UnitIndex(1024) == 1 + UnitIndex(1);
    assert UnitIndex(1048576) == 1 + UnitIndex(1024);
    assert SizeHundredths(1048576) == 100;
    assert HundredthsText(100) == "1" by {
      assert Decimal(1) == "1";
    }
  }
}
