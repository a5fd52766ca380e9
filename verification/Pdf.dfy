/** The one-page PDF writer: bytes, offsets, cross-reference table and stream lengths. */
module Pdf {
  import opened Wrappers
  import opened Sequences

  type byte = x: int | 0 <= x < 256

  // ---------------------------------------------------------------- text as bytes

  function Ascii(s: string): (r: seq<byte>)
    ensures |r| == |s|
  {
    seq(|s|, i requires 0 <= i < |s| => (s[i] as int) % 256)
  }

  lemma AsciiConcat(a: string, b: string)
    ensures Ascii(a + b) == Ascii(a) + Ascii(b)
  {
  }

  // ---------------------------------------------------------------- numbers

  function Decimal(n: nat): (s: string)
    ensures s != "" && forall c :: c in s ==> '0' <= c <= '9'
  {
    if n < 10 then ['0' + n as char] else Decimal(n / 10) + ['0' + (n % 10) as char]
  }

  predicate IsDigit(b: byte) {
    48 <= b <= 57
  }

  predicate Digits(s: seq<byte>) {
    forall i :: 0 <= i < |s| ==> IsDigit(s[i])
  }

  function Value(s: seq<byte>): nat
    requires Digits(s)
  {
    if s == [] then 0
    else
      10 * Value(s[..|s| - 1]) + (s[|s| - 1] - 48)
  }

  /** Reads an unsigned number the way a PDF reader does: digits only, leading zeros allowed. */
  function ParseDecimal(s: seq<byte>): Option<nat> {
    if s != [] && Digits(s) then Some(Value(s)) else None
  }

  function Pow10(k: nat): (r: nat)
    ensures r >= 1
  {
    if k == 0 then 1 else 10 * Pow10(k - 1)
  }

  lemma DecimalDigits(n: nat)
    ensures Digits(Ascii(Decimal(n)))
  {
    forall i | 0 <= i < |Decimal(n)| ensures IsDigit(Ascii(Decimal(n))[i]) {
      assert Decimal(n)[i] in Decimal(n);
    }
  }

  lemma {:induction false} DecimalParses(n: nat)
    ensures ParseDecimal(Ascii(Decimal(n))) == Some(n)
  {
    DecimalDigits(n);
    if n >= 10 {
      DecimalParses(n / 10);
      DecimalDigits(n / 10);
      AsciiConcat(Decimal(n / 10), ['0' + (n % 10) as char]);
      var s := Ascii(Decimal(n));
      assert s[..|s| - 1] == Ascii(Decimal(n / 10));
      assert s[|s| - 1] == 48 + n % 10;
      assert Value(s) == 10 * (n / 10) + n % 10;
    }
  }

  lemma {:induction false} DecimalLength(n: nat, k: nat)
    requires k >= 1
    ensures |Decimal(n)| <= k <==> n < Pow10(k)
  {
    if k == 1 {
    } else if n >= 10 {
      DecimalLength(n / 10, k - 1);
      assert n / 10 < Pow10(k - 1) <==> n < Pow10(k);
    }
  }

  lemma {:induction false} ValueBelow(s: seq<byte>)
    requires Digits(s)
    ensures Value(s) < Pow10(|s|)
  {
    if s != [] {
      ValueBelow(s[..|s| - 1]);
    }
  }

  function Zeros(k: nat): (s: string)
    ensures |s| == k && forall c :: c in s ==> c == '0'
  {
    seq(k, _ => '0')
  }

  function PadStart(s: string, width: nat): string {
    if |s| >= width then s else Zeros(width - |s|) + s
  }

  lemma {:induction false} LeadingZeros(k: nat, s: seq<byte>)
    requires Digits(s)
    ensures Digits(Ascii(Zeros(k)) + s)
    ensures Value(Ascii(Zeros(k)) + s) == Value(s)
  {
    if s == [] {
      assert Ascii(Zeros(k)) + s == Ascii(Zeros(k));
      if k > 0 {
        LeadingZeros(k - 1, []);
        assert Ascii(Zeros(k))[..k - 1] == Ascii(Zeros(k - 1)) + [];
      }
    } else {
      LeadingZeros(k, s[..|s| - 1]);
      assert (Ascii(Zeros(k)) + s)[..k + |s| - 1] == Ascii(Zeros(k)) + s[..|s| - 1];
    }
  }

  /** A padded offset takes exactly ten bytes, and reads back, exactly when it is below 10^10. */
  lemma PaddedOffset(o: nat)
    ensures |PadStart(Decimal(o), 10)| == 10 <==> o < 10000000000
    ensures ParseDecimal(Ascii(PadStart(Decimal(o), 10))) == Some(o)
  {
    DecimalLength(o, 10);
    assert Pow10(10) == 10000000000;
    DecimalParses(o);
    var d := Decimal(o);
    if |d| < 10 {
      DecimalDigits(o);
      AsciiConcat(Zeros(10 - |d|), d);
      LeadingZeros(10 - |d|, Ascii(d));
    }
  }

  // ---------------------------------------------------------------- the document

  function Flat(chunks: seq<seq<byte>>): seq<byte> {
    if chunks == [] then [] else Flat(chunks[..|chunks| - 1]) + chunks[|chunks| - 1]
  }

  function Header(): string {
    "%PDF-1.3\n"
  }

  function Opening(n: nat): string {
    Decimal(n) + " 0 obj\n"
  }

  function Catalog(): string {
    Opening(1) + ("<< /Type /Catalog " + "/Pages 2 0 R" + " >>\nendobj\n")
  }

  function Pages(): string {
    Opening(2) + ("<< /Type /Pages " + "/Kids [3 0 R]" + " /Count 1 >>\nendobj\n")
  }

  function Page(): string {
    Opening(3) + ("<< /Type /Page " + "/Parent 2 0 R" + " " + "/MediaBox [0 0 612 792]" + " /Resources << /XObject << " +
                  "/Im0 4 0 R" + " >> >> " + "/Contents 5 0 R" + " >>\nendobj\n")
  }

  function ImageEnd(): string {
    "\nendstream\nendobj\n"
  }

  function ContentEnd(): string {
    "endstream\nendobj\n"
  }

  function Stream(): string {
    " >>\nstream\n"
  }

  function XrefHead(): string {
    "xref\n0 6\n0000000000 65535 f \n"
  }

  function TrailerHead(): string {
    "trailer\n<< /Size 6 " + "/Root 1 0 R" + " >>\nstartxref\n"
  }

  function TrailerEnd(): string {
    "\n%%EOF\n"
  }


  // The numbers of the content stream are already rounded to text.
  datatype Placement = Placement(drawW: string, drawH: string, drawX: string, drawY: string)

  function Content(p: Placement): string {
    "q\n" + p.drawW + " 0 0 " + p.drawH + " " + p.drawX + " " + p.drawY + " cm\n/Im0 Do\nQ\n"
  }

  // Both stream dictionaries end in their length.
  function ImageHead(imgW: nat, imgH: nat): string {
    WidthKey() + Decimal(imgW) + HeightKey() + Decimal(imgH) + ImageTail()
  }

  function WidthKey(): string {
    Opening(4) + ("<< /Type /XObject /Subtype /Image " + "/Width ")
  }

  function HeightKey(): string {
    " /Height "
  }

  function ImageTail(): string {
    " " + "/ColorSpace /DeviceRGB" + " " + "/BitsPerComponent 8" + " " + "/Filter /DCTDecode" + " " + "/Length" + " "
  }

  function ContentHead(): string {
    Opening(5) + "<< /Length "
  }

  /** The text in front of a stream's data. */
  function StreamOpening(head: string, length: nat): string {
    head + Decimal(length) + Stream()
  }

  function EntryText(offset: nat): string {
    PadStart(Decimal(offset), 10) + " 00000 n \n"
  }

  function EntriesText(offsets: seq<nat>): string {
    if offsets == [] then "" else EntriesText(offsets[..|offsets| - 1]) + EntryText(offsets[|offsets| - 1])
  }

  /** The bytes of object n; number 0 is the file header. */
  function Object(n: nat, jpeg: seq<byte>, imgW: nat, imgH: nat, p: Placement): seq<byte> {
    match n
    case 0 => Ascii(Header())
    case 1 => Ascii(Catalog())
    case 2 => Ascii(Pages())
    case 3 => Ascii(Page())
    case 4 => Ascii(StreamOpening(ImageHead(imgW, imgH), |jpeg|)) + jpeg + Ascii(ImageEnd())
    case _ => Ascii(StreamOpening(ContentHead(), |Content(p)|) + Content(p) + ContentEnd())
  }

  function Objects(jpeg: seq<byte>, imgW: nat, imgH: nat, p: Placement): (r: seq<seq<byte>>)
    ensures |r| == 6
  {
    seq(6, n requires n >= 0 => Object(n, jpeg, imgW, imgH, p))
  }

  /** Where object n starts. */
  function Offset(objects: seq<seq<byte>>, n: nat): nat
    requires n <= |objects|
  {
    |Flat(objects[..n])|
  }

  function Offsets(objects: seq<seq<byte>>): seq<nat>
    requires |objects| == 6
  {
    [Offset(objects, 1), Offset(objects, 2), Offset(objects, 3), Offset(objects, 4), Offset(objects, 5)]
  }

  function Document(objects: seq<seq<byte>>): seq<byte>
    requires |objects| == 6
  {
    Flat(objects) + Ascii(XrefHead() + EntriesText(Offsets(objects)))
    + Ascii(TrailerHead() + Decimal(|Flat(objects)|) + TrailerEnd())
  }

  // ---------------------------------------------------------------- the writer

  /** Collects chunks and tracks the position; `offsets` notes where each object starts. */
  class Writer {
    var chunks: seq<seq<byte>>
    var offsets: map<nat, nat>
    var pos: nat

    ghost predicate Valid()
      reads this
    {
      pos == |Flat(chunks)|
    }

    constructor ()
      ensures Valid() && chunks == [] && offsets == map[] && pos == 0
    {
      chunks, offsets, pos := [], map[], 0;
    }

    method Push(u: seq<byte>)
      requires Valid()
      modifies this`chunks, this`pos
      ensures Valid() && Flat(chunks) == old(Flat(chunks)) + u
    {
      chunks := chunks + [u];
      pos := pos + |u|;
      assert chunks[..|chunks| - 1] == old(chunks);
    }

    method Put(s: string)
      requires Valid()
      modifies this`chunks, this`pos
      ensures Valid() && Flat(chunks) == old(Flat(chunks)) + Ascii(s)
    {
      Push(Ascii(s));
    }

    method Obj(n: nat)
      requires Valid()
      modifies this`offsets
      ensures offsets == old(offsets)[n := |Flat(chunks)|]
    {
      offsets := offsets[n := pos];
    }

    /** All chunks, copied one after the other into one buffer. */
    method Buffer() returns (buf: array<byte>)
      ensures fresh(buf) && buf[..] == Flat(chunks)
    {
      var total := 0;
      var k := 0;
      while k < |chunks|
        invariant 0 <= k <= |chunks| && total == |Flat(chunks[..k])|
      {
        assert chunks[..k + 1][..k] == chunks[..k];
        total := total + |chunks[k]|;
        k := k + 1;
      }
      assert chunks[..k] == chunks;
      buf := new byte[total];
      var o := 0;
      k := 0;
      while k < |chunks|
        invariant 0 <= k <= |chunks| && o == |Flat(chunks[..k])| <= total == buf.Length
        invariant buf[..o] == Flat(chunks[..k])
      {
        assert chunks[..k + 1][..k] == chunks[..k];
        FlatPrefix(chunks, k + 1);
        Set(buf, chunks[k], o);
        o := o + |chunks[k]|;
        k := k + 1;
      }
      assert chunks[..k] == chunks;
    }
  }

  lemma {:induction false} FlatPrefix(chunks: seq<seq<byte>>, k: nat)
    requires k <= |chunks|
    ensures |Flat(chunks[..k])| <= |Flat(chunks)|
    decreases |chunks| - k
  {
    if k == |chunks| {
      assert chunks[..k] == chunks;
    } else {
      FlatPrefix(chunks, k + 1);
      assert chunks[..k + 1][..k] == chunks[..k];
    }
  }

  /** Copies a chunk into the buffer from position o on. */
  method Set(buf: array<byte>, c: seq<byte>, o: nat)
    requires o + |c| <= buf.Length
    modifies buf
    ensures buf[..o + |c|] == old(buf[..o]) + c
  {
    var i := 0;
    while i < |c|
      invariant 0 <= i <= |c| && buf[..o + i] == old(buf[..o]) + c[..i]
    {
      buf[o + i] := c[i];
      i := i + 1;
    }
    assert c[..i] == c;
  }

  // ---------------------------------------------------------------- building the file

  lemma FlatNext(objects: seq<seq<byte>>, k: nat)
    requires k < |objects|
    ensures Flat(objects[..k + 1]) == Flat(objects[..k]) + objects[k]
  {
    assert objects[..k + 1][..k] == objects[..k];
  }

  lemma FlatNone(chunks: seq<seq<byte>>)
    requires chunks == []
    ensures Flat(chunks) == []
  {
  }

  /** Notes where object n starts and writes it. */
  method PutObject(w: Writer, n: nat, s: string, ghost objects: seq<seq<byte>>)
    requires w.Valid() && n < |objects| && objects[n] == Ascii(s) && Flat(w.chunks) == Flat(objects[..n])
    modifies w
    ensures w.Valid() && Flat(w.chunks) == Flat(objects[..n + 1])
    ensures w.offsets == old(w.offsets)[n := Offset(objects, n)]
  {
    w.Obj(n);
    w.Put(s);
    FlatNext(objects, n);
  }

  method PutImage(w: Writer, jpeg: seq<byte>, imgW: nat, imgH: nat, ghost objects: seq<seq<byte>>)
    requires w.Valid() && |objects| == 6 && Flat(w.chunks) == Flat(objects[..4])
    requires objects[4] == Ascii(StreamOpening(ImageHead(imgW, imgH), |jpeg|)) + jpeg + Ascii(ImageEnd())
    modifies w
    ensures w.Valid() && Flat(w.chunks) == Flat(objects[..5])
    ensures w.offsets == old(w.offsets)[4 := Offset(objects, 4)]
  {
    hide Ascii, StreamOpening, ImageEnd, ImageHead, Flat;
    w.Obj(4);
    ghost var before := Flat(w.chunks);
    w.Put(StreamOpening(ImageHead(imgW, imgH), |jpeg|));
    w.Push(jpeg);
    w.Put(ImageEnd());
    RegroupFour(before, Ascii(StreamOpening(ImageHead(imgW, imgH), |jpeg|)), jpeg, Ascii(ImageEnd()));
    FlatNext(objects, 4);
  }

  // The first n objects are written and their starts noted.
  ghost predicate Written(w: Writer, objects: seq<seq<byte>>, n: nat)
    reads w
    requires n < |objects|
  {
    && w.Valid() && Flat(w.chunks) == Flat(objects[..n + 1])
    && forall k :: 1 <= k <= n ==> k in w.offsets && w.offsets[k] == Offset(objects, k)
  }

  method PutPageTree(w: Writer, ghost objects: seq<seq<byte>>)
    requires w.Valid() && w.chunks == [] && |objects| == 6
    requires objects[0] == Ascii(Header()) && objects[1] == Ascii(Catalog())
    requires objects[2] == Ascii(Pages()) && objects[3] == Ascii(Page())
    modifies w
    ensures Written(w, objects, 3)
  {
    hide Header, Catalog, Pages, Page, Ascii, Flat, Offset;
    FlatNone(w.chunks);
    FlatNone(objects[..0]);
    FlatNext(objects, 0);
    w.Put(Header());
    PutObject(w, 1, Catalog(), objects);
    PutObject(w, 2, Pages(), objects);
    PutObject(w, 3, Page(), objects);
  }

  method PutObjects(w: Writer, jpeg: seq<byte>, imgW: nat, imgH: nat, p: Placement)
    requires w.Valid() && w.chunks == []
    modifies w
    ensures Written(w, Objects(jpeg, imgW, imgH, p), 5)
  {
    ghost var objects := Objects(jpeg, imgW, imgH, p);
    hide Header, Catalog, Pages, Page, StreamOpening, ImageEnd, ContentEnd, Ascii, Flat, Content, ImageHead,
      ContentHead, Offset;
    PutPageTree(w, objects);
    PutImage(w, jpeg, imgW, imgH, objects);
    var content := Content(p);
    PutObject(w, 5, StreamOpening(ContentHead(), |content|) + content + ContentEnd(), objects);
  }

  method PutXref(offsets: map<nat, nat>, ghost objects: seq<seq<byte>>) returns (xref: string)
    requires |objects| == 6 && forall n :: 1 <= n <= 5 ==> n in offsets && offsets[n] == Offset(objects, n)
    ensures xref == XrefHead() + EntriesText(Offsets(objects))
  {
    hide XrefHead, Flat, Decimal, PadStart;
    xref := XrefHead();
    var n := 1;
    ghost var all := Offsets(objects);
    assert XrefHead() + EntriesText(all[..0]) == XrefHead();
    while n <= 5
      invariant 1 <= n <= 6 && xref == XrefHead() + EntriesText(all[..n - 1])
    {
      EntriesNext(all, n - 1);
      xref := xref + (PadStart(Decimal(offsets[n]), 10) + " 00000 n \n");
      n := n + 1;
    }
    assert all[..5] == all;
  }

  lemma EntriesNext(offsets: seq<nat>, k: nat)
    requires k < |offsets|
    ensures EntriesText(offsets[..k + 1]) == EntriesText(offsets[..k]) + EntryText(offsets[k])
  {
    assert offsets[..k + 1][..k] == offsets[..k];
  }

  method PutTail(w: Writer, ghost objects: seq<seq<byte>>)
    requires |objects| == 6 && Written(w, objects, 5)
    modifies w
    ensures Flat(w.chunks) == Document(objects)
  {
    assert objects[..6] == objects;
    hide Flat, XrefHead, TrailerHead, TrailerEnd, Decimal, EntriesText, Offsets, Offset, Ascii;
    var xrefPos := w.pos;
    var xref := PutXref(w.offsets, objects);
    w.Put(xref);
    w.Put(TrailerHead() + Decimal(xrefPos) + TrailerEnd());
  }

  method DownloadJpegPdf(jpeg: seq<byte>, imgW: nat, imgH: nat, p: Placement) returns (buf: array<byte>)
    ensures fresh(buf) && buf[..] == Document(Objects(jpeg, imgW, imgH, p))
  {
    hide Objects, Written, Document, Flat;
    var w := new Writer();
    PutObjects(w, jpeg, imgW, imgH, p);
    PutTail(w, Objects(jpeg, imgW, imgH, p));
    buf := w.Buffer();
  }

  // ---------------------------------------------------------------- what a reader finds

  /** The text s stands at position i. */
  predicate At(doc: seq<byte>, i: nat, s: seq<byte>) {
    i + |s| <= |doc| && doc[i..i + |s|] == s
  }

  /** The digits at the end. */
  function LastDigits(s: seq<byte>): seq<byte> {
    if s == [] || !IsDigit(s[|s| - 1]) then [] else LastDigits(s[..|s| - 1]) + [s[|s| - 1]]
  }

  /** The number in front of the end-of-file marker. */
  function ReadStartXref(doc: seq<byte>): Option<nat> {
    var n := |TrailerEnd()|;
    if n <= |doc| && At(doc, |doc| - n, Ascii(TrailerEnd())) then ParseDecimal(LastDigits(doc[..|doc| - n])) else None
  }

  /** Entry n of a table at x: twenty bytes each, after a line of four and a line of five bytes. */
  function ReadEntry(doc: seq<byte>, x: nat, n: nat): Option<nat> {
    var i := x + 5 + 4 + 20 * n;
    if At(doc, i + 10, Ascii(" 00000 n \n")) then ParseDecimal(doc[i..i + 10]) else None
  }

  /** The length in the dictionary of a stream whose data starts at `start`. */
  function ReadLength(doc: seq<byte>, start: nat): Option<nat> {
    var n := |Stream()|;
    if n <= start && At(doc, start - n, Ascii(Stream())) then ParseDecimal(LastDigits(doc[..start - n])) else None
  }

  lemma AtMiddle(a: seq<byte>, s: seq<byte>, b: seq<byte>)
    ensures At(a + s + b, |a|, s)
  {
  }

  lemma {:induction false} LastDigitsAfter(a: seq<byte>, d: seq<byte>)
    requires Digits(d) && (a == [] || !IsDigit(a[|a| - 1]))
    ensures LastDigits(a + d) == d
  {
    if d == [] {
      assert a + d == a;
    } else {
      LastDigitsAfter(a, d[..|d| - 1]);
      assert (a + d)[..|a + d| - 1] == a + d[..|d| - 1];
    }
  }

  lemma NumberAtEnd(a: seq<byte>, n: nat)
    requires a == [] || !IsDigit(a[|a| - 1])
    ensures ParseDecimal(LastDigits(a + Ascii(Decimal(n)))) == Some(n)
  {
    DecimalDigits(n);
    LastDigitsAfter(a, Ascii(Decimal(n)));
    DecimalParses(n);
  }

  lemma TrailerHeadEnds()
    ensures TrailerHead() != "" && Ascii(TrailerHead())[|TrailerHead()| - 1] == 10
  {
  }

  lemma StartXrefReads(front: seq<byte>, n: nat)
    ensures ReadStartXref(front + Ascii(TrailerHead() + Decimal(n) + TrailerEnd())) == Some(n)
  {
    TrailerHeadEnds();
    hide TrailerHead, Decimal, Ascii;
    AsciiConcat(TrailerHead() + Decimal(n), TrailerEnd());
    AsciiConcat(TrailerHead(), Decimal(n));
    var doc := front + Ascii(TrailerHead() + Decimal(n) + TrailerEnd());
    var a := front + Ascii(TrailerHead());
    assert doc == (a + Ascii(Decimal(n))) + Ascii(TrailerEnd()) + [];
    AtMiddle(a + Ascii(Decimal(n)), Ascii(TrailerEnd()), []);
    assert doc[..|doc| - |TrailerEnd()|] == a + Ascii(Decimal(n));
    NumberAtEnd(a, n);
  }

  lemma {:induction false} EntriesWidth(offsets: seq<nat>)
    requires forall k :: 0 <= k < |offsets| ==> offsets[k] < 10000000000
    ensures |EntriesText(offsets)| == 20 * |offsets|
  {
    if offsets != [] {
      EntriesWidth(offsets[..|offsets| - 1]);
      PaddedOffset(offsets[|offsets| - 1]);
    }
  }

  lemma {:induction false} EntriesSplit(offsets: seq<nat>, k: nat) returns (rest: string)
    requires k <= |offsets|
    ensures EntriesText(offsets) == EntriesText(offsets[..k]) + rest
    decreases |offsets| - k
  {
    if k == |offsets| {
      assert offsets[..k] == offsets;
      rest := "";
    } else {
      rest := EntriesSplit(offsets, k + 1);
      EntriesNext(offsets, k);
      rest := EntryText(offsets[k]) + rest;
    }
  }

  lemma EntryReads(front: seq<byte>, o: nat, n: nat, x: nat, back: seq<byte>)
    requires o < 10000000000 && |front| == x + 5 + 4 + 20 * n
    ensures ReadEntry(front + Ascii(EntryText(o)) + back, x, n) == Some(o)
  {
    PaddedOffset(o);
    var digits, tail := Ascii(PadStart(Decimal(o), 10)), Ascii(" 00000 n \n");
    AsciiConcat(PadStart(Decimal(o), 10), " 00000 n \n");
    var doc := front + Ascii(EntryText(o)) + back;
    hide Ascii, PadStart, ParseDecimal;
    assert doc == (front + digits) + tail + back;
    AtMiddle(front + digits, tail, back);
    assert doc[|front|..|front| + 10] == digits;
  }

  /** Ten digits cannot name a position beyond 10^10. */
  lemma EntryBelow(doc: seq<byte>, x: nat, n: nat)
    ensures ReadEntry(doc, x, n).Some? ==> ReadEntry(doc, x, n).value < 10000000000
  {
    var i := x + 5 + 4 + 20 * n;
    if ReadEntry(doc, x, n).Some? {
      ValueBelow(doc[i..i + 10]);
      assert Pow10(10) == 10000000000;
    }
  }

  lemma {:induction false} FlatSplit(objects: seq<seq<byte>>, n: nat) returns (rest: seq<byte>)
    requires n <= |objects|
    ensures Flat(objects) == Flat(objects[..n]) + rest
    ensures n < |objects| ==> objects[n] <= rest
    decreases |objects| - n
  {
    if n == |objects| {
      assert objects[..n] == objects;
      rest := [];
    } else {
      rest := FlatSplit(objects, n + 1);
      FlatNext(objects, n);
      rest := objects[n] + rest;
    }
  }

  lemma OffsetsGrow(objects: seq<seq<byte>>, n: nat)
    requires |objects| == 6 && 1 <= n <= 5
    ensures Offsets(objects)[n - 1] == Offset(objects, n) <= Offset(objects, 5)
  {
    assert objects[..5][..n] == objects[..n];
    FlatPrefix(objects[..5], n);
  }

  lemma XrefTextSplit(offsets: seq<nat>, n: nat) returns (before: string, rest: string)
    requires 1 <= n <= |offsets| && forall k :: 0 <= k < |offsets| ==> offsets[k] < 10000000000
    ensures |before| == 5 + 4 + 20 * n
    ensures Ascii(XrefHead() + EntriesText(offsets)) == Ascii(before) + Ascii(EntryText(offsets[n - 1])) + Ascii(rest)
  {
    EntriesWidth(offsets[..n - 1]);
    rest := EntriesSplit(offsets, n);
    EntriesNext(offsets, n - 1);
    before := XrefHead() + EntriesText(offsets[..n - 1]);
    var entry := EntryText(offsets[n - 1]);
    assert |XrefHead()| == 29;
    hide XrefHead, EntryText, EntriesText, Ascii;
    Threefold(XrefHead(), EntriesText(offsets[..n - 1]), entry, rest);
    AsciiConcat(before + entry, rest);
    AsciiConcat(before, entry);
  }

  lemma Threefold<T>(a: seq<T>, b: seq<T>, c: seq<T>, d: seq<T>)
    ensures a + (b + c + d) == (a + b) + c + d
  {
  }

  lemma TableReads(objects: seq<seq<byte>>, n: nat)
    requires |objects| == 6 && 1 <= n <= 5 && Offset(objects, 5) < 10000000000
    ensures ReadEntry(Document(objects), |Flat(objects)|, n) == Some(Offset(objects, n))
  {
    var offsets, flat := Offsets(objects), Flat(objects);
    forall k | 0 <= k < 5 ensures offsets[k] < 10000000000 {
      OffsetsGrow(objects, k + 1);
    }
    var before, rest := XrefTextSplit(offsets, n);
    OffsetsGrow(objects, n);
    hide Ascii, EntryText, EntriesText, Flat, Offsets, Offset, Decimal, XrefHead, TrailerHead, TrailerEnd, ReadEntry;
    TableInDocument(objects, Ascii(before), Ascii(EntryText(offsets[n - 1])), Ascii(rest));
    var back := Ascii(rest) + Ascii(TrailerHead() + Decimal(|flat|) + TrailerEnd());
    EntryReads(flat + Ascii(before), offsets[n - 1], n, |flat|, back);
  }

  lemma TableInDocument(objects: seq<seq<byte>>, before: seq<byte>, entry: seq<byte>, rest: seq<byte>)
    requires |objects| == 6 && Ascii(XrefHead() + EntriesText(Offsets(objects))) == before + entry + rest
    ensures Document(objects)
         == (Flat(objects) + before) + entry
            + (rest + Ascii(TrailerHead() + Decimal(|Flat(objects)|) + TrailerEnd()))
  {
    hide Ascii, Flat, Decimal, XrefHead, TrailerHead, TrailerEnd, EntriesText, Offsets;
  }

  lemma AsciiPrefix(a: string, b: string)
    requires a <= b
    ensures Ascii(a) <= Ascii(b)
  {
  }

  lemma PrefixOfSum(a: string, b: string, c: string)
    requires a <= b
    ensures a <= b + c
  {
  }

  lemma HeadsOpen(imgW: nat, imgH: nat)
    ensures Opening(4) <= ImageHead(imgW, imgH) && Opening(5) <= ContentHead()
  {
    hide Opening, Decimal, HeightKey, ImageTail;
    var key := WidthKey();
    PrefixOfSum(Opening(4), key, Decimal(imgW));
    PrefixOfSum(Opening(4), key + Decimal(imgW), HeightKey());
    PrefixOfSum(Opening(4), key + Decimal(imgW) + HeightKey(), Decimal(imgH));
    PrefixOfSum(Opening(4), key + Decimal(imgW) + HeightKey() + Decimal(imgH), ImageTail());
  }

  /** An object's text starts with its own number. */
  lemma ObjectStarts(n: nat, jpeg: seq<byte>, imgW: nat, imgH: nat, p: Placement)
    requires 1 <= n <= 5
    ensures Ascii(Opening(n)) <= Object(n, jpeg, imgW, imgH, p)
  {
    hide Opening, Content, StreamOpening, ImageHead, ContentHead, ContentEnd, Ascii, Catalog, Pages, Page;
    match n {
      case 4 => ImageStarts(jpeg, imgW, imgH);
      case 5 => ContentStarts(imgW, imgH, p);
      case _ => PlainObjectStarts(n, imgW, imgH);
    }
  }

  lemma PlainObjectStarts(n: nat, imgW: nat, imgH: nat)
    requires 1 <= n <= 3
    ensures Ascii(Opening(n)) <= match n case 1 => Ascii(Catalog()) case 2 => Ascii(Pages()) case _ => Ascii(Page())
  {
    HeadsOpen(imgW, imgH);
    hide Opening, Ascii, Decimal, Stream;
    match n {
      case 1 => AsciiPrefix(Opening(1), Catalog());
      case 2 => AsciiPrefix(Opening(2), Pages());
      case _ => AsciiPrefix(Opening(3), Page());
    }
  }

  lemma ImageStarts(jpeg: seq<byte>, imgW: nat, imgH: nat)
    ensures Ascii(Opening(4)) <= Ascii(StreamOpening(ImageHead(imgW, imgH), |jpeg|)) + jpeg + Ascii(ImageEnd())
  {
    HeadsOpen(imgW, imgH);
    hide Opening, StreamOpening, ImageHead, ImageEnd, Ascii;
    StreamOpens(Opening(4), ImageHead(imgW, imgH), |jpeg|);
    AsciiPrefix(Opening(4), StreamOpening(ImageHead(imgW, imgH), |jpeg|));
  }

  lemma ContentStarts(imgW: nat, imgH: nat, p: Placement)
    ensures Ascii(Opening(5)) <= Ascii(StreamOpening(ContentHead(), |Content(p)|) + Content(p) + ContentEnd())
  {
    HeadsOpen(imgW, imgH);
    hide *;
    var text := StreamOpening(ContentHead(), |Content(p)|);
    StreamOpens(Opening(5), ContentHead(), |Content(p)|);
    PrefixOfSum(Opening(5), text, Content(p));
    PrefixOfSum(Opening(5), text + Content(p), ContentEnd());
    AsciiPrefix(Opening(5), text + Content(p) + ContentEnd());
  }

  lemma StreamOpens(a: string, head: string, length: nat)
    requires a <= head
    ensures a <= StreamOpening(head, length)
  {
    hide Decimal, Stream;
    PrefixOfSum(a, head, Decimal(length));
    PrefixOfSum(a, head + Decimal(length), Stream());
  }

  lemma ObjectInDocument(objects: seq<seq<byte>>, n: nat, start: seq<byte>)
    requires |objects| == 6 && n < 6 && start <= objects[n]
    ensures At(Document(objects), Offset(objects, n), start)
  {
    var rest := FlatSplit(objects, n);
    hide Ascii, Flat, EntriesText, Decimal, XrefHead, TrailerHead, TrailerEnd;
    var flat := Flat(objects);
    assert flat[|Flat(objects[..n])|..] == rest;
    assert At(flat, Offset(objects, n), start);
    assert flat <= Document(objects);
  }

  /**
   * The file's trailer leads to its cross-reference table; every entry of the table leads to its
   * object exactly as long as object 5 starts below byte 10^10.
   */
  lemma CrossReference(jpeg: seq<byte>, imgW: nat, imgH: nat, p: Placement)
    ensures var objects := Objects(jpeg, imgW, imgH, p);
      var doc := Document(objects);
      && ReadStartXref(doc).Some?
      && var x := ReadStartXref(doc).value;
        && At(doc, x, Ascii("xref\n0 6\n0000000000 65535 f \n"))
        && (forall n :: 1 <= n <= 5 ==> At(doc, Offset(objects, n), Ascii(Decimal(n) + " 0 obj\n")))
        && ((forall n :: 1 <= n <= 5 ==> ReadEntry(doc, x, n) == Some(Offset(objects, n)))
            <==> Offset(objects, 5) < 10000000000)
  {
    var objects := Objects(jpeg, imgW, imgH, p);
    XrefFound(objects);
    hide *;
    forall n | 1 <= n <= 5 ensures At(Document(objects), Offset(objects, n), Ascii(Decimal(n) + " 0 obj\n")) {
      OpeningIs(n);
      ObjectStarts(n, jpeg, imgW, imgH, p);
      ObjectAt(jpeg, imgW, imgH, p, n);
      ObjectInDocument(objects, n, Ascii(Opening(n)));
    }
    TableExact(objects);
  }

  lemma OpeningIs(n: nat)
    ensures Opening(n) == Decimal(n) + " 0 obj\n"
  {
  }

  lemma ObjectAt(jpeg: seq<byte>, imgW: nat, imgH: nat, p: Placement, n: nat)
    requires n < 6
    ensures Objects(jpeg, imgW, imgH, p)[n] == Object(n, jpeg, imgW, imgH, p)
  {
    hide Object;
  }

  lemma XrefFound(objects: seq<seq<byte>>)
    requires |objects| == 6
    ensures ReadStartXref(Document(objects)) == Some(|Flat(objects)|)
    ensures At(Document(objects), |Flat(objects)|, Ascii("xref\n0 6\n0000000000 65535 f \n"))
  {
    StartXrefReads(Flat(objects) + Ascii(XrefHead() + EntriesText(Offsets(objects))), |Flat(objects)|);
    HeadInDocument(objects);
    hide Flat, EntriesText, Offsets, Ascii, Decimal, At, ReadStartXref;
  }

  lemma TableExact(objects: seq<seq<byte>>)
    requires |objects| == 6
    ensures (forall n :: 1 <= n <= 5 ==> ReadEntry(Document(objects), |Flat(objects)|, n) == Some(Offset(objects, n)))
            <==> Offset(objects, 5) < 10000000000
  {
    hide *;
    if Offset(objects, 5) < 10000000000 {
      forall n | 1 <= n <= 5 ensures ReadEntry(Document(objects), |Flat(objects)|, n) == Some(Offset(objects, n)) {
        TableReads(objects, n);
      }
    } else {
      EntryBelow(Document(objects), |Flat(objects)|, 5);
    }
  }

  lemma HeadInDocument(objects: seq<seq<byte>>)
    requires |objects| == 6
    ensures At(Document(objects), |Flat(objects)|, Ascii("xref\n0 6\n0000000000 65535 f \n"))
    ensures Document(objects)
         == (Flat(objects) + Ascii(XrefHead() + EntriesText(Offsets(objects))))
            + Ascii(TrailerHead() + Decimal(|Flat(objects)|) + TrailerEnd())
  {
    AsciiConcat(XrefHead(), EntriesText(Offsets(objects)));
    assert XrefHead() == "xref\n0 6\n0000000000 65535 f \n";
    hide XrefHead, Ascii, Flat, Decimal, TrailerHead, TrailerEnd, EntriesText;
    AtMiddle(Flat(objects), Ascii(XrefHead()),
             Ascii(EntriesText(Offsets(objects))) + Ascii(TrailerHead() + Decimal(|Flat(objects)|) + TrailerEnd()));
  }

  // ---------------------------------------------------------------- stream lengths

  /** A dictionary that ends in its length, the data, and what follows. */
  lemma Regrouped<T>(a: seq<T>, b: seq<T>, c: seq<T>, d: seq<T>, e: seq<T>, f: seq<T>)
    ensures a + ((b + c) + d) + e + f == ((a + b) + c) + d + (e + f)
  {
  }

  lemma StreamReads(front: seq<byte>, head: string, data: seq<byte>, back: seq<byte>)
    requires head != "" && head[|head| - 1] == ' '
    ensures var opening := StreamOpening(head, |data|);
      ReadLength(front + Ascii(opening) + data + back, |front| + |opening|) == Some(|data|)
  {
    var d, s := Decimal(|data|), Stream();
    AsciiConcat(head + d, s);
    AsciiConcat(head, d);
    var a := front + Ascii(head);
    assert a[|a| - 1] == 32;
    hide Ascii, Decimal, Stream, ParseDecimal, LastDigits;
    var doc := front + Ascii(head + d + s) + data + back;
    Regrouped(front, Ascii(head), Ascii(d), Ascii(s), data, back);
    AtMiddle(a + Ascii(d), Ascii(s), data + back);
    assert doc[..|a + Ascii(d)|] == a + Ascii(d);
    NumberAtEnd(a, |data|);
  }

  /** The document around one object. */
  lemma DocumentSplit(objects: seq<seq<byte>>, n: nat) returns (back: seq<byte>)
    requires |objects| == 6 && n < 6
    ensures Document(objects) == Flat(objects[..n]) + objects[n] + back
  {
    var rest := FlatSplit(objects, n);
    hide Ascii, Flat, EntriesText, Decimal, XrefHead, TrailerHead, TrailerEnd, Offsets;
    var front, flat, more := Flat(objects[..n]), Flat(objects), rest[|objects[n]|..];
    assert rest == objects[n] + more;
    var table := Ascii(XrefHead() + EntriesText(Offsets(objects)));
    var trailer := Ascii(TrailerHead() + Decimal(|flat|) + TrailerEnd());
    back := more + table + trailer;
    RegroupFive(front, objects[n], more, table, trailer);
  }

  /** Where the data of a stream object starts. */
  function DataStart(objects: seq<seq<byte>>, n: nat, head: string, length: nat): nat
    requires n <= |objects|
  {
    Offset(objects, n) + |StreamOpening(head, length)|
  }

  /** A stream's data stands at `start`, is followed by `end`, and its dictionary states its length. */
  predicate StreamAt(doc: seq<byte>, start: nat, data: seq<byte>, end: seq<byte>) {
    ReadLength(doc, start) == Some(|data|) && At(doc, start, data) && At(doc, start + |data|, end)
  }

  lemma StreamInDocument(objects: seq<seq<byte>>, n: nat, head: string, data: seq<byte>, end: seq<byte>)
    requires |objects| == 6 && n < 6 && head != "" && head[|head| - 1] == ' '
    requires objects[n] == Ascii(StreamOpening(head, |data|)) + data + end
    ensures StreamAt(Document(objects), DataStart(objects, n, head, |data|), data, end)
  {
    hide *;
    DataStartIs(objects, n, head, |data|);
    var back := DocumentSplit(objects, n);
    StreamAround(Document(objects), Flat(objects[..n]), head, data, end, back);
  }

  lemma DataStartIs(objects: seq<seq<byte>>, n: nat, head: string, length: nat)
    requires n <= |objects|
    ensures DataStart(objects, n, head, length) == |Flat(objects[..n])| + |StreamOpening(head, length)|
  {
  }

  lemma StreamAround(doc: seq<byte>, front: seq<byte>, head: string, data: seq<byte>, end: seq<byte>, back: seq<byte>)
    requires head != "" && head[|head| - 1] == ' '
    requires doc == front + (Ascii(StreamOpening(head, |data|)) + data + end) + back
    ensures StreamAt(doc, |front| + |StreamOpening(head, |data|)|, data, end)
  {
    hide Ascii, StreamOpening, ReadLength, At;
    StreamReads(front, head, data, end + back);
    StreamSlices(front, Ascii(StreamOpening(head, |data|)), data, end, back);
  }

  lemma StreamSlices(front: seq<byte>, opening: seq<byte>, data: seq<byte>, end: seq<byte>, back: seq<byte>)
    ensures var doc, start := front + (opening + data + end) + back, |front| + |opening|;
      && doc == front + opening + data + (end + back)
      && At(doc, start, data) && At(doc, start + |data|, end)
  {
    var doc := front + opening + data + (end + back);
    AtMiddle(front + opening, data, end + back);
    AtMiddle(front + opening + data, end, back);
    hide At;
    assert doc == front + opening + data + end + back;
    assert doc == front + (opening + data + end) + back;
  }

  lemma HeadsEndInSpace(imgW: nat, imgH: nat)
    ensures ImageHead(imgW, imgH) != "" && ImageHead(imgW, imgH)[|ImageHead(imgW, imgH)| - 1] == ' '
    ensures ContentHead() != "" && ContentHead()[|ContentHead()| - 1] == ' '
  {
    hide Opening, Decimal;
  }

  lemma ImageObject(jpeg: seq<byte>, imgW: nat, imgH: nat, p: Placement)
    ensures Objects(jpeg, imgW, imgH, p)[4]
         == Ascii(StreamOpening(ImageHead(imgW, imgH), |jpeg|)) + jpeg + Ascii(ImageEnd())
  {
    hide Ascii, Content, ContentHead, ImageHead, StreamOpening, ContentEnd, ImageEnd;
  }

  lemma ContentObject(jpeg: seq<byte>, imgW: nat, imgH: nat, p: Placement)
    ensures var content := Ascii(Content(p));
      Objects(jpeg, imgW, imgH, p)[5]
      == Ascii(StreamOpening(ContentHead(), |content|)) + content + Ascii(ContentEnd())
  {
    var opening := StreamOpening(ContentHead(), |Content(p)|);
    assert |Ascii(Content(p))| == |Content(p)|;
    assert Objects(jpeg, imgW, imgH, p)[5] == Object(5, jpeg, imgW, imgH, p) == Ascii(opening + Content(p) + ContentEnd()) by {
      hide Ascii, Content, ContentHead, StreamOpening, ContentEnd;
    }
    hide *;
    AsciiConcat(opening + Content(p), ContentEnd());
    AsciiConcat(opening, Content(p));
  }

  lemma ImageReads(jpeg: seq<byte>, imgW: nat, imgH: nat, p: Placement)
    ensures var objects := Objects(jpeg, imgW, imgH, p);
      StreamAt(Document(objects), DataStart(objects, 4, ImageHead(imgW, imgH), |jpeg|), jpeg, Ascii(ImageEnd()))
  {
    hide *;
    HeadsEndInSpace(imgW, imgH);
    ImageObject(jpeg, imgW, imgH, p);
    StreamInDocument(Objects(jpeg, imgW, imgH, p), 4, ImageHead(imgW, imgH), jpeg, Ascii(ImageEnd()));
  }

  lemma ContentReads(jpeg: seq<byte>, imgW: nat, imgH: nat, p: Placement)
    ensures var objects, content := Objects(jpeg, imgW, imgH, p), Ascii(Content(p));
      StreamAt(Document(objects), DataStart(objects, 5, ContentHead(), |content|), content, Ascii(ContentEnd()))
  {
    hide *;
    HeadsEndInSpace(imgW, imgH);
    ContentObject(jpeg, imgW, imgH, p);
    StreamInDocument(Objects(jpeg, imgW, imgH, p), 5, ContentHead(), Ascii(Content(p)), Ascii(ContentEnd()));
  }

  /**
   * Both streams' dictionaries state exactly how many bytes lie between `stream` and `endstream`:
   * the JPEG data of object 4 and the content of object 5.
   */
  lemma StreamLengths(jpeg: seq<byte>, imgW: nat, imgH: nat, p: Placement)
    ensures var objects, content := Objects(jpeg, imgW, imgH, p), Ascii(Content(p));
      var doc := Document(objects);
      && StreamAt(doc, DataStart(objects, 4, ImageHead(imgW, imgH), |jpeg|), jpeg, Ascii(ImageEnd()))
      && StreamAt(doc, DataStart(objects, 5, ContentHead(), |content|), content, Ascii(ContentEnd()))
  {
    hide *;
    ImageReads(jpeg, imgW, imgH, p);
    ContentReads(jpeg, imgW, imgH, p);
  }

  // ---------------------------------------------------------------- what the objects say

  ghost predicate Contains(s: string, t: string) {
    exists i :: Occurs(s, t, i)
  }

  predicate Occurs(s: string, t: string, i: int) {
    0 <= i <= |s| - |t| && s[i..i + |t|] == t
  }

  lemma ContainsMiddle(a: string, t: string, b: string)
    ensures Contains(a + t + b, t)
  {
    assert (a + t + b)[|a|..|a| + |t|] == t;
    assert Occurs(a + t + b, t, |a|);
  }

  lemma ContainsLater(a: string, s: string, t: string)
    requires Contains(s, t)
    ensures Contains(a + s, t)
  {
    var i :| Occurs(s, t, i);
    assert (a + s)[|a| + i..|a| + i + |t|] == t;
    assert Occurs(a + s, t, |a| + i);
  }

  lemma ContainsEarlier(s: string, b: string, t: string)
    requires Contains(s, t)
    ensures Contains(s + b, t)
  {
    var i :| Occurs(s, t, i);
    assert (s + b)[i..i + |t|] == t;
    assert Occurs(s + b, t, i);
  }

  /** The trailer names the catalog, the catalog the pages, the pages the page, and the page its parent, image and content. */
  lemma References()
    ensures Contains(TrailerHead(), "/Root 1 0 R")
    ensures Contains(Catalog(), "/Pages 2 0 R")
    ensures Contains(Pages(), "/Kids [3 0 R]")
    ensures Contains(Page(), "/Parent 2 0 R") && Contains(Page(), "/MediaBox [0 0 612 792]")
    ensures Contains(Page(), "/Im0 4 0 R") && Contains(Page(), "/Contents 5 0 R")
  {
    ContainsMiddle("trailer\n<< /Size 6 ", "/Root 1 0 R", " >>\nstartxref\n");
    ContainsMiddle("<< /Type /Catalog ", "/Pages 2 0 R", " >>\nendobj\n");
    ContainsLater(Opening(1), "<< /Type /Catalog " + "/Pages 2 0 R" + " >>\nendobj\n", "/Pages 2 0 R");
    ContainsMiddle("<< /Type /Pages ", "/Kids [3 0 R]", " /Count 1 >>\nendobj\n");
    ContainsLater(Opening(2), "<< /Type /Pages " + "/Kids [3 0 R]" + " /Count 1 >>\nendobj\n", "/Kids [3 0 R]");
    PageReferences();
    hide Contains, Opening;
  }

  /** The image's dictionary names its width last of what stands in front of it, and says how the data is coded. */
  lemma ImageKeys()
    ensures WidthKey()[|WidthKey()| - 7..] == "/Width " && HeightKey() == " /Height "
    ensures Contains(ImageTail(), "/ColorSpace /DeviceRGB") && Contains(ImageTail(), "/BitsPerComponent 8")
    ensures Contains(ImageTail(), "/Filter /DCTDecode") && Contains(ImageTail(), "/Length")
  {
    hide Contains, Opening;
    PiecesContained("", " ", "/ColorSpace /DeviceRGB", " ", "/BitsPerComponent 8", " ", "/Filter /DCTDecode", " ", "/Length", " ");
    assert "" + ImageTail() == ImageTail();
  }

  lemma PageReferences()
    ensures Contains(Page(), "/Parent 2 0 R") && Contains(Page(), "/MediaBox [0 0 612 792]")
    ensures Contains(Page(), "/Im0 4 0 R") && Contains(Page(), "/Contents 5 0 R")
  {
    hide Contains, Opening;
    var a, b, c := "<< /Type /Page ", "/Parent 2 0 R", " ";
    var d, e, f := "/MediaBox [0 0 612 792]", " /Resources << /XObject << ", "/Im0 4 0 R";
    var g, h, i := " >> >> ", "/Contents 5 0 R", " >>\nendobj\n";
    PiecesContained(Opening(3), a, b, c, d, e, f, g, h, i);
  }

  lemma PiecesContained(o: string, a: string, b: string, c: string, d: string, e: string, f: string, g: string, h: string, i: string)
    ensures var s := o + (a + b + c + d + e + f + g + h + i);
      Contains(s, b) && Contains(s, d) && Contains(s, f) && Contains(s, h)
  {
    var s := a + b + c + d + e + f + g + h + i;
    hide Contains;
    ContainsMiddle(a, b, c);
    ContainsEarlier(a + b + c, d, b);
    ContainsMiddle(a + b + c, d, e);
    LateParts(a + b + c + d, e, f, g, h, i, b);
    ContainsEarlier(a + b + c + d + e, f, d);
    ContainsEarlier(a + b + c + d + e + f, g, d);
    ContainsEarlier(a + b + c + d + e + f + g, h, d);
    ContainsEarlier(a + b + c + d + e + f + g + h, i, d);
    ContainsMiddle(a + b + c + d + e, f, g);
    ContainsEarlier(a + b + c + d + e + f + g, h, f);
    ContainsEarlier(a + b + c + d + e + f + g + h, i, f);
    ContainsMiddle(a + b + c + d + e + f + g, h, i);
    ContainsLater(o, s, b);
    ContainsLater(o, s, d);
    ContainsLater(o, s, f);
    ContainsLater(o, s, h);
  }

  lemma LateParts(s: string, e: string, f: string, g: string, h: string, i: string, t: string)
    requires Contains(s, t)
    ensures Contains(s + e + f + g + h + i, t)
  {
    hide Contains;
    ContainsEarlier(s, e, t);
    ContainsEarlier(s + e, f, t);
    ContainsEarlier(s + e + f, g, t);
    ContainsEarlier(s + e + f + g, h, t);
    ContainsEarlier(s + e + f + g + h, i, t);
  }

  /** The digits that the bytes start with. */
  function FirstDigits(s: seq<byte>): seq<byte> {
    if s == [] || !IsDigit(s[0]) then [] else [s[0]] + FirstDigits(s[1..])
  }

  /** The number that stands at position i. */
  function ReadNumber(doc: seq<byte>, i: nat): Option<nat> {
    if i <= |doc| then ParseDecimal(FirstDigits(doc[i..])) else None
  }

  lemma {:induction false} FirstDigitsOf(digits: seq<byte>, rest: seq<byte>)
    requires Digits(digits) && (rest != [] ==> !IsDigit(rest[0]))
    ensures FirstDigits(digits + rest) == digits
  {
    if digits == [] {
      assert digits + rest == rest;
    } else {
      assert (digits + rest)[1..] == digits[1..] + rest;
      FirstDigitsOf(digits[1..], rest);
    }
  }

  lemma NumberReads(doc: seq<byte>, front: seq<byte>, n: nat, rest: seq<byte>)
    requires doc == front + Ascii(Decimal(n)) + rest && rest != [] && !IsDigit(rest[0])
    ensures ReadNumber(doc, |front|) == Some(n)
  {
    DecimalDigits(n);
    DecimalParses(n);
    FirstDigitsOf(Ascii(Decimal(n)), rest);
    assert doc[|front|..] == Ascii(Decimal(n)) + rest;
    hide Ascii, ParseDecimal, FirstDigits;
  }

  lemma LeadingByte(a: seq<byte>, b: seq<byte>)
    requires a != []
    ensures a + b != [] && (a + b)[0] == a[0]
  {
  }

  // A key and the number behind it.
  lemma KeyedNumber(doc: seq<byte>, front: seq<byte>, key: seq<byte>, n: nat, next: seq<byte>, rest: seq<byte>)
    requires doc == front + key + (Ascii(Decimal(n)) + (next + rest)) && doc == front + key + Ascii(Decimal(n)) + (next + rest)
    requires next != [] && !IsDigit(next[0])
    ensures At(doc, |front|, key) && ReadNumber(doc, |front| + |key|) == Some(n)
  {
    hide *;
    AtMiddle(front, key, Ascii(Decimal(n)) + (next + rest));
    LeadingByte(next, rest);
    NumberReads(doc, front + key, n, next + rest);
    LengthOfSum(front, key);
  }

  lemma LengthOfSum<T>(a: seq<T>, b: seq<T>)
    ensures |a + b| == |a| + |b|
  {
  }

  lemma SizesRead(doc: seq<byte>, front: seq<byte>, a: string, w: nat, b: string, h: nat, c: string, rest: seq<byte>)
    requires doc == front + Ascii(a + Decimal(w) + b + Decimal(h) + c) + rest
    requires b != "" && b[0] == ' ' && c != "" && c[0] == ' '
    ensures At(doc, |front|, Ascii(a)) && ReadNumber(doc, |front| + |a|) == Some(w)
    ensures At(doc, |front| + |a| + |Decimal(w)|, Ascii(b))
    ensures ReadNumber(doc, |front| + |a| + |Decimal(w)| + |b|) == Some(h)
  {
    hide *;
    SpaceFirst(b);
    SpaceFirst(c);
    FiveAscii(a, Decimal(w), b, Decimal(h), c);
    TwoNumbers(doc, front, Ascii(a), w, Ascii(b), h, Ascii(c), rest);
  }

  lemma SpaceFirst(s: string)
    requires s != "" && s[0] == ' '
    ensures Ascii(s) != [] && !IsDigit(Ascii(s)[0])
  {
  }

  lemma TwoNumbers(doc: seq<byte>, front: seq<byte>, a: seq<byte>, w: nat, b: seq<byte>, h: nat, c: seq<byte>, rest: seq<byte>)
    requires doc == front + (a + Ascii(Decimal(w)) + b + Ascii(Decimal(h)) + c) + rest
    requires b != [] && !IsDigit(b[0]) && c != [] && !IsDigit(c[0])
    ensures At(doc, |front|, a) && ReadNumber(doc, |front| + |a|) == Some(w)
    ensures At(doc, |front| + |a| + |Decimal(w)|, b)
    ensures ReadNumber(doc, |front| + |a| + |Decimal(w)| + |b|) == Some(h)
  {
    hide *;
    var W, H := Ascii(Decimal(w)), Ascii(Decimal(h));
    Grouped(front, a, W, b, H, c, rest);
    KeyedNumber(doc, front, a, w, b, H + (c + rest));
    KeyedNumber(doc, front + a + W, b, h, c, rest);
    LengthOfSum(front + a, W);
    LengthOfSum(front, a);
  }

  lemma FiveAscii(a: string, b: string, c: string, d: string, e: string)
    ensures Ascii(a + b + c + d + e) == Ascii(a) + Ascii(b) + Ascii(c) + Ascii(d) + Ascii(e)
  {
    hide *;
    AsciiConcat(a + b + c + d, e);
    AsciiConcat(a + b + c, d);
    AsciiConcat(a + b, c);
    AsciiConcat(a, b);
  }

  lemma Grouped<T>(f: seq<T>, a: seq<T>, w: seq<T>, b: seq<T>, h: seq<T>, c: seq<T>, r: seq<T>)
    ensures f + (a + w + b + h + c) + r == f + a + (w + (b + (h + (c + r))))
    ensures f + (a + w + b + h + c) + r == f + a + w + (b + (h + (c + r)))
    ensures f + (a + w + b + h + c) + r == f + a + w + b + (h + (c + r))
    ensures f + (a + w + b + h + c) + r == f + a + w + b + h + (c + r)
  {
    var r3 := c + r;
    var r2 := h + r3;
    var r1 := b + r2;
    Regroup(a + w + b + h, c, r);
    Regroup(f, a + w + b + h + c, r);
    Regroup(a + w + b, h, r3);
    Regroup(a + w, b, r2);
    Regroup(a, w, r1);
    Regroup(f, a, w + r1);
    Regroup(f + a, w, r1);
    Regroup(f + a + w, b, r2);
    Regroup(f + a + w + b, h, r3);
  }

  lemma ImageHeadInDocument(jpeg: seq<byte>, imgW: nat, imgH: nat, p: Placement) returns (rest: seq<byte>)
    ensures var objects := Objects(jpeg, imgW, imgH, p);
      Document(objects) == Flat(objects[..4]) + Ascii(ImageHead(imgW, imgH)) + rest
  {
    var objects := Objects(jpeg, imgW, imgH, p);
    assert StreamOpening(ImageHead(imgW, imgH), |jpeg|) == ImageHead(imgW, imgH) + (Decimal(|jpeg|) + Stream()) by {
      hide ImageHead, Decimal, Stream;
    }
    hide *;
    ImageObject(jpeg, imgW, imgH, p);
    var back := DocumentSplit(objects, 4);
    AsciiConcat(ImageHead(imgW, imgH), Decimal(|jpeg|) + Stream());
    var more := Ascii(Decimal(|jpeg|) + Stream());
    rest := more + jpeg + Ascii(ImageEnd()) + back;
    HeadFirst(Flat(objects[..4]), Ascii(ImageHead(imgW, imgH)), more, jpeg, Ascii(ImageEnd()), back);
  }

  lemma HeadFirst(a: seq<byte>, b: seq<byte>, c: seq<byte>, d: seq<byte>, e: seq<byte>, f: seq<byte>)
    ensures a + ((b + c) + d + e) + f == a + b + (c + d + e + f)
  {
  }

  lemma KeyShapes()
    ensures HeightKey() == " /Height " && |HeightKey()| == 9 && HeightKey()[0] == ' '
    ensures ImageTail() != "" && ImageTail()[0] == ' '
  {
  }

  lemma ImageHeadIs(imgW: nat, imgH: nat)
    ensures ImageHead(imgW, imgH) == WidthKey() + Decimal(imgW) + HeightKey() + Decimal(imgH) + ImageTail()
  {
  }

  lemma OffsetIs(objects: seq<seq<byte>>, n: nat)
    requires n <= |objects|
    ensures Offset(objects, n) == |Flat(objects[..n])|
  {
  }

  /** A reader finds the image's width and height behind their keys. */
  lemma ImageSizeReads(jpeg: seq<byte>, imgW: nat, imgH: nat, p: Placement)
    ensures var objects := Objects(jpeg, imgW, imgH, p);
      var doc, w := Document(objects), Offset(objects, 4) + |WidthKey()|;
      && At(doc, Offset(objects, 4), Ascii(WidthKey())) && ReadNumber(doc, w) == Some(imgW)
      && At(doc, w + |Decimal(imgW)|, Ascii(HeightKey())) && ReadNumber(doc, w + |Decimal(imgW)| + |HeightKey()|) == Some(imgH)
  {
    hide *;
    var objects := Objects(jpeg, imgW, imgH, p);
    OffsetIs(objects, 4);
    KeyShapes();
    var rest := ImageHeadInDocument(jpeg, imgW, imgH, p);
    ImageHeadIs(imgW, imgH);
    SizesRead(Document(objects), Flat(objects[..4]), WidthKey(), imgW, HeightKey(), imgH, ImageTail(), rest);
  }

  // The words of a content stream, split at spaces and newlines.
  function Tokens(s: string, word: string): seq<string> {
    if s == "" then if word == "" then [] else [word]
    else if s[0] == ' ' || s[0] == '\n' then (if word == "" then [] else [word]) + Tokens(s[1..], "")
    else Tokens(s[1..], word + [s[0]])
  }

  predicate IsToken(s: string) {
    s != "" && forall i :: 0 <= i < |s| ==> s[i] != ' ' && s[i] != '\n'
  }

  lemma {:induction false} TokenAhead(s: string, rest: string, word: string)
    requires forall i :: 0 <= i < |s| ==> s[i] != ' ' && s[i] != '\n'
    ensures Tokens(s + rest, word) == Tokens(rest, word + s)
  {
    if s == "" {
      assert s + rest == rest && word + s == word;
    } else {
      assert (s + rest)[1..] == s[1..] + rest;
      TokenAhead(s[1..], rest, word + [s[0]]);
      assert word + [s[0]] + s[1..] == word + s;
    }
  }

  lemma NextToken(s: string, rest: string)
    requires IsToken(s) && rest != "" && (rest[0] == ' ' || rest[0] == '\n')
    ensures Tokens(s + rest, "") == [s] + Tokens(rest[1..], "")
  {
    TokenAhead(s, rest, "");
    assert "" + s == s;
  }

  lemma Follows(s: string, sep: string, rest: string)
    requires IsToken(s) && (sep == " " || sep == "\n")
    ensures Tokens(s + (sep + rest), "") == [s] + Tokens(rest, "")
  {
    NextToken(s, sep + rest);
    assert (sep + rest)[1..] == rest;
  }

  /** The content stream draws the image with the matrix [drawW 0 0 drawH drawX drawY], between q and Q. */
  lemma ContentSays(p: Placement)
    requires IsToken(p.drawW) && IsToken(p.drawH) && IsToken(p.drawX) && IsToken(p.drawY)
    ensures Tokens(Content(p), "")
         == ["q", p.drawW, "0", "0", p.drawH, p.drawX, p.drawY, "cm", "/Im0", "Do", "Q"]
  {
    var r7 := "cm" + ("\n" + ("/Im0" + (" " + ("Do" + ("\n" + ("Q" + ("\n" + "")))))));
    var r4 := p.drawH + (" " + (p.drawX + (" " + (p.drawY + (" " + r7)))));
    var r0 := "q" + ("\n" + (p.drawW + (" " + ("0" + (" " + ("0" + (" " + r4)))))));
    ContentParts(p, r7, r4, r0);
    assert IsToken("q") && IsToken("0");
    LastTokens(r7);
    hide Content, IsToken, Tokens;
    Follows(p.drawY, " ", r7);
    Follows(p.drawX, " ", p.drawY + (" " + r7));
    Follows(p.drawH, " ", p.drawX + (" " + (p.drawY + (" " + r7))));
    FirstTokens(p.drawW, r4);
    assert Tokens(r4, "") == [p.drawH, p.drawX, p.drawY] + Tokens(r7, "");
  }

  lemma FirstTokens(w: string, r: string)
    requires IsToken(w)
    ensures Tokens("q" + ("\n" + (w + (" " + ("0" + (" " + ("0" + (" " + r))))))), "") == ["q", w, "0", "0"] + Tokens(r, "")
  {
    assert IsToken("q") && IsToken("0");
    hide IsToken, Tokens;
    Follows("0", " ", r);
    Follows("0", " ", "0" + (" " + r));
    Follows(w, " ", "0" + (" " + ("0" + (" " + r))));
    Follows("q", "\n", w + (" " + ("0" + (" " + ("0" + (" " + r))))));
  }

  lemma LastTokens(r: string)
    requires r == "cm" + ("\n" + ("/Im0" + (" " + ("Do" + ("\n" + ("Q" + ("\n" + "")))))))
    ensures Tokens(r, "") == ["cm", "/Im0", "Do", "Q"]
  {
    assert IsToken("cm") && IsToken("/Im0") && IsToken("Do") && IsToken("Q") && Tokens("", "") == [];
    hide IsToken, Tokens;
    Follows("Q", "\n", "");
    Follows("Do", "\n", "Q" + ("\n" + ""));
    Follows("/Im0", " ", "Do" + ("\n" + ("Q" + ("\n" + ""))));
    Follows("cm", "\n", "/Im0" + (" " + ("Do" + ("\n" + ("Q" + ("\n" + ""))))));
  }

  lemma ContentParts(p: Placement, r7: string, r4: string, r0: string)
    requires r7 == "cm" + ("\n" + ("/Im0" + (" " + ("Do" + ("\n" + ("Q" + ("\n" + "")))))))
    requires r4 == p.drawH + (" " + (p.drawX + (" " + (p.drawY + (" " + r7)))))
    requires r0 == "q" + ("\n" + (p.drawW + (" " + ("0" + (" " + ("0" + (" " + r4)))))))
    ensures Content(p) == r0
  {
    assert r7 == "cm\n/Im0 Do\nQ\n";
  }
}
