/**
 The hand-written PDF writer: numbered objects, a cross-reference table and a trailer, as sections
 7.5.4 and 7.5.5 of ISO 32000-1 lay them out, and a reader that finds every page through them.
 A file is a text of one character per byte: a content stream is given as its UTF-8 bytes, and
 everything else the writer emits is ASCII.
 */
module PdfFile {
  import opened Decimal
  import opened Layout
  import opened Wrappers

  datatype Doc = Doc(streams: seq<string>, width: nat, height: nat)

  // ---------- the fixed texts ----------

  function Header(): string { "%PDF-1.4\n" }
  function ObjHead(): string { " 0 obj\n" }
  function ObjEnd(): string { "\nendobj\n" }
  function RefEnd(): string { " 0 R" }
  function CatalogHead(): string { "<< /Type /Catalog /Pages " }
  function RefClose(): string { " 0 R >>" }
  function PagesHead(): string { "<< /Type /Pages /Kids [" }
  function CountHead(): string { "] /Count " }
  function Close(): string { " >>" }
  function FontHead(): string { "<< /Type /Font /Subtype /Type1 /BaseFont /Helvetica" }
  function BoldSuffix(): string { "-Bold" }
  function FontEnd(): string { " /Encoding /WinAnsiEncoding >>" }
  function PageHead(): string { "<< /Type /Page /Parent " }
  function BoxHead(): string { " 0 R /MediaBox [0 0 " }
  function Space(): string { " " }
  function ResourcesHead(): string { "] /Resources << /Font << /F1 " }
  function BoldHead(): string { " 0 R /F2 " }
  function ContentsHead(): string { " 0 R >> >> /Contents " }
  function LengthHead(): string { "<< /Length " }
  function StreamHead(): string { " >>\nstream\n" }
  function StreamEnd(): string { "\nendstream" }
  function XrefHead(): string { "xref\n0 " }
  function NewLine(): string { "\n" }
  function FreeEntry(): string { "0000000000 65535 f \n" }
  function EntryEnd(): string { " 00000 n \n" }
  function TrailerHead(): string { "trailer\n<< /Size " }
  function RootHead(): string { " /Root " }
  function StartHead(): string { " 0 R >>\nstartxref\n" }
  function FileEnd(): string { "\n%%EOF\n" }

  // ---------- the document ----------

  const FIRST_PAGE: nat := 5

  function PageId(k: nat): nat { FIRST_PAGE + k * 2 }

  function ContentId(k: nat): nat { FIRST_PAGE + k * 2 + 1 }

  /** The references to the pages from number `k` on, separated by spaces. */
  function Kids(n: nat, k: nat): string
    requires k <= n
    decreases n - k
  {
    if k == n then []
    else if k + 1 == n then Dec(PageId(k)) + RefEnd()
    else Dec(PageId(k)) + (RefEnd() + (Space() + Kids(n, k + 1)))
  }

  function CatalogBody(): string { CatalogHead() + (Dec(2) + RefClose()) }

  function PagesBody(n: nat): string { PagesHead() + (Kids(n, 0) + (CountHead() + (Dec(n) + Close()))) }

  function FontBody(bold: bool): string { FontHead() + ((if bold then BoldSuffix() else []) + FontEnd()) }

  function BoxText(d: Doc): string {
    PageHead() + (Dec(2) + (BoxHead() + (Dec(d.width) + (Space() + Dec(d.height)))))
  }

  function ResourcesText(contents: nat): string {
    ResourcesHead() + (Dec(3) + (BoldHead() + (Dec(4) + (ContentsHead() + (Dec(contents) + RefClose())))))
  }

  function PageBody(d: Doc, k: nat): string { BoxText(d) + ResourcesText(ContentId(k)) }

  function ContentBody(stream: string): string {
    LengthHead() + (Dec(|stream|) + (StreamHead() + (stream + StreamEnd())))
  }

  function Count(d: Doc): nat { 4 + 2 * |d.streams| }

  /** The body of object `id`: catalog, page tree, two fonts, then a page and its content in turn. */
  function Body(d: Doc, id: nat): string
    requires 1 <= id <= Count(d)
  {
    if id == 1 then CatalogBody()
    else if id == 2 then PagesBody(|d.streams|)
    else if id == 3 then FontBody(false)
    else if id == 4 then FontBody(true)
    else if id % 2 == 1 then PageBody(d, (id - FIRST_PAGE) / 2)
    else ContentBody(d.streams[(id - FIRST_PAGE - 1) / 2])
  }

  function ObjectText(id: nat, body: string): string { Dec(id) + (ObjHead() + (body + ObjEnd())) }

  /** The header and the first `n` objects. */
  function Objects(d: Doc, n: nat): string
    requires n <= Count(d)
  {
    if n == 0 then Header() else Objects(d, n - 1) + ObjectText(n, Body(d, n))
  }

  /** The byte position of object `id`. */
  function Offset(d: Doc, id: nat): nat
    requires 1 <= id <= Count(d)
  {
    |Objects(d, id - 1)|
  }

  function EntryText(offset: nat): string { Padded(offset, 10) + EntryEnd() }

  /** The table entries from object `id` on. */
  function Entries(d: Doc, id: nat): string
    requires 1 <= id <= Count(d) + 1
    decreases Count(d) + 1 - id
  {
    if id > Count(d) then [] else EntryText(Offset(d, id)) + Entries(d, id + 1)
  }

  function Trailer(size: nat, xref: nat): string {
    TrailerHead() + (Dec(size) + (RootHead() + (Dec(1) + (StartHead() + (Dec(xref) + FileEnd())))))
  }

  function TableAndTrailer(d: Doc): string {
    XrefHead() + (Dec(Count(d) + 1)
      + (NewLine() + (FreeEntry() + (Entries(d, 1) + Trailer(Count(d) + 1, |Objects(d, Count(d))|)))))
  }

  function Pdf(d: Doc): string { Objects(d, Count(d)) + TableAndTrailer(d) }

  // ---------- the reader ----------

  datatype Page = Page(width: nat, height: nat, fonts: seq<bool>, stream: string)

  datatype Table = Table(offsets: seq<nat>, next: nat)

  datatype KidList = KidList(ids: seq<nat>, next: nat)

  function Expect(z: string, at: nat, text: string): Option<nat> {
    if HasAt(z, at, text) then Some(at + |text|) else None
  }

  function Need(condition: bool): Option<bool> { if condition then Some(true) else None }

  /** The number between the last "startxref" and the end-of-file mark. */
  function ReadStart(z: string): Option<nat> {
    if |z| < |FileEnd()| || !HasAt(z, |z| - |FileEnd()|, FileEnd()) then None
    else
      var xref :- ReadNat(z, RunStart(z, |z| - |FileEnd()|));
      Some(xref.value)
  }

  /** `count` entries of exactly twenty bytes each. */
  function ReadEntries(z: string, at: nat, count: nat): Option<Table>
    decreases count
  {
    if count == 0 then Some(Table([], at))
    else if at + 20 > |z| || !Digits(z[at..at + 10]) || !HasAt(z, at + 10, EntryEnd()) then None
    else
      var rest :- ReadEntries(z, at + 20, count - 1);
      Some(Table([Value(z[at..at + 10], 10)] + rest.offsets, rest.next))
  }

  /** The whole table: `offsets[i]` belongs to object i + 1. */
  function ReadTable(z: string, at: nat): Option<Table> {
    var at :- Expect(z, at, XrefHead());
    var size :- ReadNat(z, at);
    var at :- Expect(z, size.next, NewLine());
    var at :- Expect(z, at, FreeEntry());
    var _ :- Need(size.value > 0);
    ReadEntries(z, at, size.value - 1)
  }

  datatype TrailerData = TrailerData(size: nat, root: nat)

  function ReadTrailer(z: string, at: nat): Option<TrailerData> {
    var at :- Expect(z, at, TrailerHead());
    var size :- ReadNat(z, at);
    var at :- Expect(z, size.next, RootHead());
    var root :- ReadNat(z, at);
    var _ :- Expect(z, root.next, StartHead());
    Some(TrailerData(size.value, root.value))
  }

  /** Where the body of object `id` starts, by its table entry; the number found there must be `id`.
      There is no object at or above the size of the table. */
  function OpenObject(z: string, offsets: seq<nat>, id: nat): Option<nat> {
    if id == 0 || id > |offsets| then None
    else
      var number :- ReadNat(z, offsets[id - 1]);
      var _ :- Need(number.value == id);
      Expect(z, number.next, ObjHead())
  }

  function ReadCatalog(z: string, offsets: seq<nat>, id: nat): Option<nat> {
    var at :- OpenObject(z, offsets, id);
    var at :- Expect(z, at, CatalogHead());
    var pages :- ReadNat(z, at);
    var _ :- Expect(z, pages.next, RefClose() + ObjEnd());
    Some(pages.value)
  }

  function ReadKids(z: string, at: nat): Option<KidList>
    decreases |z| - at
  {
    if HasAt(z, at, CountHead()) then Some(KidList([], at))
    else
      var kid :- ReadNat(z, at);
      var at1 :- Expect(z, kid.next, RefEnd());
      var at2 := if HasAt(z, at1, Space()) then at1 + 1 else at1;
      var _ :- Need(at < at2 <= |z|);
      var rest :- ReadKids(z, at2);
      Some(KidList([kid.value] + rest.ids, rest.next))
  }

  /** The kids of the page tree, whose number must be its count. */
  function ReadPages(z: string, offsets: seq<nat>, id: nat): Option<seq<nat>> {
    var at :- OpenObject(z, offsets, id);
    var at :- Expect(z, at, PagesHead());
    var kids :- ReadKids(z, at);
    var at :- Expect(z, kids.next, CountHead());
    var count :- ReadNat(z, at);
    var _ :- Expect(z, count.next, Close() + ObjEnd());
    var _ :- Need(count.value == |kids.ids|);
    Some(kids.ids)
  }

  /** Whether the font is the bold one. */
  function ReadFont(z: string, offsets: seq<nat>, id: nat): Option<bool> {
    var at :- OpenObject(z, offsets, id);
    var at :- Expect(z, at, FontHead());
    if HasAt(z, at, BoldSuffix() + (FontEnd() + ObjEnd())) then Some(true)
    else if HasAt(z, at, FontEnd() + ObjEnd()) then Some(false)
    else None
  }

  function ReadContent(z: string, offsets: seq<nat>, id: nat): Option<string> {
    var at :- OpenObject(z, offsets, id);
    var at :- Expect(z, at, LengthHead());
    var length :- ReadNat(z, at);
    var at :- Expect(z, length.next, StreamHead());
    var _ :- Expect(z, at + length.value, StreamEnd() + ObjEnd());
    Some(z[at..at + length.value])
  }

  datatype Resources = Resources(regular: nat, bold: nat, contents: nat)

  function ReadResources(z: string, at: nat): Option<Resources> {
    var at :- Expect(z, at, ResourcesHead());
    var regular :- ReadNat(z, at);
    var at :- Expect(z, regular.next, BoldHead());
    var bold :- ReadNat(z, at);
    var at :- Expect(z, bold.next, ContentsHead());
    var contents :- ReadNat(z, at);
    var _ :- Expect(z, contents.next, RefClose() + ObjEnd());
    Some(Resources(regular.value, bold.value, contents.value))
  }

  datatype Box = Box(width: nat, height: nat, next: nat)

  function ReadBox(z: string, at: nat, tree: nat): Option<Box> {
    var at :- Expect(z, at, PageHead());
    var parent :- ReadNat(z, at);
    var _ :- Need(parent.value == tree);
    var at :- Expect(z, parent.next, BoxHead());
    var width :- ReadNat(z, at);
    var at :- Expect(z, width.next, Space());
    var height :- ReadNat(z, at);
    Some(Box(width.value, height.value, height.next))
  }

  function ReadPage(z: string, offsets: seq<nat>, tree: nat, id: nat): Option<Page> {
    var at :- OpenObject(z, offsets, id);
    var box :- ReadBox(z, at, tree);
    var found :- ReadResources(z, box.next);
    var f1 :- ReadFont(z, offsets, found.regular);
    var f2 :- ReadFont(z, offsets, found.bold);
    var stream :- ReadContent(z, offsets, found.contents);
    Some(Page(box.width, box.height, [f1, f2], stream))
  }

  function ReadAll(z: string, offsets: seq<nat>, tree: nat, ids: seq<nat>, n: nat): Option<seq<Page>>
    requires n <= |ids|
  {
    if n == 0 then Some([])
    else
      var before :- ReadAll(z, offsets, tree, ids, n - 1);
      var page :- ReadPage(z, offsets, tree, ids[n - 1]);
      Some(before + [page])
  }

  /** From the end of the file to the table, the catalog, the page tree and every page. The size that
      the trailer gives must be the number of entries in the table, the free one included. */
  function ReadPdf(z: string): Option<seq<Page>> {
    var xref :- ReadStart(z);
    var table :- ReadTable(z, xref);
    var trailer :- ReadTrailer(z, table.next);
    var _ :- Need(trailer.size == |table.offsets| + 1);
    ReadTree(z, table.offsets, trailer.root)
  }

  function ReadTree(z: string, offsets: seq<nat>, root: nat): Option<seq<Page>> {
    var tree :- ReadCatalog(z, offsets, root);
    var ids :- ReadPages(z, offsets, tree);
    ReadAll(z, offsets, tree, ids, |ids|)
  }

  // ---------- the reader undoes the writer ----------

  function PageOf(d: Doc, k: nat): Page
    requires k < |d.streams|
  {
    Page(d.width, d.height, [false, true], d.streams[k])
  }

  /** What the first `n` pages should read as. */
  function PagesOf(d: Doc, n: nat): (pages: seq<Page>)
    requires n <= |d.streams|
    ensures |pages| == n && forall k :: 0 <= k < n ==> pages[k] == PageOf(d, k)
  {
    if n == 0 then [] else PagesOf(d, n - 1) + [PageOf(d, n - 1)]
  }

  /** What may follow a number. */
  predicate Stops(text: string) { |text| > 0 && !IsDigit(text[0]) }

  lemma {:induction false} TextsStop()
    ensures Stops(ObjHead()) && Stops(RefEnd()) && Stops(RefClose()) && Stops(Close()) && Stops(BoxHead())
    ensures Stops(Space()) && Stops(ResourcesHead()) && Stops(BoldHead()) && Stops(ContentsHead())
    ensures Stops(StreamHead())
    ensures Stops(NewLine()) && Stops(RootHead()) && Stops(StartHead()) && Stops(FileEnd()) && Stops(EntryEnd())
  {
  }

  lemma {:induction false} TakeText(z: string, at: nat, text: string, rest: string)
    requires HasAt(z, at, text + rest)
    ensures Expect(z, at, text) == Some(at + |text|) && HasAt(z, at + |text|, rest)
  {
    HasParts(z, at, text, rest);
  }

  lemma {:induction false} TakeNat(z: string, at: nat, n: nat, text: string)
    requires HasAt(z, at, Dec(n) + text) && Stops(text)
    ensures ReadNat(z, at) == Some(Number(n, at + |Dec(n)|)) && HasAt(z, at + |Dec(n)|, text)
  {
    hide Dec, ReadNat;
    HasParts(z, at, Dec(n), text);
    PartBytes(z, at + |Dec(n)|, text);
    assert z[at + |Dec(n)| + 0] == text[0];
    ReadDec(z, at, n);
  }

  /** A number, the text that ends it, and what follows. */
  lemma {:induction false} TakeNatText(z: string, at: nat, n: nat, text: string, rest: string)
    requires HasAt(z, at, Dec(n) + (text + rest)) && Stops(text)
    ensures ReadNat(z, at) == Some(Number(n, at + |Dec(n)|))
    ensures var next := at + |Dec(n)|; Expect(z, next, text) == Some(next + |text|) && HasAt(z, next + |text|, rest)
  {
    hide Dec, ReadNat;
    TakeNat(z, at, n, text + rest);
    TakeText(z, at + |Dec(n)|, text, rest);
  }

  /** Object `id` stands where the table says. */
  predicate Holds(z: string, offsets: seq<nat>, id: nat, body: string) {
    1 <= id <= |offsets| && HasAt(z, offsets[id - 1], ObjectText(id, body))
  }

  function BodyAt(offsets: seq<nat>, id: nat): nat
    requires 1 <= id <= |offsets|
  {
    offsets[id - 1] + |Dec(id)| + |ObjHead()|
  }

  lemma {:induction false} OpenReads(z: string, offsets: seq<nat>, id: nat, body: string)
    requires Holds(z, offsets, id, body)
    ensures 1 <= id <= |offsets| && OpenObject(z, offsets, id) == Some(BodyAt(offsets, id))
    ensures HasAt(z, BodyAt(offsets, id), body) && HasAt(z, BodyAt(offsets, id) + |body|, ObjEnd())
  {
    TextsStop();
    hide ObjHead, ObjEnd, Dec, ReadNat, Expect;
    TakeNatText(z, offsets[id - 1], id, ObjHead(), body + ObjEnd());
    HasParts(z, BodyAt(offsets, id), body, ObjEnd());
  }

  /** A last text and the end of the object, as one. */
  lemma {:induction false} TakeEnd(z: string, at: nat, text: string, end: string)
    requires HasAt(z, at, text) && HasAt(z, at + |text|, end)
    ensures Expect(z, at, text + end) == Some(at + |text| + |end|)
  {
    HasJoined(z, at, text, end);
  }

  lemma {:induction false} CatalogReads(z: string, offsets: seq<nat>, id: nat)
    requires Holds(z, offsets, id, CatalogBody())
    ensures ReadCatalog(z, offsets, id) == Some(2)
  {
    hide HasAt, Holds, Dec, ReadNat, OpenObject, Expect, CatalogHead, RefClose, ObjEnd, BodyAt, Stops;
    TextsStop();
    OpenReads(z, offsets, id, CatalogBody());
    var at := BodyAt(offsets, id);
    TakeText(z, at, CatalogHead(), Dec(2) + RefClose());
    TakeNat(z, at + |CatalogHead()|, 2, RefClose());
    TakeEnd(z, at + |CatalogHead()| + |Dec(2)|, RefClose(), ObjEnd());
  }

  function PageIds(n: nat, k: nat): (ids: seq<nat>)
    requires k <= n
    ensures |ids| == n - k
    ensures forall i :: 0 <= i < n - k ==> ids[i] == PageId(k + i)
    decreases n - k
  {
    if k == n then [] else [PageId(k)] + PageIds(n, k + 1)
  }

  lemma {:induction false} DecStarts(z: string, at: nat, n: nat, rest: string)
    requires HasAt(z, at, Dec(n) + rest)
    ensures at < |z| && IsDigit(z[at])
  {
    hide Dec;
    HasParts(z, at, Dec(n), rest);
    PartBytes(z, at, Dec(n));
    assert z[at + 0] == Dec(n)[0];
  }

  lemma {:induction false} NotCountHead(z: string, at: nat)
    ensures at < |z| && IsDigit(z[at]) ==> !HasAt(z, at, CountHead())
    ensures HasAt(z, at, CountHead()) ==> !HasAt(z, at, Space())
  {
    if HasAt(z, at, CountHead()) { FirstIs(z, at, CountHead()); }
    if HasAt(z, at, Space()) { FirstIs(z, at, Space()); }
  }

  lemma {:induction false} FirstIs(z: string, at: nat, text: string)
    requires HasAt(z, at, text) && |text| > 0
    ensures at < |z| && z[at] == text[0]
  {
    PartBytes(z, at, text);
    assert z[at + 0] == text[0];
  }

  lemma {:induction false} KidsRead(z: string, at: nat, n: nat, k: nat)
    requires k <= n && HasAt(z, at, Kids(n, k)) && HasAt(z, at + |Kids(n, k)|, CountHead())
    ensures ReadKids(z, at) == Some(KidList(PageIds(n, k), at + |Kids(n, k)|))
    decreases n - k
  {
    TextsStop();
    SpaceWidth();
    hide Dec, ReadNat, Expect, CountHead, RefEnd, Space, HasAt, Stops, PageId;
    if k < n {
      var id := PageId(k);
      var at1 := at + |Dec(id)| + |RefEnd()|;
      if k + 1 == n {
        DecStarts(z, at, id, RefEnd());
        NotCountHead(z, at);
        TakeNat(z, at, id, RefEnd());
        TakeLast(z, at + |Dec(id)|, RefEnd());
        NotCountHead(z, at1);
        Inside(z, at1, CountHead());
        NoMoreKids(z, at1);
      } else {
        DecStarts(z, at, id, RefEnd() + (Space() + Kids(n, k + 1)));
        NotCountHead(z, at);
        TakeNatText(z, at, id, RefEnd(), Space() + Kids(n, k + 1));
        HasParts(z, at1, Space(), Kids(n, k + 1));
        KidsRead(z, at1 + 1, n, k + 1);
        Inside(z, at1, Space());
      }
    }
  }

  lemma {:induction false} NoMoreKids(z: string, at: nat)
    requires HasAt(z, at, CountHead())
    ensures ReadKids(z, at) == Some(KidList([], at))
  {
  }

  lemma {:induction false} SpaceWidth()
    ensures |Space()| == 1 && |CountHead()| > 0 && |RefEnd()| > 0
  {
  }

  lemma {:induction false} Inside(z: string, at: nat, text: string)
    requires HasAt(z, at, text)
    ensures at + |text| <= |z|
  {
  }

  lemma {:induction false} TakeLast(z: string, at: nat, text: string)
    requires HasAt(z, at, text)
    ensures Expect(z, at, text) == Some(at + |text|)
  {
  }

  lemma {:induction false} PagesReads(z: string, offsets: seq<nat>, id: nat, n: nat)
    requires Holds(z, offsets, id, PagesBody(n))
    ensures ReadPages(z, offsets, id) == Some(PageIds(n, 0))
  {
    hide Dec, ReadNat, OpenObject, Expect, PagesHead, CountHead, Close, ObjEnd, BodyAt, Stops, Kids, ReadKids,
        PageIds, HasAt, Holds;
    TextsStop();
    OpenReads(z, offsets, id, PagesBody(n));
    var at := BodyAt(offsets, id);
    var tail := CountHead() + (Dec(n) + Close());
    TakeText(z, at, PagesHead(), Kids(n, 0) + tail);
    HasParts(z, at + |PagesHead()|, Kids(n, 0), tail);
    var at1 := at + |PagesHead()| + |Kids(n, 0)|;
    TakeText(z, at1, CountHead(), Dec(n) + Close());
    HasParts(z, at1, CountHead(), Dec(n) + Close());
    KidsRead(z, at + |PagesHead()|, n, 0);
    TakeNat(z, at1 + |CountHead()|, n, Close());
    TakeEnd(z, at1 + |CountHead()| + |Dec(n)|, Close(), ObjEnd());
  }

  lemma {:induction false} NotBold(z: string, at: nat)
    requires HasAt(z, at, FontEnd() + ObjEnd())
    ensures !HasAt(z, at, BoldSuffix() + (FontEnd() + ObjEnd()))
  {
    FirstIs(z, at, FontEnd() + ObjEnd());
    if HasAt(z, at, BoldSuffix() + (FontEnd() + ObjEnd())) { FirstIs(z, at, BoldSuffix() + (FontEnd() + ObjEnd())); }
  }

  lemma {:induction false} FontReads(z: string, offsets: seq<nat>, id: nat, bold: bool)
    requires Holds(z, offsets, id, FontBody(bold))
    ensures ReadFont(z, offsets, id) == Some(bold)
  {
    hide Holds, Dec, OpenObject, Expect, FontHead, BoldSuffix, FontEnd, ObjEnd, BodyAt, HasAt;
    OpenReads(z, offsets, id, FontBody(bold));
    var at := BodyAt(offsets, id);
    var suffix := if bold then BoldSuffix() else [];
    TakeText(z, at, FontHead(), suffix + FontEnd());
    var at1 := at + |FontHead()|;
    HasParts(z, at1, suffix, FontEnd());
    HasJoined(z, at1 + |suffix|, FontEnd(), ObjEnd());
    if bold {
      HasJoined(z, at1, BoldSuffix(), FontEnd() + ObjEnd());
    } else {
      NotBold(z, at1);
    }
  }

  lemma {:induction false} PartIs(z: string, at: nat, part: string)
    requires HasAt(z, at, part)
    ensures at + |part| <= |z| && z[at..at + |part|] == part
  {
  }

  lemma {:induction false} ContentReads(z: string, offsets: seq<nat>, id: nat, stream: string)
    requires Holds(z, offsets, id, ContentBody(stream))
    ensures ReadContent(z, offsets, id) == Some(stream)
  {
    hide Holds, Dec, ReadNat, OpenObject, Expect, LengthHead, StreamHead, StreamEnd, ObjEnd, BodyAt, Stops, HasAt;
    TextsStop();
    OpenReads(z, offsets, id, ContentBody(stream));
    var at := BodyAt(offsets, id);
    TakeText(z, at, LengthHead(), Dec(|stream|) + (StreamHead() + (stream + StreamEnd())));
    TakeNatText(z, at + |LengthHead()|, |stream|, StreamHead(), stream + StreamEnd());
    var at1 := at + |LengthHead()| + |Dec(|stream|)| + |StreamHead()|;
    HasParts(z, at1, stream, StreamEnd());
    PartIs(z, at1, stream);
    TakeEnd(z, at1 + |stream|, StreamEnd(), ObjEnd());
  }

  lemma {:induction false} ResourcesReads(z: string, at: nat, contents: nat)
    requires HasAt(z, at, ResourcesText(contents)) && HasAt(z, at + |ResourcesText(contents)|, ObjEnd())
    ensures ReadResources(z, at) == Some(Resources(3, 4, contents))
  {
    TextsStop();
    hide Dec, ReadNat, Expect, ResourcesHead, BoldHead, ContentsHead, RefClose, ObjEnd, Stops, HasAt;
    var t1 := Dec(contents) + RefClose();
    var t2 := Dec(4) + (ContentsHead() + t1);
    TakeText(z, at, ResourcesHead(), Dec(3) + (BoldHead() + t2));
    var at1 := at + |ResourcesHead()|;
    TakeNatText(z, at1, 3, BoldHead(), t2);
    var at2 := at1 + |Dec(3)| + |BoldHead()|;
    TakeNatText(z, at2, 4, ContentsHead(), t1);
    var at3 := at2 + |Dec(4)| + |ContentsHead()|;
    TakeNat(z, at3, contents, RefClose());
    TakeEnd(z, at3 + |Dec(contents)|, RefClose(), ObjEnd());
  }

  lemma {:induction false} BoxReads(z: string, at: nat, d: Doc, rest: string)
    requires HasAt(z, at, BoxText(d)) && HasAt(z, at + |BoxText(d)|, rest) && Stops(rest)
    ensures ReadBox(z, at, 2) == Some(Box(d.width, d.height, at + |BoxText(d)|))
  {
    TextsStop();
    hide Dec, ReadNat, Expect, PageHead, BoxHead, Space, Stops, HasAt;
    var t1 := Space() + Dec(d.height);
    var t2 := Dec(d.width) + t1;
    TakeText(z, at, PageHead(), Dec(2) + (BoxHead() + t2));
    var at1 := at + |PageHead()|;
    TakeNatText(z, at1, 2, BoxHead(), t2);
    var at2 := at1 + |Dec(2)| + |BoxHead()|;
    TakeNatText(z, at2, d.width, Space(), Dec(d.height));
    var at3 := at2 + |Dec(d.width)| + |Space()|;
    HasJoined(z, at3, Dec(d.height), rest);
    TakeNat(z, at3, d.height, rest);
  }

  lemma {:induction false} PageReads(z: string, offsets: seq<nat>, d: Doc, k: nat)
    requires k < |d.streams|
    requires Holds(z, offsets, 3, FontBody(false)) && Holds(z, offsets, 4, FontBody(true))
    requires Holds(z, offsets, PageId(k), PageBody(d, k))
    requires Holds(z, offsets, ContentId(k), ContentBody(d.streams[k]))
    ensures ReadPage(z, offsets, 2, PageId(k)) == Some(PageOf(d, k))
  {
    hide BoxText, ResourcesText, OpenObject, ReadBox, ReadResources, ReadFont, ReadContent, BodyAt, ObjEnd, Stops,
        HasAt, Holds;
    OpenReads(z, offsets, PageId(k), PageBody(d, k));
    ResourcesStart(ContentId(k));
    var at := BodyAt(offsets, PageId(k));
    HasParts(z, at, BoxText(d), ResourcesText(ContentId(k)));
    BoxReads(z, at, d, ResourcesText(ContentId(k)));
    ResourcesReads(z, at + |BoxText(d)|, ContentId(k));
    FontReads(z, offsets, 3, false);
    FontReads(z, offsets, 4, true);
    ContentReads(z, offsets, ContentId(k), d.streams[k]);
  }

  lemma {:induction false} ResourcesStart(contents: nat)
    ensures Stops(ResourcesText(contents))
  {
  }

  // ---------- the table ----------

  const TABLE_LIMIT: nat := 10_000_000_000

  lemma {:induction false} TenDigits()
    ensures Pow10(10) == TABLE_LIMIT
  {
    assert Pow10(2) == 100;
    assert Pow10(4) == 10_000;
    assert Pow10(6) == 1_000_000;
    assert Pow10(8) == 100_000_000;
  }

  /** An entry has the twenty bytes the standard asks for exactly when its offset is below 10^10. */
  lemma {:induction false} EntryWidth(offset: nat)
    ensures |EntryText(offset)| == 20 <==> offset < TABLE_LIMIT
    ensures offset < TABLE_LIMIT ==> |Padded(offset, 10)| == 10
    ensures offset >= TABLE_LIMIT ==> |Padded(offset, 10)| > 10
  {
    TenDigits();
    DecWidth(offset, 10);
  }

  function AllOffsets(d: Doc): seq<nat> { seq<nat>(Count(d), i requires 0 <= i < Count(d) => Offset(d, i + 1)) }

  lemma {:induction false} OffsetsGrow(d: Doc, a: nat, b: nat)
    requires 1 <= a <= b <= Count(d)
    ensures Offset(d, a) <= Offset(d, b)
    decreases b - a
  {
    hide ObjectText, Body;
    if a < b { OffsetsGrow(d, a, b - 1); }
  }

  lemma {:induction false} EntryReads(z: string, at: nat, offset: nat, rest: string)
    requires HasAt(z, at, EntryText(offset) + rest) && offset < TABLE_LIMIT
    ensures at + 20 <= |z| && Digits(z[at..at + 10]) && HasAt(z, at + 10, EntryEnd()) && HasAt(z, at + 20, rest)
    ensures Value(z[at..at + 10], 10) == offset
  {
    hide Padded, Value;
    EntryWidth(offset);
    HasParts(z, at, EntryText(offset), rest);
    HasParts(z, at, Padded(offset, 10), EntryEnd());
    ValueOfPadded(offset, 10);
  }

  lemma {:induction false} EntriesRead(z: string, at: nat, d: Doc, id: nat)
    requires 1 <= id <= Count(d) + 1 && HasAt(z, at, Entries(d, id)) && Offset(d, Count(d)) < TABLE_LIMIT
    ensures ReadEntries(z, at, Count(d) + 1 - id) == Some(Table(AllOffsets(d)[id - 1..], at + |Entries(d, id)|))
    decreases Count(d) + 1 - id
  {
    hide EntryText, Value, EntryEnd, Offset, HasAt;
    if id <= Count(d) {
      OffsetsGrow(d, id, Count(d));
      EntryWidth(Offset(d, id));
      EntryReads(z, at, Offset(d, id), Entries(d, id + 1));
      EntriesRead(z, at + 20, d, id + 1);
      assert AllOffsets(d)[id - 1..] == [Offset(d, id)] + AllOffsets(d)[id..];
    } else {
      assert AllOffsets(d)[id - 1..] == [];
    }
  }

  lemma {:induction false} WideEntryUnread(z: string, at: nat, offset: nat, rest: string)
    requires HasAt(z, at, EntryText(offset) + rest) && offset >= TABLE_LIMIT
    ensures !HasAt(z, at + 10, EntryEnd())
  {
    TextsStop();
    hide Padded;
    EntryWidth(offset);
    HasParts(z, at, EntryText(offset), rest);
    HasParts(z, at, Padded(offset, 10), EntryEnd());
    PartBytes(z, at, Padded(offset, 10));
    assert z[at + 10] == Padded(offset, 10)[10];
    if HasAt(z, at + 10, EntryEnd()) { FirstIs(z, at + 10, EntryEnd()); }
  }

  lemma {:induction false} EntriesUnread(z: string, at: nat, d: Doc, id: nat)
    requires 1 <= id <= Count(d) && HasAt(z, at, Entries(d, id)) && Offset(d, Count(d)) >= TABLE_LIMIT
    ensures ReadEntries(z, at, Count(d) + 1 - id) == None
    decreases Count(d) + 1 - id
  {
    hide EntryText, Value, EntryEnd, Offset, HasAt;
    var offset := Offset(d, id);
    if offset >= TABLE_LIMIT {
      WideEntryUnread(z, at, offset, Entries(d, id + 1));
    } else {
      EntryReads(z, at, offset, Entries(d, id + 1));
      EntriesUnread(z, at + 20, d, id + 1);
    }
  }

  lemma {:induction false} TrailerReads(z: string, at: nat, size: nat, xref: nat)
    requires HasAt(z, at, Trailer(size, xref))
    ensures ReadTrailer(z, at) == Some(TrailerData(size, 1))
  {
    TextsStop();
    hide Dec, ReadNat, Expect, TrailerHead, RootHead, StartHead, FileEnd, Stops, HasAt;
    var t1 := Dec(xref) + FileEnd();
    var t2 := Dec(1) + (StartHead() + t1);
    TakeText(z, at, TrailerHead(), Dec(size) + (RootHead() + t2));
    var at1 := at + |TrailerHead()|;
    TakeNatText(z, at1, size, RootHead(), t2);
    TakeNatText(z, at1 + |Dec(size)| + |RootHead()|, 1, StartHead(), t1);
  }

  lemma {:induction false} StartTextEnds(z: string, at: nat)
    requires HasAt(z, at, StartHead())
    ensures |StartHead()| > 0 && at + |StartHead()| <= |z| && !IsDigit(z[at + |StartHead()| - 1])
  {
    PartBytes(z, at, StartHead());
    assert z[at + (|StartHead()| - 1)] == StartHead()[|StartHead()| - 1];
  }

  lemma {:induction false} StartReads(z: string, at: nat, xref: nat)
    requires HasAt(z, at, StartHead() + (Dec(xref) + FileEnd()))
    requires |z| == at + |StartHead()| + |Dec(xref)| + |FileEnd()|
    ensures ReadStart(z) == Some(xref)
  {
    TextsStop();
    hide Dec, ReadNat, StartHead, FileEnd, Stops, RunStart;
    var at1 := at + |StartHead()|;
    TakeText(z, at, StartHead(), Dec(xref) + FileEnd());
    HasParts(z, at, StartHead(), Dec(xref) + FileEnd());
    HasParts(z, at1, Dec(xref), FileEnd());
    TakeNat(z, at1, xref, FileEnd());
    StartTextEnds(z, at);
    PartBytes(z, at1, Dec(xref));
    forall i | at1 <= i < at1 + |Dec(xref)| ensures IsDigit(z[i]) { assert z[i] == Dec(xref)[i - at1]; }
    RunStartIs(z, at1, at1 + |Dec(xref)|);
  }

  // ---------- the whole file ----------

  lemma {:induction false} ObjectAt(d: Doc, id: nat, n: nat)
    requires 1 <= id <= n <= Count(d)
    ensures HasAt(Objects(d, n), Offset(d, id), ObjectText(id, Body(d, id)))
    decreases n
  {
    hide ObjectText, Body, HasAt;
    var last := ObjectText(n, Body(d, n));
    if id == n {
      WholeAt(last);
      HasInRight(Objects(d, n - 1), last, 0, last);
    } else {
      ObjectAt(d, id, n - 1);
      HasInLeft(Objects(d, n - 1), last, Offset(d, id), ObjectText(id, Body(d, id)));
    }
  }

  lemma {:induction false} WholeAt(part: string)
    ensures HasAt(part, 0, part)
  {
  }

  /** The table entry of every object is where that object begins. */
  lemma {:induction false} ObjectStands(d: Doc, id: nat)
    requires 1 <= id <= Count(d)
    ensures Holds(Pdf(d), AllOffsets(d), id, Body(d, id))
  {
    hide ObjectText, Body, HasAt, TableAndTrailer;
    ObjectAt(d, id, Count(d));
    HasInLeft(Objects(d, Count(d)), TableAndTrailer(d), Offset(d, id), ObjectText(id, Body(d, id)));
    assert AllOffsets(d)[id - 1] == Offset(d, id);
  }

  lemma {:induction false} PageBodies(d: Doc, k: nat)
    requires k < |d.streams|
    ensures PageId(k) <= Count(d) && Body(d, PageId(k)) == PageBody(d, k)
    ensures ContentId(k) <= Count(d) && Body(d, ContentId(k)) == ContentBody(d.streams[k])
  {
    hide CatalogBody, PagesBody, FontBody, PageBody, ContentBody;
  }

  lemma {:induction false} PagesRead(d: Doc, n: nat)
    requires n <= |d.streams|
    ensures ReadAll(Pdf(d), AllOffsets(d), 2, PageIds(|d.streams|, 0), n) == Some(PagesOf(d, n))
  {
    hide Holds, Body, PageBody, ContentBody, Pdf, AllOffsets, ReadPage, PageId, ContentId, FontBody;
    if n > 0 {
      PagesRead(d, n - 1);
      PageBodies(d, n - 1);
      FontBodies(d);
      ObjectStands(d, 3);
      ObjectStands(d, 4);
      IdsPositive(n - 1);
      ObjectStands(d, PageId(n - 1));
      ObjectStands(d, ContentId(n - 1));
      PageReads(Pdf(d), AllOffsets(d), d, n - 1);
    }
  }

  lemma {:induction false} IdsPositive(k: nat)
    ensures PageId(k) >= 1 && ContentId(k) >= 1
  {
  }

  lemma {:induction false} FontBodies(d: Doc)
    ensures Body(d, 1) == CatalogBody() && Body(d, 2) == PagesBody(|d.streams|)
    ensures Body(d, 3) == FontBody(false) && Body(d, 4) == FontBody(true)
  {
  }

  /** What precedes the first entry of the table. */
  function TableHead(d: Doc): string { XrefHead() + (Dec(Count(d) + 1) + (NewLine() + FreeEntry())) }

  lemma {:induction false} TableHeadReads(z: string, at: nat, d: Doc, rest: string)
    requires HasAt(z, at, XrefHead() + (Dec(Count(d) + 1) + (NewLine() + (FreeEntry() + rest))))
    ensures ReadTable(z, at) == ReadEntries(z, at + |TableHead(d)|, Count(d)) && HasAt(z, at + |TableHead(d)|, rest)
  {
    TextsStop();
    hide Dec, ReadNat, Expect, XrefHead, NewLine, FreeEntry, Stops, HasAt, ReadEntries;
    var size := Count(d) + 1;
    TakeText(z, at, XrefHead(), Dec(size) + (NewLine() + (FreeEntry() + rest)));
    var at1 := at + |XrefHead()|;
    TakeNatText(z, at1, size, NewLine(), FreeEntry() + rest);
    TakeText(z, at1 + |Dec(size)| + |NewLine()|, FreeEntry(), rest);
  }

  lemma {:induction false} TableStands(d: Doc)
    ensures HasAt(Pdf(d), |Objects(d, Count(d))|, TableAndTrailer(d))
    ensures |Pdf(d)| == |Objects(d, Count(d))| + |TableAndTrailer(d)|
  {
    hide Objects, TableAndTrailer, HasAt;
    WholeAt(TableAndTrailer(d));
    HasInRight(Objects(d, Count(d)), TableAndTrailer(d), 0, TableAndTrailer(d));
  }

  lemma {:induction false} TrailerStart(z: string, at: nat, size: nat, xref: nat)
    requires HasAt(z, at, Trailer(size, xref)) && |z| == at + |Trailer(size, xref)|
    ensures ReadStart(z) == Some(xref)
  {
    hide Dec, TrailerHead, RootHead, StartHead, FileEnd, HasAt, ReadStart;
    var t1 := StartHead() + (Dec(xref) + FileEnd());
    HasParts(z, at, TrailerHead(), Dec(size) + (RootHead() + (Dec(1) + t1)));
    var at1 := at + |TrailerHead()|;
    HasParts(z, at1, Dec(size), RootHead() + (Dec(1) + t1));
    var at2 := at1 + |Dec(size)|;
    HasParts(z, at2, RootHead(), Dec(1) + t1);
    var at3 := at2 + |RootHead()|;
    HasParts(z, at3, Dec(1), t1);
    StartReads(z, at3 + |Dec(1)|, xref);
  }

  /** startxref is the position of "xref", and the table found there lists the position of every
      object, or is unreadable when one of them does not fit its ten digits. The size the trailer gives
      is the number of its entries with the free one, above every object's number. */
  lemma {:induction false} TableReads(d: Doc)
    ensures var xref := |Objects(d, Count(d))|; ReadStart(Pdf(d)) == Some(xref) && HasAt(Pdf(d), xref, XrefHead())
    ensures var table := ReadTable(Pdf(d), |Objects(d, Count(d))|);
            if Offset(d, Count(d)) < TABLE_LIMIT then
              && table.Some? && table.value.offsets == AllOffsets(d)
              && ReadTrailer(Pdf(d), table.value.next) == Some(TrailerData(|table.value.offsets| + 1, 1))
            else table == None
  {
    TableStands(d);
    hide Dec, ReadNat, Pdf, XrefHead, NewLine, FreeEntry, Entries, Trailer, HasAt, Offset, Objects, ReadStart,
        ReadTable, ReadEntries, ReadTrailer;
    var z, xref := Pdf(d), |Objects(d, Count(d))|;
    var trailer := Trailer(Count(d) + 1, xref);
    var tail := Entries(d, 1) + trailer;
    TableHeadReads(z, xref, d, tail);
    HasParts(z, xref, XrefHead(), Dec(Count(d) + 1) + (NewLine() + (FreeEntry() + tail)));
    var at := xref + |TableHead(d)|;
    HasParts(z, at, Entries(d, 1), trailer);
    TrailerStart(z, at + |Entries(d, 1)|, Count(d) + 1, xref);
    if Offset(d, Count(d)) < TABLE_LIMIT {
      EntriesRead(z, at, d, 1);
      assert AllOffsets(d)[0..] == AllOffsets(d);
      TrailerReads(z, at + |Entries(d, 1)|, Count(d) + 1, xref);
    } else {
      EntriesUnread(z, at, d, 1);
    }
  }

  /** The round trip: every page comes back with its box, its fonts and its content stream, in
      order, exactly when the last object starts below 10^10; past that the table is malformed. */
  lemma {:induction false} ReadBack(d: Doc)
    ensures ReadPdf(Pdf(d)) == if Offset(d, Count(d)) < TABLE_LIMIT then Some(PagesOf(d, |d.streams|)) else None
  {
    hide Pdf, Objects, Offset, AllOffsets, ReadStart, ReadTable, ReadTrailer, ReadCatalog, ReadPages, ReadAll, Body,
        CatalogBody, PagesBody, FontBody, Holds, PageIds;
    TableReads(d);
    if Offset(d, Count(d)) < TABLE_LIMIT {
      FontBodies(d);
      ObjectStands(d, 1);
      ObjectStands(d, 2);
      CatalogReads(Pdf(d), AllOffsets(d), 1);
      PagesReads(Pdf(d), AllOffsets(d), 2, |d.streams|);
      PagesRead(d, |d.streams|);
    }
  }

  // ---------- the writer's own loops ----------

  function Separator(n: nat, k: nat): string { if 0 < k < n then Space() else [] }

  lemma {:induction false} FirstKid(n: nat, k: nat)
    requires k < n
    ensures Kids(n, k) == (Dec(PageId(k)) + RefEnd()) + (Separator(n, k + 1) + Kids(n, k + 1))
  {
    hide PageId, Dec, RefEnd, Space;
    var id, ref := Dec(PageId(k)), RefEnd();
    if k + 1 == n {
      assert Kids(n, n) == [];
    } else {
      assert id + (ref + (Space() + Kids(n, k + 1))) == (id + ref) + (Space() + Kids(n, k + 1));
    }
  }

  lemma {:induction false} Regroup(a: string, b: string, c: string, d: string)
    ensures a + (b + (c + d)) == (a + b + c) + d
  {
  }

  /** The page references, joined by spaces. */
  method JoinKids(n: nat) returns (kids: string)
    ensures kids == Kids(n, 0)
  {
    hide PageId, Dec, RefEnd, Space, Kids, Separator;
    kids := [];
    KidsStart(n);
    for k := 0 to n
      invariant Kids(n, 0) == kids + (Separator(n, k) + Kids(n, k))
    {
      FirstKid(n, k);
      Regroup(kids, Separator(n, k), Dec(PageId(k)) + RefEnd(), Separator(n, k + 1) + Kids(n, k + 1));
      kids := kids + Separator(n, k) + (Dec(PageId(k)) + RefEnd());
    }
  }

  lemma {:induction false} KidsStart(n: nat)
    ensures Separator(n, 0) == [] && Separator(n, n) == [] && Kids(n, n) == []
  {
  }

  /** The object bodies in order: the four fixed ones, then a page and its content for every stream. */
  method ObjectBodies(d: Doc) returns (objects: seq<string>)
    ensures |objects| == Count(d) && forall id :: 1 <= id <= Count(d) ==> objects[id - 1] == Body(d, id)
  {
    FontBodies(d);
    hide CatalogBody, PagesBody, FontBody, PageBody, ContentBody, Body, Kids;
    var kids := JoinKids(|d.streams|);
    PagesBodyIs(d, kids);
    objects := [CatalogBody(), PagesHead() + (kids + (CountHead() + (Dec(|d.streams|) + Close()))), FontBody(false),
        FontBody(true)];
    for k := 0 to |d.streams|
      invariant |objects| == 4 + 2 * k
      invariant forall id :: 1 <= id <= |objects| ==> objects[id - 1] == Body(d, id)
    {
      PageBodies(d, k);
      objects := objects + [PageBody(d, k), ContentBody(d.streams[k])];
    }
  }

  lemma {:induction false} PagesBodyIs(d: Doc, kids: string)
    requires kids == Kids(|d.streams|, 0)
    ensures PagesHead() + (kids + (CountHead() + (Dec(|d.streams|) + Close()))) == PagesBody(|d.streams|)
  {
  }

  /** buildPdfPages: every offset is the length of what has been written so far. */
  method BuildPdfPages(d: Doc) returns (pdf: string)
    ensures pdf == Pdf(d)
    ensures ReadPdf(pdf) == if Offset(d, Count(d)) < TABLE_LIMIT then Some(PagesOf(d, |d.streams|)) else None
  {
    ReadBack(d);
    hide ReadPdf, PagesOf, Header, XrefHead, NewLine, FreeEntry, ObjectText, EntryText, Trailer, Body, Dec;
    var objects := ObjectBodies(d);
    var chunks, offsets := Header(), [0];
    for i := 0 to |objects|
      invariant chunks == Objects(d, i) && |offsets| == i + 1
      invariant forall id :: 1 <= id <= i ==> offsets[id] == Offset(d, id)
    {
      offsets := offsets + [|chunks|];
      chunks := chunks + ObjectText(i + 1, objects[i]);
    }
    var xref := |chunks|;
    var table := [];
    for i := 1 to |offsets|
      invariant table + Entries(d, i) == Entries(d, 1)
    {
      table := table + EntryText(offsets[i]);
    }
    pdf := chunks + (XrefHead()
      + (Dec(|objects| + 1) + (NewLine() + (FreeEntry() + (table + Trailer(|objects| + 1, xref))))));
  }

  // ---------- what it looks like ----------

  lemma {:induction false} SomeNumbers()
    ensures Dec(1) == "1" && Dec(2) == "2" && Dec(3) == "3" && Dec(4) == "4" && Dec(5) == "5" && Dec(6) == "6"
    ensures Dec(7) == "7" && Dec(595) == "595" && Dec(842) == "842"
  {
    assert Dec(59) == "59" && Dec(84) == "84";
  }

  /** The fixed objects and the page tree, for two pages, as they appear in the file. */
  lemma {:induction false} ObjectsLookLike(d: Doc)
    requires |d.streams| == 2
    ensures Body(d, 1) == "<< /Type /Catalog /Pages " + ("2" + " 0 R >>")
    ensures Body(d, 2) == "<< /Type /Pages /Kids ["
        + (("5" + (" 0 R" + (" " + ("7" + " 0 R")))) + ("] /Count " + ("2" + " >>")))
    ensures Body(d, 3) == "<< /Type /Font /Subtype /Type1 /BaseFont /Helvetica"
        + ([] + " /Encoding /WinAnsiEncoding >>")
    ensures Body(d, 4) == "<< /Type /Font /Subtype /Type1 /BaseFont /Helvetica"
        + ("-Bold" + " /Encoding /WinAnsiEncoding >>")
  {
    SomeNumbers();
    FontBodies(d);
    hide Dec, Body;
    assert Kids(2, 1) == "7" + " 0 R";
  }

  /** A page of A4 and its content. */
  lemma {:induction false} PagesLookLike(d: Doc)
    requires |d.streams| == 2 && d.width == 595 && d.height == 842
    ensures Body(d, 5) == ("<< /Type /Page /Parent " + ("2" + (" 0 R /MediaBox [0 0 " + ("595" + (" " + "842")))))
        + ("] /Resources << /Font << /F1 " + ("3" + (" 0 R /F2 " + ("4" + (" 0 R >> >> /Contents "
          + ("6" + " 0 R >>"))))))
    ensures Body(d, 8) ==
        "<< /Length " + (Dec(|d.streams[1]|) + (" >>\nstream\n" + (d.streams[1] + "\nendstream")))
  {
    SomeNumbers();
    PageBodies(d, 0);
    PageBodies(d, 1);
    hide Dec, Body;
  }

  /** The table and the trailer of one page. */
  lemma {:induction false} EndLooksLike(d: Doc)
    requires |d.streams| == 1
    ensures Pdf(d) == Objects(d, 6) + ("xref\n0 " + ("7" + ("\n" + ("0000000000 65535 f \n" + (Entries(d, 1)
         + ("trailer\n<< /Size " + ("7" + (" /Root " + ("1" + (" 0 R >>\nstartxref\n"
           + (Dec(|Objects(d, 6)|) + "\n%%EOF\n")))))))))))
  {
    SomeNumbers();
    hide Dec, Objects, Entries;
  }

  /** The beginning of the file, an object around its body, and its entry. */
  lemma {:induction false} ObjectLooksLike(d: Doc)
    requires |d.streams| == 1
    ensures Objects(d, 0) == "%PDF-1.4\n"
    ensures Objects(d, 5) == Objects(d, 4) + ("5" + (" 0 obj\n" + (Body(d, 5) + "\nendobj\n")))
    ensures Entries(d, 6) == (Padded(|Objects(d, 5)|, 10) + " 00000 n \n") + []
  {
    SomeNumbers();
    hide Dec, Body, Padded;
    assert Count(d) == 6 && Entries(d, 7) == [];
    hide Entries;
  }
}
