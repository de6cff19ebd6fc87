/**
 The hand-written ZIP writer, byte for byte, and a reader that follows sections 4.3.7, 4.3.12 and
 4.3.16 of PKWARE's APPNOTE. Names are given as their UTF-8 bytes. Lengths and offsets are
 integers; the checksum is a 32-bit word, as its exclusive-ors and shifts demand.
 */
module ZipArchive {
  import opened Layout
  import opened Wrappers

  type Byte = bv8

  const U16: int := 0x1_0000
  const U32: int := 0x1_0000_0000
  const LOCAL_SIGNATURE: int := 0x04034b50
  const CENTRAL_SIGNATURE: int := 0x02014b50
  const END_SIGNATURE: int := 0x06054b50

  datatype Entry = Entry(name: seq<Byte>, content: seq<Byte>)

  // ---------- little-endian fields ----------

  function ValueOf(b: Byte): nat { b as nat }

  /** The byte of a value, bit by bit. */
  function ToByte(x: nat): (b: Byte)
    requires x < 256
    ensures ValueOf(b) == x
  {
    if x == 0 then 0
    else
      DoubleByte(ToByte(x / 2));
      if x % 2 == 0 then ToByte(x / 2) << 1 else (ToByte(x / 2) << 1) | 1
  }

  lemma {:induction false} DoubleByte(b: Byte)
    ensures ValueOf(b) < 128 ==> ValueOf(b << 1) == 2 * ValueOf(b) && ValueOf((b << 1) | 1) == 2 * ValueOf(b) + 1
  {
  }

  function ByteOf(v: nat): Byte { ToByte(v % 256) }

  lemma {:induction false} ValueOfByte(v: nat)
    ensures ValueOf(ByteOf(v)) == v % 256
  {
    hide ToByte, ValueOf;
  }

  function Le16(v: nat): (s: seq<Byte>)
    ensures |s| == 2
  {
    [ByteOf(v), ByteOf(v / 256)]
  }

  function Le32(v: nat): (s: seq<Byte>)
    ensures |s| == 4
  {
    [ByteOf(v), ByteOf(v / 256), ByteOf(v / 0x1_0000), ByteOf(v / 0x100_0000)]
  }

  function Get16(s: seq<Byte>, at: nat): nat
    requires at + 2 <= |s|
  {
    ValueOf(s[at]) + 256 * ValueOf(s[at + 1])
  }

  function Get32(s: seq<Byte>, at: nat): nat
    requires at + 4 <= |s|
  {
    ValueOf(s[at]) + 256 * ValueOf(s[at + 1]) + 0x1_0000 * ValueOf(s[at + 2]) + 0x100_0000 * ValueOf(s[at + 3])
  }

  lemma {:induction false} ReadLe16(s: seq<Byte>, at: nat, v: nat)
    requires v < U16 && HasAt(s, at, Le16(v))
    ensures at + 2 <= |s| && Get16(s, at) == v
  {
    hide ByteOf, ValueOf;
    PartBytes(s, at, Le16(v));
    ValueOfByte(v);
    ValueOfByte(v / 256);
  }

  lemma {:induction false} ReadLe32(s: seq<Byte>, at: nat, v: nat)
    requires v < U32 && HasAt(s, at, Le32(v))
    ensures at + 4 <= |s| && Get32(s, at) == v
  {
    hide ByteOf, ValueOf, HasAt, Le32;
    FourBytes(s, at, v);
    DigitsOf(v);
    FourDigits(v);
  }

  lemma {:induction false} FourBytes(s: seq<Byte>, at: nat, v: nat)
    requires HasAt(s, at, Le32(v))
    ensures at + 4 <= |s| && s[at] == ByteOf(v) && s[at + 1] == ByteOf(v / 256)
    ensures s[at + 2] == ByteOf(v / 0x1_0000) && s[at + 3] == ByteOf(v / 0x100_0000)
  {
    hide ByteOf;
    PartBytes(s, at, Le32(v));
  }

  lemma {:induction false} DigitsOf(v: nat)
    ensures ValueOf(ByteOf(v)) == v % 256 && ValueOf(ByteOf(v / 256)) == v / 256 % 256
    ensures ValueOf(ByteOf(v / 0x1_0000)) == v / 0x1_0000 % 256
    ensures ValueOf(ByteOf(v / 0x100_0000)) == v / 0x100_0000 % 256
  {
    hide ByteOf, ValueOf;
    ValueOfByte(v);
    ValueOfByte(v / 256);
    ValueOfByte(v / 0x1_0000);
    ValueOfByte(v / 0x100_0000);
  }

  lemma {:induction false} FourDigits(v: nat)
    requires v < U32
    ensures v % 256 + 256 * (v / 256 % 256) + 0x1_0000 * (v / 0x1_0000 % 256) + 0x100_0000 * (v / 0x100_0000 % 256) == v
  {
    assert v / 0x1_0000 == v / 256 / 256 && v / 0x100_0000 == v / 0x1_0000 / 256;
  }

  /** A 32-bit word, by shifts. */
  function LeWord(w: bv32): (s: seq<Byte>)
    ensures |s| == 4
  {
    [(w & 0xff) as Byte, ((w >> 8) & 0xff) as Byte, ((w >> 16) & 0xff) as Byte, (w >> 24) as Byte]
  }

  function GetWord(s: seq<Byte>, at: nat): bv32
    requires at + 4 <= |s|
  {
    (s[at] as bv32) | ((s[at + 1] as bv32) << 8) | ((s[at + 2] as bv32) << 16) | ((s[at + 3] as bv32) << 24)
  }

  lemma {:induction false} ReadLeWord(s: seq<Byte>, at: nat, w: bv32)
    requires HasAt(s, at, LeWord(w))
    ensures at + 4 <= |s| && GetWord(s, at) == w
  {
    PartBytes(s, at, LeWord(w));
    WordBytes(w);
  }

  lemma {:induction false} WordBytes(w: bv32)
    ensures (((w & 0xff) as Byte) as bv32) | (((((w >> 8) & 0xff) as Byte) as bv32) << 8)
            | (((((w >> 16) & 0xff) as Byte) as bv32) << 16) | ((((w >> 24) as Byte) as bv32) << 24) == w
  {
  }

  // ---------- CRC-32 ----------

  function BitStep(crc: bv32): bv32 {
    if crc & 1 == 1 then (crc >> 1) ^ 0xedb88320 else crc >> 1
  }

  function BitSteps(crc: bv32, n: nat): bv32 {
    if n == 0 then crc else BitStep(BitSteps(crc, n - 1))
  }

  function ByteStep(crc: bv32, b: Byte): bv32 { BitSteps(crc ^ (b as bv32), 8) }

  function CrcState(content: seq<Byte>, n: nat): bv32
    requires n <= |content|
  {
    if n == 0 then 0xffffffff else ByteStep(CrcState(content, n - 1), content[n - 1])
  }

  function Crc32(content: seq<Byte>): bv32 { CrcState(content, |content|) ^ 0xffffffff }

  method ComputeCrc32(buffer: seq<Byte>) returns (crc: bv32)
    ensures crc == Crc32(buffer)
  {
    hide ByteStep;
    crc := 0xffffffff;
    for i := 0 to |buffer|
      invariant crc == CrcState(buffer, i)
    {
      crc := TakeByte(crc, buffer[i]);
    }
    crc := crc ^ 0xffffffff;
  }

  /** The body of the loop over the bytes. */
  method TakeByte(state: bv32, b: Byte) returns (crc: bv32)
    ensures crc == ByteStep(state, b)
  {
    crc := state ^ (b as bv32);
    for bit := 0 to 8
      invariant crc == BitSteps(state ^ (b as bv32), bit)
    {
      crc := if crc & 1 == 1 then (crc >> 1) ^ 0xedb88320 else crc >> 1;
    }
  }

  lemma {:induction false} BitStepInjective(a: bv32, b: bv32)
    ensures BitStep(a) == BitStep(b) ==> a == b
  {
  }

  lemma {:induction false} BitStepsInjective(a: bv32, b: bv32, n: nat)
    ensures BitSteps(a, n) == BitSteps(b, n) ==> a == b
  {
    if n > 0 {
      BitStepInjective(BitSteps(a, n - 1), BitSteps(b, n - 1));
      BitStepsInjective(a, b, n - 1);
    }
  }

  lemma {:induction false} XorInjective(a: bv32, b: bv32, c: bv32)
    ensures a ^ c == b ^ c ==> a == b
  {
  }

  lemma {:induction false} XorByteInjective(a: bv32, x: Byte, y: Byte)
    ensures a ^ (x as bv32) == a ^ (y as bv32) ==> x == y
  {
  }

  lemma {:induction false} ByteStepInjective(a: bv32, b: bv32, x: Byte)
    ensures ByteStep(a, x) == ByteStep(b, x) ==> a == b
  {
    hide BitSteps;
    BitStepsInjective(a ^ (x as bv32), b ^ (x as bv32), 8);
    XorInjective(a, b, x as bv32);
  }

  lemma {:induction false} ByteStepSeesByte(a: bv32, x: Byte, y: Byte)
    ensures ByteStep(a, x) == ByteStep(a, y) ==> x == y
  {
    hide BitSteps;
    BitStepsInjective(a ^ (x as bv32), a ^ (y as bv32), 8);
    XorByteInjective(a, x, y);
  }

  lemma {:induction false} OneByteStates(content: seq<Byte>, at: nat, b: Byte, n: nat)
    requires at < |content| && b != content[at] && n <= |content|
    ensures n <= at ==> CrcState(content[at := b], n) == CrcState(content, n)
    ensures n > at ==> CrcState(content[at := b], n) != CrcState(content, n)
  {
    hide ByteStep;
    if n > 0 {
      OneByteStates(content, at, b, n - 1);
      ByteStepInjective(CrcState(content[at := b], n - 1), CrcState(content, n - 1), content[n - 1]);
      ByteStepSeesByte(CrcState(content, n - 1), b, content[n - 1]);
    }
  }

  /** The checksum notices every change that is confined to one byte. */
  lemma {:induction false} CrcDetectsOneByte(content: seq<Byte>, at: nat, b: Byte)
    requires at < |content| && b != content[at]
    ensures Crc32(content[at := b]) != Crc32(content)
  {
    hide CrcState;
    OneByteStates(content, at, b, |content|);
    XorInjective(CrcState(content[at := b], |content|), CrcState(content, |content|), 0xffffffff);
  }

  // ---------- the archive ----------

  function LocalHeader(e: Entry): (h: seq<Byte>)
    ensures |h| == 30
  {
    Le32(LOCAL_SIGNATURE) + Le16(20) + Le16(0) + Le16(0) + Le16(0) + Le16(0)
    + LeWord(Crc32(e.content)) + Le32(|e.content|) + Le32(|e.content|) + Le16(|e.name|) + Le16(0)
  }

  function CentralStart(): (h: seq<Byte>)
    ensures |h| == 16
  {
    Le32(CENTRAL_SIGNATURE) + Le16(20) + Le16(20) + Le16(0) + Le16(0) + Le16(0) + Le16(0)
  }

  function CentralHeader(e: Entry, offset: nat): (h: seq<Byte>)
    ensures |h| == 46
  {
    CentralStart() + LeWord(Crc32(e.content)) + Le32(|e.content|) + Le32(|e.content|) + Le16(|e.name|)
    + Le16(0) + Le16(0) + Le16(0) + Le16(0) + Le32(0) + Le32(offset)
  }

  function EndRecord(count: nat, size: nat, offset: nat): (h: seq<Byte>)
    ensures |h| == 22
  {
    Le32(END_SIGNATURE) + Le16(0) + Le16(0) + Le16(count) + Le16(count) + Le32(size) + Le32(offset) + Le16(0)
  }

  function LocalPart(e: Entry): seq<Byte> { LocalHeader(e) + e.name + e.content }

  /** The local headers, names and contents of the first `n` entries. */
  function Locals(entries: seq<Entry>, n: nat): seq<Byte>
    requires n <= |entries|
  {
    if n == 0 then [] else Locals(entries, n - 1) + LocalPart(entries[n - 1])
  }

  function CentralPart(entries: seq<Entry>, i: nat): seq<Byte>
    requires i < |entries|
  {
    CentralHeader(entries[i], |Locals(entries, i)|) + entries[i].name
  }

  /** The central directory of the first `n` entries. */
  function Central(entries: seq<Entry>, n: nat): seq<Byte>
    requires n <= |entries|
  {
    if n == 0 then [] else Central(entries, n - 1) + CentralPart(entries, n - 1)
  }

  function Archive(entries: seq<Entry>): seq<Byte> {
    var locals, central := Locals(entries, |entries|), Central(entries, |entries|);
    locals + central + EndRecord(|entries|, |central|, |locals|)
  }

  /** Every field holds its value; where one does not, the buffer writes throw a RangeError. */
  predicate Fits(entries: seq<Entry>) {
    && |entries| < U16
    && (forall i :: 0 <= i < |entries| ==> |entries[i].name| < U16 && |entries[i].content| < U32)
    && |Locals(entries, |entries|)| < U32
    && |Central(entries, |entries|)| < U32
  }

  // ---------- the reader ----------

  function ReadLocal(z: seq<Byte>, at: nat, name: seq<Byte>, crc: bv32, size: nat): Option<seq<Byte>> {
    if at + 30 > |z| || Get32(z, at) != LOCAL_SIGNATURE || Get16(z, at + 8) != 0 then None
    else if Get16(z, at + 4) > 20 || Get16(z, at + 6) != 0 then None
    else
      var nameEnd := at + 30 + Get16(z, at + 26);
      var start := nameEnd + Get16(z, at + 28);
      if start + size > |z| || z[at + 30..nameEnd] != name then None
      else if GetWord(z, at + 14) != crc || Get32(z, at + 18) != size || Get32(z, at + 22) != size then None
      else if Crc32(z[start..start + size]) != crc then None
      else Some(z[start..start + size])
  }

  /** Reads `count` directory records from `at` on, and each one's entry at the offset it stores. */
  function ReadDirectory(z: seq<Byte>, at: nat, count: nat): Option<seq<Entry>>
    decreases count
  {
    if count == 0 then Some([])
    else if at + 46 > |z| || Get32(z, at) != CENTRAL_SIGNATURE || Get16(z, at + 10) != 0 then None
    else if Get16(z, at + 6) > 20 || Get16(z, at + 8) != 0 || Get16(z, at + 34) != 0 then None
    else
      var nameEnd := at + 46 + Get16(z, at + 28);
      if nameEnd > |z| || Get32(z, at + 20) != Get32(z, at + 24) then None
      else
        var name := z[at + 46..nameEnd];
        match ReadLocal(z, Get32(z, at + 42), name, GetWord(z, at + 16), Get32(z, at + 24))
        case None => None
        case Some(content) =>
          match ReadDirectory(z, nameEnd + Get16(z, at + 30) + Get16(z, at + 32), count - 1)
          case None => None
          case Some(rest) => Some([Entry(name, content)] + rest)
  }

  /** Starts from the end record, which closes the file when there is no archive comment. */
  function ReadArchive(z: seq<Byte>): Option<seq<Entry>> {
    if |z| < 22 then None
    else
      var end := |z| - 22;
      if Get32(z, end) != END_SIGNATURE || Get16(z, end + 20) != 0 then None
      else if Get16(z, end + 4) != 0 || Get16(z, end + 6) != 0 then None
      else if Get16(z, end + 8) != Get16(z, end + 10) || Get32(z, end + 16) + Get32(z, end + 12) != end then None
      else ReadDirectory(z, Get32(z, end + 16), Get16(z, end + 10))
  }

  // ---------- the reader undoes the writer ----------

  lemma {:induction false} LocalFields(z: seq<Byte>, at: nat, e: Entry)
    requires |e.name| < U16 && |e.content| < U32 && HasAt(z, at, LocalHeader(e))
    ensures at + 30 <= |z|
    ensures Get32(z, at) == LOCAL_SIGNATURE && Get16(z, at + 8) == 0 && GetWord(z, at + 14) == Crc32(e.content)
    ensures Get32(z, at + 18) == |e.content| && Get32(z, at + 22) == |e.content|
    ensures Get16(z, at + 26) == |e.name| && Get16(z, at + 28) == 0
    ensures Get16(z, at + 4) == 20 && Get16(z, at + 6) == 0
  {
    hide Crc32, Le16, Le32, LeWord, Get16, Get32, GetWord, HasAt;
    var a := Le32(LOCAL_SIGNATURE) + Le16(20) + Le16(0);
    var b := a + Le16(0);
    var c := b + Le16(0) + Le16(0);
    var d := c + LeWord(Crc32(e.content));
    var f := d + Le32(|e.content|);
    var g := f + Le32(|e.content|);
    var h := g + Le16(|e.name|);
    HasParts(z, at, h, Le16(0));
    ReadLe16(z, at + 28, 0);
    HasParts(z, at, g, Le16(|e.name|));
    ReadLe16(z, at + 26, |e.name|);
    HasParts(z, at, f, Le32(|e.content|));
    ReadLe32(z, at + 22, |e.content|);
    HasParts(z, at, d, Le32(|e.content|));
    ReadLe32(z, at + 18, |e.content|);
    HasParts(z, at, c, LeWord(Crc32(e.content)));
    ReadLeWord(z, at + 14, Crc32(e.content));
    HasParts(z, at, b + Le16(0), Le16(0));
    HasParts(z, at, b, Le16(0));
    HasParts(z, at, a, Le16(0));
    ReadLe16(z, at + 8, 0);
    HasParts(z, at, Le32(LOCAL_SIGNATURE) + Le16(20), Le16(0));
    ReadLe16(z, at + 6, 0);
    HasParts(z, at, Le32(LOCAL_SIGNATURE), Le16(20));
    ReadLe16(z, at + 4, 20);
    ReadLe32(z, at, LOCAL_SIGNATURE);
  }

  lemma {:induction false} CentralSizes(z: seq<Byte>, at: nat, e: Entry, offset: nat)
    requires |e.name| < U16 && |e.content| < U32 && offset < U32 && HasAt(z, at, CentralHeader(e, offset))
    ensures at + 46 <= |z|
    ensures Get16(z, at + 28) == |e.name| && Get16(z, at + 30) == 0 && Get16(z, at + 32) == 0
    ensures Get32(z, at + 42) == offset && Get16(z, at + 34) == 0
  {
    hide Crc32, Le16, Le32, LeWord, Get16, Get32, GetWord, HasAt;
    var g := CentralStart() + LeWord(Crc32(e.content)) + Le32(|e.content|) + Le32(|e.content|);
    var h := g + Le16(|e.name|);
    var k := h + Le16(0) + Le16(0);
    HasParts(z, at, k + Le16(0) + Le16(0) + Le32(0), Le32(offset));
    ReadLe32(z, at + 42, offset);
    HasParts(z, at, k + Le16(0) + Le16(0), Le32(0));
    HasParts(z, at, k + Le16(0), Le16(0));
    HasParts(z, at, k, Le16(0));
    ReadLe16(z, at + 34, 0);
    HasParts(z, at, h + Le16(0), Le16(0));
    ReadLe16(z, at + 32, 0);
    HasParts(z, at, h, Le16(0));
    ReadLe16(z, at + 30, 0);
    HasParts(z, at, g, Le16(|e.name|));
    ReadLe16(z, at + 28, |e.name|);
  }

  lemma {:induction false} CentralPrefix(z: seq<Byte>, at: nat, e: Entry, offset: nat)
    requires HasAt(z, at, CentralHeader(e, offset))
    ensures HasAt(z, at, CentralStart() + LeWord(Crc32(e.content)) + Le32(|e.content|) + Le32(|e.content|))
  {
    hide Crc32, Le16, Le32, LeWord, HasAt;
    var g := CentralStart() + LeWord(Crc32(e.content)) + Le32(|e.content|) + Le32(|e.content|);
    var h := g + Le16(|e.name|);
    var k := h + Le16(0) + Le16(0);
    HasParts(z, at, k + Le16(0) + Le16(0) + Le32(0), Le32(offset));
    HasParts(z, at, k + Le16(0) + Le16(0), Le32(0));
    HasParts(z, at, k + Le16(0), Le16(0));
    HasParts(z, at, k, Le16(0));
    HasParts(z, at, h + Le16(0), Le16(0));
    HasParts(z, at, h, Le16(0));
    HasParts(z, at, g, Le16(|e.name|));
  }

  lemma {:induction false} CentralFields(z: seq<Byte>, at: nat, e: Entry, offset: nat)
    requires |e.content| < U32 && HasAt(z, at, CentralHeader(e, offset))
    ensures at + 46 <= |z|
    ensures Get32(z, at) == CENTRAL_SIGNATURE && Get16(z, at + 10) == 0 && GetWord(z, at + 16) == Crc32(e.content)
    ensures Get32(z, at + 20) == |e.content| && Get32(z, at + 24) == |e.content|
    ensures Get16(z, at + 6) == 20 && Get16(z, at + 8) == 0
  {
    CentralPrefix(z, at, e, offset);
    hide Crc32, Le16, Le32, LeWord, Get16, Get32, GetWord, HasAt;
    var a := Le32(CENTRAL_SIGNATURE) + Le16(20) + Le16(20) + Le16(0);
    var b := CentralStart() + LeWord(Crc32(e.content));
    HasParts(z, at, b + Le32(|e.content|), Le32(|e.content|));
    ReadLe32(z, at + 24, |e.content|);
    HasParts(z, at, b, Le32(|e.content|));
    ReadLe32(z, at + 20, |e.content|);
    HasParts(z, at, CentralStart(), LeWord(Crc32(e.content)));
    ReadLeWord(z, at + 16, Crc32(e.content));
    HasParts(z, at, a + Le16(0) + Le16(0), Le16(0));
    HasParts(z, at, a + Le16(0), Le16(0));
    HasParts(z, at, a, Le16(0));
    ReadLe16(z, at + 10, 0);
    HasParts(z, at, Le32(CENTRAL_SIGNATURE) + Le16(20) + Le16(20), Le16(0));
    ReadLe16(z, at + 8, 0);
    HasParts(z, at, Le32(CENTRAL_SIGNATURE) + Le16(20), Le16(20));
    ReadLe16(z, at + 6, 20);
    HasParts(z, at, Le32(CENTRAL_SIGNATURE), Le16(20));
    ReadLe32(z, at, CENTRAL_SIGNATURE);
  }

  lemma {:induction false} EndFields(z: seq<Byte>, at: nat, count: nat, size: nat, offset: nat)
    requires count < U16 && size < U32 && offset < U32 && HasAt(z, at, EndRecord(count, size, offset))
    ensures at + 22 <= |z|
    ensures Get32(z, at) == END_SIGNATURE && Get16(z, at + 20) == 0
    ensures Get16(z, at + 8) == count && Get16(z, at + 10) == count
    ensures Get32(z, at + 12) == size && Get32(z, at + 16) == offset
    ensures Get16(z, at + 4) == 0 && Get16(z, at + 6) == 0
  {
    hide Le16, Le32, Get16, Get32, HasAt;
    var a := Le32(END_SIGNATURE) + Le16(0) + Le16(0);
    var b := a + Le16(count);
    HasParts(z, at, b + Le16(count) + Le32(size) + Le32(offset), Le16(0));
    ReadLe16(z, at + 20, 0);
    HasParts(z, at, b + Le16(count) + Le32(size), Le32(offset));
    ReadLe32(z, at + 16, offset);
    HasParts(z, at, b + Le16(count), Le32(size));
    ReadLe32(z, at + 12, size);
    HasParts(z, at, b, Le16(count));
    ReadLe16(z, at + 10, count);
    HasParts(z, at, a, Le16(count));
    ReadLe16(z, at + 8, count);
    HasParts(z, at, Le32(END_SIGNATURE) + Le16(0), Le16(0));
    ReadLe16(z, at + 6, 0);
    HasParts(z, at, Le32(END_SIGNATURE), Le16(0));
    ReadLe16(z, at + 4, 0);
    ReadLe32(z, at, END_SIGNATURE);
  }

  /** An entry is found wherever its header, name and content stand. */
  lemma {:induction false} LocalReads(z: seq<Byte>, at: nat, e: Entry)
    requires |e.name| < U16 && |e.content| < U32 && HasAt(z, at, LocalPart(e))
    ensures ReadLocal(z, at, e.name, Crc32(e.content), |e.content|) == Some(e.content)
  {
    hide Crc32, LocalHeader, HasAt, Get16, Get32, GetWord;
    HasParts(z, at, LocalHeader(e) + e.name, e.content);
    HasParts(z, at, LocalHeader(e), e.name);
    LocalFields(z, at, e);
    Stands(z, at + 30, e.name);
    Stands(z, at + 30 + |e.name|, e.content);
  }

  lemma {:induction false} Stands(z: seq<Byte>, at: nat, part: seq<Byte>)
    requires HasAt(z, at, part)
    ensures at + |part| <= |z| && z[at..at + |part|] == part
  {
  }

  lemma {:induction false} LocalAt(entries: seq<Entry>, i: nat, n: nat)
    requires i < n <= |entries|
    ensures HasAt(Locals(entries, n), |Locals(entries, i)|, LocalPart(entries[i]))
    decreases n
  {
    hide LocalPart;
    var last := LocalPart(entries[n - 1]);
    if i == n - 1 {
      HasInRight(Locals(entries, n - 1), last, 0, last);
    } else {
      LocalAt(entries, i, n - 1);
      HasInLeft(Locals(entries, n - 1), last, |Locals(entries, i)|, LocalPart(entries[i]));
    }
  }

  lemma {:induction false} CentralAt(entries: seq<Entry>, i: nat, n: nat)
    requires i < n <= |entries|
    ensures HasAt(Central(entries, n), |Central(entries, i)|, CentralPart(entries, i))
    decreases n
  {
    hide CentralPart;
    var last := CentralPart(entries, n - 1);
    if i == n - 1 {
      HasInRight(Central(entries, n - 1), last, 0, last);
    } else {
      CentralAt(entries, i, n - 1);
      HasInLeft(Central(entries, n - 1), last, |Central(entries, i)|, CentralPart(entries, i));
    }
  }

  lemma {:induction false} LocalsGrow(entries: seq<Entry>, i: nat, n: nat)
    requires i <= n <= |entries|
    ensures |Locals(entries, i)| <= |Locals(entries, n)|
    decreases n
  {
    hide LocalPart;
    if i < n { LocalsGrow(entries, i, n - 1); }
  }

  /** Every entry stands at the offset its directory record stores, and every record where the
      directory puts it. */
  lemma {:induction false} PartsOfArchive(entries: seq<Entry>, i: nat)
    requires i < |entries|
    ensures var n := |entries|;
            && HasAt(Archive(entries), |Locals(entries, i)|, LocalPart(entries[i]))
            && HasAt(Archive(entries), |Locals(entries, n)| + |Central(entries, i)|, CentralPart(entries, i))
  {
    hide LocalPart, CentralPart, Locals, Central, EndRecord, HasAt;
    var n := |entries|;
    var locals, central := Locals(entries, n), Central(entries, n);
    var end := EndRecord(n, |central|, |locals|);
    LocalAt(entries, i, n);
    CentralAt(entries, i, n);
    HasInLeft(locals, central, |Locals(entries, i)|, LocalPart(entries[i]));
    HasInLeft(locals + central, end, |Locals(entries, i)|, LocalPart(entries[i]));
    HasInRight(locals, central, |Central(entries, i)|, CentralPart(entries, i));
    HasInLeft(locals + central, end, |locals| + |Central(entries, i)|, CentralPart(entries, i));
  }

  /** One directory record read: its own entry, then whatever the rest of the directory gives. */
  lemma {:induction false} DirectoryStep(z: seq<Byte>, at: nat, e: Entry, offset: nat, count: nat)
    requires |e.name| < U16 && |e.content| < U32 && offset < U32 && count > 0
    requires HasAt(z, at, CentralHeader(e, offset) + e.name) && HasAt(z, offset, LocalPart(e))
    ensures var rest := ReadDirectory(z, at + 46 + |e.name|, count - 1);
            ReadDirectory(z, at, count) == if rest == None then None else Some([e] + rest.value)
  {
    hide Crc32, LocalPart, CentralHeader, Get16, Get32, GetWord, ReadLocal;
    LocalReads(z, offset, e);
    HasParts(z, at, CentralHeader(e, offset), e.name);
    CentralSizes(z, at, e, offset);
    CentralFields(z, at, e, offset);
    assert z[at + 46..at + 46 + |e.name|] == e.name;
  }

  lemma {:induction false} DirectoryReads(entries: seq<Entry>, i: nat)
    requires Fits(entries) && i <= |entries|
    ensures ReadDirectory(Archive(entries), |Locals(entries, |entries|)| + |Central(entries, i)|, |entries| - i)
         == Some(entries[i..])
    decreases |entries| - i
  {
    hide CentralHeader, LocalPart, ReadDirectory, Locals, Central, Archive, HasAt;
    if i < |entries| {
      PartsOfArchive(entries, i);
      LocalsGrow(entries, i, |entries|);
      CentralGrows(entries, i);
      DirectoryStep(Archive(entries), |Locals(entries, |entries|)| + |Central(entries, i)|, entries[i],
          |Locals(entries, i)|, |entries| - i);
      DirectoryReads(entries, i + 1);
      assert entries[i..] == [entries[i]] + entries[i + 1..];
    } else {
      EndOfDirectory(Archive(entries), |Locals(entries, |entries|)| + |Central(entries, i)|);
      assert entries[i..] == [];
    }
  }

  lemma {:induction false} CentralGrows(entries: seq<Entry>, i: nat)
    requires i < |entries|
    ensures |Central(entries, i + 1)| == |Central(entries, i)| + 46 + |entries[i].name|
  {
  }

  lemma {:induction false} EndOfDirectory(z: seq<Byte>, at: nat)
    ensures ReadDirectory(z, at, 0) == Some([])
  {
  }

  /** The round trip: reading the end record, then the directory, then each entry at its stored
      offset gives back the names and contents, in order. */
  lemma {:induction false} ReadBack(entries: seq<Entry>)
    requires Fits(entries)
    ensures ReadArchive(Archive(entries)) == Some(entries)
  {
    hide Get16, Get32, Locals, Central, EndRecord, ReadDirectory;
    var n := |entries|;
    var locals, central := Locals(entries, n), Central(entries, n);
    var end := EndRecord(n, |central|, |locals|);
    HasInRight(locals + central, end, 0, end);
    EndFields(Archive(entries), |locals + central|, n, |central|, |locals|);
    DirectoryReads(entries, 0);
    NothingBefore(entries);
    assert entries[0..] == entries;
  }

  lemma {:induction false} NothingBefore(entries: seq<Entry>)
    ensures Central(entries, 0) == []
  {
  }

  // ---------- the writer's own loops and buffers ----------

  /** Buffer.writeUInt16LE: a value out of range is a RangeError and writes nothing. */
  method WriteUInt16LE(buffer: array<Byte>, v: nat, at: nat) returns (ok: bool)
    requires at + 2 <= buffer.Length
    modifies buffer
    ensures ok == (v < U16)
    ensures buffer[..at] == old(buffer[..at]) && buffer[at + 2..] == old(buffer[at + 2..])
    ensures buffer[at..at + 2] == if ok then Le16(v) else old(buffer[at..at + 2])
    ensures ok ==> buffer[..at + 2] == old(buffer[..at]) + Le16(v)
  {
    hide ByteOf;
    if v >= U16 { return false; }
    buffer[at] := ByteOf(v);
    buffer[at + 1] := ByteOf(v / 256);
    ok := true;
    assert buffer[at..at + 2] == Le16(v);
    assert buffer[..at + 2] == buffer[..at] + buffer[at..at + 2];
  }

  /** Buffer.writeUInt32LE of a number. */
  method WriteUInt32LE(buffer: array<Byte>, v: nat, at: nat) returns (ok: bool)
    requires at + 4 <= buffer.Length
    modifies buffer
    ensures ok == (v < U32)
    ensures buffer[..at] == old(buffer[..at]) && buffer[at + 4..] == old(buffer[at + 4..])
    ensures buffer[at..at + 4] == if ok then Le32(v) else old(buffer[at..at + 4])
    ensures ok ==> buffer[..at + 4] == old(buffer[..at]) + Le32(v)
  {
    hide ByteOf;
    if v >= U32 { return false; }
    buffer[at] := ByteOf(v);
    buffer[at + 1] := ByteOf(v / 256);
    buffer[at + 2] := ByteOf(v / 0x1_0000);
    buffer[at + 3] := ByteOf(v / 0x100_0000);
    ok := true;
    assert buffer[at..at + 4] == Le32(v);
    assert buffer[..at + 4] == buffer[..at] + buffer[at..at + 4];
  }

  /** Buffer.writeUInt32LE of the checksum, which is always in range. */
  method WriteWordLE(buffer: array<Byte>, w: bv32, at: nat)
    requires at + 4 <= buffer.Length
    modifies buffer
    ensures buffer[..at] == old(buffer[..at]) && buffer[at + 4..] == old(buffer[at + 4..])
    ensures buffer[..at + 4] == old(buffer[..at]) + LeWord(w)
  {
    var bytes := LeWord(w);
    hide LeWord;
    buffer[at] := bytes[0];
    buffer[at + 1] := bytes[1];
    buffer[at + 2] := bytes[2];
    buffer[at + 3] := bytes[3];
    assert bytes == [bytes[0], bytes[1], bytes[2], bytes[3]];
  }

  method WriteLocalHeader(e: Entry, crc: bv32) returns (header: Option<seq<Byte>>)
    requires crc == Crc32(e.content)
    ensures header == if |e.name| < U16 && |e.content| < U32 then Some(LocalHeader(e)) else None
  {
    hide Crc32, Le16, Le32, LeWord;
    var local := new Byte[30](_ => 0);
    var ok := WriteUInt32LE(local, LOCAL_SIGNATURE, 0);
    ok := WriteUInt16LE(local, 20, 4);
    ok := WriteUInt16LE(local, 0, 6);
    ok := WriteUInt16LE(local, 0, 8);
    ok := WriteUInt16LE(local, 0, 10);
    ok := WriteUInt16LE(local, 0, 12);
    WriteWordLE(local, crc, 14);
    ok := WriteUInt32LE(local, |e.content|, 18);
    if !ok { return None; }
    ok := WriteUInt32LE(local, |e.content|, 22);
    ok := WriteUInt16LE(local, |e.name|, 26);
    if !ok { return None; }
    ok := WriteUInt16LE(local, 0, 28);
    assert local[..30] == local[..];
    header := Some(local[..]);
  }

  /** The first seven writes of a directory record. */
  method WriteCentralStart(central: array<Byte>)
    requires central.Length == 46
    modifies central
    ensures central[..16] == CentralStart()
  {
    hide Le16, Le32;
    var ok := WriteUInt32LE(central, CENTRAL_SIGNATURE, 0);
    ok := WriteUInt16LE(central, 20, 4);
    ok := WriteUInt16LE(central, 20, 6);
    ok := WriteUInt16LE(central, 0, 8);
    ok := WriteUInt16LE(central, 0, 10);
    ok := WriteUInt16LE(central, 0, 12);
    ok := WriteUInt16LE(central, 0, 14);
  }

  method WriteCentralHeader(e: Entry, crc: bv32, offset: nat) returns (header: Option<seq<Byte>>)
    requires crc == Crc32(e.content)
    ensures header == if |e.name| < U16 && |e.content| < U32 && offset < U32 then Some(CentralHeader(e, offset))
        else None
  {
    hide Crc32, Le16, Le32, LeWord;
    var central := new Byte[46](_ => 0);
    WriteCentralStart(central);
    WriteWordLE(central, crc, 16);
    var ok := WriteUInt32LE(central, |e.content|, 20);
    if !ok { return None; }
    ok := WriteUInt32LE(central, |e.content|, 24);
    ok := WriteUInt16LE(central, |e.name|, 28);
    if !ok { return None; }
    ok := WriteUInt16LE(central, 0, 30);
    ok := WriteUInt16LE(central, 0, 32);
    ok := WriteUInt16LE(central, 0, 34);
    ok := WriteUInt16LE(central, 0, 36);
    ok := WriteUInt32LE(central, 0, 38);
    ok := WriteUInt32LE(central, offset, 42);
    if !ok { return None; }
    assert central[..46] == central[..];
    header := Some(central[..]);
  }

  method WriteEndRecord(count: nat, size: nat, offset: nat) returns (record: Option<seq<Byte>>)
    ensures record == if count < U16 && size < U32 && offset < U32 then Some(EndRecord(count, size, offset)) else None
  {
    hide Le16, Le32;
    var end := new Byte[22](_ => 0);
    var ok := WriteUInt32LE(end, END_SIGNATURE, 0);
    ok := WriteUInt16LE(end, 0, 4);
    ok := WriteUInt16LE(end, 0, 6);
    ok := WriteUInt16LE(end, count, 8);
    if !ok { return None; }
    ok := WriteUInt16LE(end, count, 10);
    ok := WriteUInt32LE(end, size, 12);
    if !ok { return None; }
    ok := WriteUInt32LE(end, offset, 16);
    if !ok { return None; }
    ok := WriteUInt16LE(end, 0, 20);
    assert end[..22] == end[..];
    record := Some(end[..]);
  }

  /** createZip: None is the RangeError of a field that does not fit. */
  method CreateZip(entries: seq<Entry>) returns (archive: Option<seq<Byte>>)
    ensures archive == if Fits(entries) then Some(Archive(entries)) else None
    ensures archive.Some? ==> ReadArchive(archive.value) == Some(entries)
  {
    hide LocalHeader, CentralHeader, EndRecord, Crc32, ReadArchive;
    var localParts: seq<Byte>, centralParts: seq<Byte> := [], [];
    var offset := 0;
    for i := 0 to |entries|
      invariant localParts == Locals(entries, i) && offset == |localParts|
      invariant centralParts == Central(entries, i)
      invariant forall k :: 0 <= k < i ==> |entries[k].name| < U16 && |entries[k].content| < U32
    {
      var entry := entries[i];
      var crc := ComputeCrc32(entry.content);
      var local := WriteLocalHeader(entry, crc);
      if local == None { return None; }
      localParts := localParts + (local.value + entry.name + entry.content);
      var central := WriteCentralHeader(entry, crc, offset);
      if central == None {
        LocalsGrow(entries, i, |entries|);
        return None;
      }
      centralParts := centralParts + (central.value + entry.name);
      offset := offset + (|local.value| + |entry.name| + |entry.content|);
    }
    var end := WriteEndRecord(|entries|, |centralParts|, offset);
    if end == None { return None; }
    archive := Some(localParts + centralParts + end.value);
    ReadBack(entries);
  }
}
