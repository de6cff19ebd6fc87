/**
 The checksum as algebra: CRC-32 is the remainder of a long division of polynomials over two elements,
 by the generator x^32 + x^26 + x^23 + x^22 + x^16 + x^12 + x^11 + x^10 + x^8 + x^7 + x^5 + x^4 + x^2 + x + 1.
 A polynomial is the sequence of its coefficients, the highest first.
 */
module CrcPolynomial {
  import opened ZipArchive

  type Bits = seq<bool>

  /** The exponents of the generator, but for the highest. */
  const EXPONENTS: set<nat> := {26, 23, 22, 16, 12, 11, 10, 8, 7, 5, 4, 2, 1, 0}

  /** The generator without its highest term: 32 coefficients, from x^31 down to x^0. */
  function Generator(): (g: Bits)
    ensures |g| == 32
  {
    seq(32, i requires 0 <= i < 32 => (31 - i) in EXPONENTS)
  }

  function Zeros(n: nat): (z: Bits)
    ensures |z| == n && forall i :: 0 <= i < n ==> !z[i]
  {
    seq(n, i => false)
  }

  function Ones(n: nat): (z: Bits)
    ensures |z| == n && forall i :: 0 <= i < n ==> z[i]
  {
    seq(n, i => true)
  }

  /** The sum: coefficients that differ; the longer polynomial goes on as it is. `a` is no longer. */
  function Plus(a: Bits, b: Bits): (c: Bits)
    requires |a| <= |b|
    ensures |c| == |b|
    ensures forall i :: 0 <= i < |b| ==> c[i] == (if i < |a| then a[i] != b[i] else b[i])
  {
    seq(|b|, i requires 0 <= i < |b| => if i < |a| then a[i] != b[i] else b[i])
  }

  /** Long division: where the highest coefficient is one, the generator is subtracted under it. */
  function Remainder(p: Bits): (r: Bits)
    requires |p| >= 32
    ensures |r| == 32
    decreases |p|
  {
    if |p| == 32 then p
    else if p[0] then Remainder(Plus(Generator(), p[1..]))
    else Remainder(p[1..])
  }

  // ---------- the register ----------

  /** One step of a register of 32 coefficients: multiplied by x, modulo the generator. */
  function Shift(r: Bits): (s: Bits)
    requires |r| == 32
    ensures |s| == 32
  {
    var moved := r[1..] + [false];
    if r[0] then Plus(Generator(), moved) else moved
  }

  function Shifts(r: Bits, n: nat): (s: Bits)
    requires |r| == 32
    ensures |s| == 32
  {
    if n == 0 then r else Shift(Shifts(r, n - 1))
  }

  /** The register after it has taken in the bits one by one. */
  function Fed(r: Bits, bits: Bits): (s: Bits)
    requires |r| == 32
    ensures |s| == 32
    decreases |bits|
  {
    if bits == [] then r else Fed(Shift(Plus([bits[0]], r)), bits[1..])
  }

  lemma {:induction false} FedIsDivision(r: Bits, bits: Bits)
    requires |r| == 32
    ensures Fed(r, bits) == Remainder(Plus(r, bits + Zeros(32)))
    decreases |bits|
  {
    var p := Plus(r, bits + Zeros(32));
    if bits == [] {
      assert p == r;
    } else {
      var s := Plus([bits[0]], r);
      assert p[0] == s[0];
      var moved := s[1..] + [false];
      var rest := bits[1..] + Zeros(32);
      assert p[1..] == Plus(moved, rest);
      if p[0] { assert Plus(Generator(), p[1..]) == Plus(Shift(s), rest); }
      FedIsDivision(Shift(s), bits[1..]);
    }
  }

  lemma {:induction false} FedBoth(r: Bits, a: Bits, b: Bits)
    requires |r| == 32
    ensures Fed(r, a + b) == Fed(Fed(r, a), b)
    decreases |a|
  {
    if a == [] {
      assert a + b == b;
    } else {
      assert (a + b)[1..] == a[1..] + b;
      FedBoth(Shift(Plus([a[0]], r)), a[1..], b);
    }
  }

  lemma {:induction false} ShiftsFirst(r: Bits, n: nat)
    requires |r| == 32
    ensures Shifts(r, n + 1) == Shifts(Shift(r), n)
  {
    if n > 0 { ShiftsFirst(r, n - 1); }
  }

  /** Taking in a few bits at once is taking them in one by one. */
  lemma {:induction false} FedAtOnce(r: Bits, bits: Bits)
    requires |r| == 32 && |bits| <= 32
    ensures Fed(r, bits) == Shifts(Plus(bits, r), |bits|)
    decreases |bits|
  {
    if bits == [] {
      assert Plus(bits, r) == r;
    } else {
      var s, all := Plus([bits[0]], r), Plus(bits, r);
      ShiftsFirst(all, |bits| - 1);
      FedAtOnce(Shift(s), bits[1..]);
      assert Shift(all) == Plus(bits[1..], Shift(s));
    }
  }

  // ---------- words ----------

  predicate Odd(c: bv32) { c & 1 == 1 }

  function Half(c: bv32): bv32 { c >> 1 }

  function Xor(a: bv32, b: bv32): bv32 { a ^ b }

  /** The lowest `n` bits of a word, the lowest first. */
  function LowBits(c: bv32, n: nat): (r: Bits)
    ensures |r| == n
  {
    if n == 0 then [] else [Odd(c)] + LowBits(Half(c), n - 1)
  }

  /** The lowest bit of a word is the highest coefficient. */
  function Coefficients(c: bv32): (r: Bits)
    ensures |r| == 32
  {
    LowBits(c, 32)
  }

  /** The bits of a byte, in the order in which they are sent. */
  function BitsOf(b: Byte): (r: Bits)
    ensures |r| == 8
  {
    LowBits(b as bv32, 8)
  }

  /** The bits of the first `n` bytes. */
  function Message(content: seq<Byte>, n: nat): Bits
    requires n <= |content|
  {
    if n == 0 then [] else Message(content, n - 1) + BitsOf(content[n - 1])
  }

  function Nibble(c: bv32): (r: Bits)
    ensures |r| == 4
  {
    [c & 1 == 1, c & 2 == 2, c & 4 == 4, c & 8 == 8]
  }

  function Quarter(c: bv32): bv32 { c >> 4 }

  lemma {:induction false} FourHalves(c: bv32)
    ensures Odd(Half(c)) == (c & 2 == 2) && Odd(Half(Half(c))) == (c & 4 == 4)
    ensures Odd(Half(Half(Half(c)))) == (c & 8 == 8) && Odd(c) == (c & 1 == 1)
    ensures Half(Half(Half(Half(c)))) == Quarter(c)
  {
  }

  lemma {:induction false} NibbleByHalves(c: bv32)
    ensures Nibble(c) == [Odd(c), Odd(Half(c)), Odd(Half(Half(c))), Odd(Half(Half(Half(c))))]
  {
    FourHalves(c);
    hide Odd, Half;
  }

  lemma {:induction false} TwoBitsFirst(c: bv32, n: nat)
    requires n >= 2
    ensures LowBits(c, n) == [Odd(c), Odd(Half(c))] + LowBits(Half(Half(c)), n - 2)
  {
    hide Odd, Half;
    assert LowBits(c, n) == [Odd(c)] + LowBits(Half(c), n - 1);
    assert LowBits(Half(c), n - 1) == [Odd(Half(c))] + LowBits(Half(Half(c)), n - 2);
  }

  lemma {:induction false} NibbleFirst(c: bv32, n: nat)
    requires n >= 4
    ensures LowBits(c, n) == Nibble(c) + LowBits(Quarter(c), n - 4)
  {
    FourHalves(c);
    NibbleByHalves(c);
    hide Odd, Half, Quarter, Nibble, LowBits;
    TwoBitsFirst(c, n);
    TwoBitsFirst(Half(Half(c)), n - 2);
  }

  /** The word nibble by nibble. */
  function Nibbles(c: bv32, n: nat): (r: Bits)
    ensures |r| == 4 * n
  {
    if n == 0 then [] else Nibble(c) + Nibbles(Quarter(c), n - 1)
  }

  lemma {:induction false} BitsByNibble(c: bv32, n: nat)
    ensures LowBits(c, 4 * n) == Nibbles(c, n)
    decreases n
  {
    hide Nibble, Quarter;
    if n > 0 {
      NibbleFirst(c, 4 * n);
      BitsByNibble(Quarter(c), n - 1);
    }
  }

  lemma {:induction false} NibbleIs(c: bv32, n: nat, nibble: Bits, rest: bv32)
    requires n > 0 && Nibble(c) == nibble && Quarter(c) == rest
    ensures Nibbles(c, n) == nibble + Nibbles(rest, n - 1)
  {
  }

  lemma {:induction false} LowNibbles()
    ensures Nibbles(0xedb88320, 8) ==
      [false, false, false, false] + ([false, true, false, false]
        + ([true, true, false, false] + ([false, false, false, true] + Nibbles(0xedb8, 4))))
  {
    NibbleIs(0xedb88320, 8, [false, false, false, false], 0xedb8832);
    NibbleIs(0xedb8832, 7, [false, true, false, false], 0xedb883);
    NibbleIs(0xedb883, 6, [true, true, false, false], 0xedb88);
    NibbleIs(0xedb88, 5, [false, false, false, true], 0xedb8);
    hide Nibbles, Nibble, Quarter;
  }

  lemma {:induction false} HighNibbles()
    ensures Nibbles(0xedb8, 4) ==
      [false, false, false, true] + ([true, true, false, true]
        + ([true, false, true, true] + ([false, true, true, true] + [])))
  {
    NibbleIs(0xedb8, 4, [false, false, false, true], 0xedb);
    NibbleIs(0xedb, 3, [true, true, false, true], 0xed);
    NibbleIs(0xed, 2, [true, false, true, true], 0xe);
    NibbleIs(0xe, 1, [false, true, true, true], 0x0);
    assert Nibbles(0, 0) == [];
    hide Nibbles, Nibble, Quarter;
  }

  lemma {:induction false} GeneratorWord()
    ensures Coefficients(0xedb88320) == Generator()
  {
    BitsByNibble(0xedb88320, 8);
    LowNibbles();
    HighNibbles();
    hide Nibbles, LowBits;
  }

  lemma {:induction false} AllOnes()
    ensures Coefficients(0xffffffff) == Ones(32)
  {
    BitsByNibble(0xffffffff, 8);
    NibbleIs(0xffffffff, 8, Ones(4), 0xfffffff);
    NibbleIs(0xfffffff, 7, Ones(4), 0xffffff);
    NibbleIs(0xffffff, 6, Ones(4), 0xfffff);
    NibbleIs(0xfffff, 5, Ones(4), 0xffff);
    NibbleIs(0xffff, 4, Ones(4), 0xfff);
    NibbleIs(0xfff, 3, Ones(4), 0xff);
    NibbleIs(0xff, 2, Ones(4), 0xf);
    NibbleIs(0xf, 1, Ones(4), 0x0);
    hide Nibbles, LowBits;
  }

  /** The word has no bits but its lowest `n`. */
  predicate Below(c: bv32, n: nat) { if n == 0 then c == 0 else Below(Half(c), n - 1) }

  lemma {:induction false} BelowByNibble(c: bv32, n: nat)
    requires n >= 4 && Below(Quarter(c), n - 4)
    ensures Below(c, n)
  {
    FourHalves(c);
    hide Half, Quarter;
    assert Below(Half(Half(Half(c))), n - 3);
    assert Below(Half(Half(c)), n - 2);
    assert Below(Half(c), n - 1);
  }

  function Quarters(c: bv32, k: nat): bv32 { if k == 0 then c else Quarters(Quarter(c), k - 1) }

  lemma {:induction false} BelowByNibbles(c: bv32, n: nat, k: nat)
    requires Below(Quarters(c, k), n)
    ensures Below(c, n + 4 * k)
    decreases k
  {
    hide Quarter, Below;
    if k > 0 {
      BelowByNibbles(Quarter(c), n, k - 1);
      BelowByNibble(c, n + 4 * k);
    }
  }

  lemma {:induction false} ThreeLeft(c: bv32)
    requires c < 8
    ensures Below(c, 3)
  {
    assert Half(Half(Half(c))) == 0;
    hide Half;
    assert Below(Half(Half(c)), 1);
    assert Below(Half(c), 2);
  }

  lemma {:induction false} HalfIsBelow(c: bv32)
    ensures Below(Half(c), 31)
  {
    var h := Half(c);
    var q := Quarter(Quarter(Quarter(Quarter(Quarter(Quarter(Quarter(h)))))));
    assert q < 8;
    ThreeLeft(q);
    hide Half, Quarter, Below;
    var q4 := Quarter(Quarter(Quarter(Quarter(h))));
    assert Quarters(q4, 1) == Quarters(Quarter(q4), 0);
    assert Quarters(q4, 3) == Quarters(Quarter(q4), 2) == Quarters(Quarter(Quarter(q4)), 1) == Quarters(q, 0) == q;
    assert Quarters(h, 7) == Quarters(Quarter(h), 6) == Quarters(Quarter(Quarter(h)), 5);
    assert Quarters(Quarter(Quarter(h)), 5) == Quarters(Quarter(Quarter(Quarter(h))), 4) == Quarters(q4, 3);
    BelowByNibbles(h, 3, 7);
  }

  lemma {:induction false} ByteIsBelow(b: Byte)
    ensures Below(b as bv32, 8)
  {
    assert Quarter(Quarter(b as bv32)) == 0;
    hide Half, Quarter;
    BelowByNibble(Quarter(b as bv32), 4);
    BelowByNibble(b as bv32, 8);
  }

  lemma {:induction false} ZeroIsEven()
    ensures !Odd(0) && Half(0) == 0
  {
  }

  lemma {:induction false} NoMoreBits(c: bv32, n: nat, m: nat)
    requires Below(c, n) && n <= m
    ensures LowBits(c, m) == LowBits(c, n) + Zeros(m - n)
    decreases m
  {
    ZeroIsEven();
    hide Odd, Half;
    if n > 0 {
      NoMoreBits(Half(c), n - 1, m - 1);
    } else if m > 0 {
      NoMoreBits(0, 0, m - 1);
      assert LowBits(0, m) == [Odd(0)] + LowBits(Half(0), m - 1);
    }
  }

  lemma {:induction false} ShiftedWord(c: bv32)
    ensures Coefficients(Half(c)) == Coefficients(c)[1..] + [false]
  {
    HalfIsBelow(c);
    assert Half(c) == c >> 1;
    hide Half, Odd, Below;
    NoMoreBits(Half(c), 31, 32);
  }

  lemma {:induction false} XorBits(a: bv32, b: bv32)
    ensures Odd(Xor(a, b)) <==> Odd(a) != Odd(b)
    ensures Half(Xor(a, b)) == Xor(Half(a), Half(b))
  {
  }

  lemma {:induction false} XorCommutes(a: bv32, b: bv32)
    ensures Xor(a, b) == Xor(b, a)
  {
  }

  lemma {:induction false} XorLowBits(a: bv32, b: bv32, n: nat)
    ensures LowBits(Xor(a, b), n) == Plus(LowBits(a, n), LowBits(b, n))
    decreases n
  {
    hide Odd, Half, Xor;
    if n > 0 {
      XorBits(a, b);
      XorLowBits(Half(a), Half(b), n - 1);
    }
  }

  lemma {:induction false} XorIsPlus(a: bv32, b: bv32)
    ensures Coefficients(Xor(a, b)) == Plus(Coefficients(a), Coefficients(b))
  {
    hide LowBits, Xor;
    XorLowBits(a, b, 32);
  }

  lemma {:induction false} ByteIsPlus(c: bv32, b: Byte)
    ensures Coefficients(Xor(c, b as bv32)) == Plus(BitsOf(b), Coefficients(c))
  {
    XorCommutes(c, b as bv32);
    ByteIsBelow(b);
    hide LowBits, Below, Xor;
    XorIsPlus(b as bv32, c);
    NoMoreBits(b as bv32, 8, 32);
  }

  lemma {:induction false} StepIs(c: bv32)
    ensures BitStep(c) == if Odd(c) then Xor(0xedb88320, Half(c)) else Half(c)
  {
  }

  lemma {:induction false} StepIsShift(c: bv32)
    ensures Coefficients(BitStep(c)) == Shift(Coefficients(c))
  {
    StepIs(c);
    ShiftedWord(c);
    GeneratorWord();
    hide Generator, Plus, Half, Odd, Xor, BitStep;
    XorIsPlus(0xedb88320, Half(c));
    assert Coefficients(c)[0] == Odd(c);
  }

  lemma {:induction false} StepsAreShifts(c: bv32, n: nat)
    ensures Coefficients(BitSteps(c, n)) == Shifts(Coefficients(c), n)
  {
    hide Coefficients, Shift, BitStep;
    if n > 0 {
      StepsAreShifts(c, n - 1);
      StepIsShift(BitSteps(c, n - 1));
    }
  }

  lemma {:induction false} StateIs(c: bv32, b: Byte)
    ensures ByteStep(c, b) == BitSteps(Xor(c, b as bv32), 8)
  {
    hide BitSteps;
  }

  lemma {:induction false} StateIsFed(content: seq<Byte>, n: nat)
    requires n <= |content|
    ensures Coefficients(CrcState(content, n)) == Fed(Ones(32), Message(content, n))
  {
    AllOnes();
    hide Coefficients, BitsOf, BitSteps, ByteStep, Shift, Plus, Shifts, Xor;
    if n > 0 {
      var c, b := CrcState(content, n - 1), content[n - 1];
      StateIsFed(content, n - 1);
      StateIs(c, b);
      ByteIsPlus(c, b);
      StepsAreShifts(Xor(c, b as bv32), 8);
      FedAtOnce(Coefficients(c), BitsOf(b));
      FedBoth(Ones(32), Message(content, n - 1), BitsOf(b));
    }
  }

  lemma {:induction false} Complement(content: seq<Byte>)
    ensures Crc32(content) == Xor(0xffffffff, CrcState(content, |content|))
  {
    hide CrcState;
  }

  /** The checksum is that remainder: of the message, its first 32 coefficients complemented and 32
      zeros put behind it; and complemented again. */
  lemma {:induction false} CrcIsRemainder(content: seq<Byte>)
    ensures var message := Message(content, |content|);
            Coefficients(Crc32(content)) == Plus(Ones(32), Remainder(Plus(Ones(32), message + Zeros(32))))
  {
    AllOnes();
    Complement(content);
    hide Coefficients, Remainder, Message, CrcState, Crc32, Xor;
    StateIsFed(content, |content|);
    FedIsDivision(Ones(32), Message(content, |content|));
    XorIsPlus(0xffffffff, CrcState(content, |content|));
  }
}
