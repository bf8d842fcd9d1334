/** The CRC-32 that the frame header carries, as section 8 of RFC 1952 computes it
    (zlib.crc32), and the errors it is certain to detect. */
module Crc32 {

  type byte = n: int | 0 <= n < 0x100

  predicate Low(reg: bv32) {
    (reg & 1) == 1
  }

  /** One clock of the reflected shift register: `bit` enters, the low bit leaves. */
  function ShiftBit(reg: bv32, bit: bool): bv32 {
    if Low(reg) != bit then (reg >> 1) ^ 0xEDB8_8320 else reg >> 1
  }

  function Xor(a: bv32, b: bv32): bv32 {
    a ^ b
  }

  /** The register after the bits have entered it one by one. */
  function Clocked(reg: bv32, bits: seq<bool>): bv32
    decreases |bits|
  {
    if bits == [] then reg else Clocked(ShiftBit(reg, bits[0]), bits[1..])
  }

  predicate Odd(n: nat) {
    n % 2 == 1
  }

  function Digit(bit: bool): nat {
    if bit then 1 else 0
  }

  /** The k low binary digits of n, least significant first. */
  function Binary(n: nat, k: nat): (bits: seq<bool>)
    ensures |bits| == k
    decreases k
  {
    if k == 0 then [] else [Odd(n)] + Binary(n / 2, k - 1)
  }

  function Value(bits: seq<bool>): nat {
    if bits == [] then 0 else Digit(bits[0]) + 2 * Value(bits[1..])
  }

  function TwoTo(k: nat): nat {
    if k == 0 then 1 else 2 * TwoTo(k - 1)
  }

  lemma {:induction false} BinaryValue(n: nat, k: nat)
    requires n < TwoTo(k)
    ensures Value(Binary(n, k)) == n
    decreases k
  {
    if k > 0 {
      BinaryValue(n / 2, k - 1);
      assert Binary(n, k)[1..] == Binary(n / 2, k - 1);
    }
  }

  /** The bits of a byte in transmission order, least significant first. */
  function BitsOf(b: byte): (bits: seq<bool>)
    ensures |bits| == 8
  {
    Binary(b, 8)
  }

  function Bits(data: seq<byte>): (bits: seq<bool>)
    ensures |bits| == 8 * |data|
  {
    if data == [] then [] else BitsOf(data[0]) + Bits(data[1..])
  }

  /** The bit-serial definition of the checksum. */
  function Serial(data: seq<byte>): bv32 {
    Xor(Clocked(0xFFFF_FFFF, Bits(data)), 0xFFFF_FFFF)
  }

  lemma {:induction false} ClockedConcat(reg: bv32, a: seq<bool>, b: seq<bool>)
    ensures Clocked(reg, a + b) == Clocked(Clocked(reg, a), b)
    decreases |a|
  {
    hide ShiftBit;
    if a == [] {
      assert a + b == b;
    } else {
      ClockedConcat(ShiftBit(reg, a[0]), a[1..], b);
      assert (a + b)[1..] == a[1..] + b;
    }
  }

  // ---------------------------------------------------------------------
  // The table-driven form of RFC 1952 computes the bit-serial one
  // ---------------------------------------------------------------------

  function Zeros(n: nat): (bits: seq<bool>)
    ensures |bits| == n
  {
    if n == 0 then [] else [false] + Zeros(n - 1)
  }

  /** crc_table[n]: eight clocks of the register started at n, with no data entering. */
  function TableEntry(n: bv32): bv32 {
    Clocked(n, Zeros(8))
  }

  function Word(b0: bool, b1: bool, b2: bool, b3: bool, b4: bool, b5: bool, b6: bool, b7: bool): bv32 {
    (if b0 then 0x01 else 0) | (if b1 then 0x02 else 0) | (if b2 then 0x04 else 0) | (if b3 then 0x08 else 0)
    | (if b4 then 0x10 else 0) | (if b5 then 0x20 else 0) | (if b6 then 0x40 else 0) | (if b7 then 0x80 else 0)
  }

  function LowByte(z: bv32): bv32 {
    z & 0xFF
  }

  /** A byte as an unsigned long. */
  function Widened(b: byte): bv32 {
    var bits := BitsOf(b);
    Word(bits[0], bits[1], bits[2], bits[3], bits[4], bits[5], bits[6], bits[7])
  }

  function UpdateByte(crc: bv32, b: byte): bv32 {
    Xor(TableEntry(LowByte(Xor(crc, Widened(b)))), crc >> 8)
  }

  function UpdateCrc(crc: bv32, data: seq<byte>): bv32
    decreases |data|
  {
    if data == [] then crc else UpdateCrc(UpdateByte(crc, data[0]), data[1..])
  }

  /** zlib.crc32(data) & 0xFFFFFFFF. */
  function Crc(data: seq<byte>): bv32 {
    Xor(UpdateCrc(0xFFFF_FFFF, data), 0xFFFF_FFFF)
  }

  function Half(a: bv32): bv32 {
    a >> 1
  }

  lemma XorShifts(a: bv32, b: bv32)
    ensures (a ^ b) >> 1 == (a >> 1) ^ (b >> 1)
  {
  }

  lemma XorLow(a: bv32, b: bv32)
    ensures Low(a ^ b) == (Low(a) != Low(b))
  {
  }

  lemma XorSwaps(a: bv32, b: bv32, c: bv32)
    ensures (a ^ b) ^ c == (a ^ c) ^ b
  {
  }

  /** A data bit may enter the register ahead of time: the bits after it wait above it. */
  lemma BitEntersEarly(reg: bv32, waiting: bv32)
    ensures ShiftBit(Xor(reg, waiting), false) == Xor(ShiftBit(reg, Low(waiting)), Half(waiting))
  {
    XorLow(reg, waiting);
    XorShifts(reg, waiting);
    XorSwaps(reg >> 1, waiting >> 1, 0xEDB8_8320);
  }

  function LowBits(w: bv32, n: nat): (bits: seq<bool>)
    ensures |bits| == n
    decreases n
  {
    if n == 0 then [] else [Low(w)] + LowBits(Half(w), n - 1)
  }

  function Halved(w: bv32, n: nat): bv32
    decreases n
  {
    if n == 0 then w else Halved(Half(w), n - 1)
  }

  lemma {:induction false} BitsEnterEarly(reg: bv32, waiting: bv32, n: nat)
    ensures Clocked(Xor(reg, waiting), Zeros(n)) == Xor(Clocked(reg, LowBits(waiting, n)), Halved(waiting, n))
    decreases n
  {
    hide ShiftBit, Xor, Low, Half;
    if n > 0 {
      BitEntersEarly(reg, waiting);
      BitsEnterEarly(ShiftBit(reg, Low(waiting)), Half(waiting), n - 1);
      assert Zeros(n)[1..] == Zeros(n - 1);
      assert LowBits(waiting, n)[1..] == LowBits(Half(waiting), n - 1);
    }
  }

  lemma LowBitsNone(w: bv32)
    ensures LowBits(w, 0) == [] && Halved(w, 0) == w
  {
  }

  lemma LowBitsTwo(w: bv32, n: nat)
    ensures LowBits(w, n + 2) == [Low(w), Low(Half(w))] + LowBits(Half(Half(w)), n)
    ensures Halved(w, n + 2) == Halved(Half(Half(w)), n)
  {
    hide Half, Low;
    assert LowBits(w, n + 2) == [Low(w)] + LowBits(Half(w), n + 1);
  }

  lemma LowBitsFour(w: bv32, n: nat)
    ensures LowBits(w, n + 4)
         == [Low(w), Low(Half(w)), Low(Half(Half(w))), Low(Half(Half(Half(w))))] + LowBits(Half(Half(Half(Half(w)))), n)
    ensures Halved(w, n + 4) == Halved(Half(Half(Half(Half(w)))), n)
  {
    hide Half, Low, LowBits, Halved;
    LowBitsTwo(w, n + 2);
    LowBitsTwo(Half(Half(w)), n);
  }

  lemma LowBitsEight(w: bv32, h: bv32)
    requires h == Half(Half(Half(Half(w))))
    ensures LowBits(w, 8) == [Low(w), Low(Half(w)), Low(Half(Half(w))), Low(Half(Half(Half(w)))),
                              Low(h), Low(Half(h)), Low(Half(Half(h))), Low(Half(Half(Half(h))))]
    ensures Halved(w, 8) == Half(Half(Half(Half(h))))
  {
    hide Half, Low, LowBits, Halved;
    LowBitsFour(w, 4);
    LowBitsFour(h, 0);
    LowBitsNone(Half(Half(Half(Half(h)))));
    assert LowBits(w, 8) == LowBits(w, 4 + 4);
    assert LowBits(h, 4) == LowBits(h, 0 + 4);
  }

  lemma LowNibble(b0: bool, b1: bool, b2: bool, b3: bool, b4: bool, b5: bool, b6: bool, b7: bool)
    ensures var w := Word(b0, b1, b2, b3, b4, b5, b6, b7);
            && Low(w) == b0 && Low(Half(w)) == b1 && Low(Half(Half(w))) == b2 && Low(Half(Half(Half(w)))) == b3
  {
  }

  lemma HighNibble(b0: bool, b1: bool, b2: bool, b3: bool, b4: bool, b5: bool, b6: bool, b7: bool)
    ensures var h := Half(Half(Half(Half(Word(b0, b1, b2, b3, b4, b5, b6, b7)))));
            && Low(h) == b4 && Low(Half(h)) == b5 && Low(Half(Half(h))) == b6 && Low(Half(Half(Half(h)))) == b7
            && Half(Half(Half(Half(h)))) == 0
  {
  }

  lemma WordBits(b0: bool, b1: bool, b2: bool, b3: bool, b4: bool, b5: bool, b6: bool, b7: bool)
    ensures var w := Word(b0, b1, b2, b3, b4, b5, b6, b7);
            LowBits(w, 8) == [b0, b1, b2, b3, b4, b5, b6, b7] && Halved(w, 8) == 0
  {
    hide Half, Low, Word, LowBits, Halved;
    var w := Word(b0, b1, b2, b3, b4, b5, b6, b7);
    LowBitsEight(w, Half(Half(Half(Half(w)))));
    LowNibble(b0, b1, b2, b3, b4, b5, b6, b7);
    HighNibble(b0, b1, b2, b3, b4, b5, b6, b7);
  }

  lemma WidenedIsWord(b: byte, s: seq<bool>)
    requires s == BitsOf(b)
    ensures Widened(b) == Word(s[0], s[1], s[2], s[3], s[4], s[5], s[6], s[7])
  {
    hide Word, BitsOf;
  }

  lemma ByteWidened(b: byte)
    ensures LowBits(Widened(b), 8) == BitsOf(b)
    ensures Halved(Widened(b), 8) == 0
  {
    var s := BitsOf(b);
    hide *;
    assert s == [s[0], s[1], s[2], s[3], s[4], s[5], s[6], s[7]];
    WordBits(s[0], s[1], s[2], s[3], s[4], s[5], s[6], s[7]);
    WidenedIsWord(b, s);
  }

  function HighPart(z: bv32): bv32 {
    z & 0xFFFF_FF00
  }

  lemma HighPartBits(z: bv32)
    ensures var w := HighPart(z); var h := Half(Half(Half(Half(w))));
            && !Low(w) && !Low(Half(w)) && !Low(Half(Half(w))) && !Low(Half(Half(Half(w))))
            && !Low(h) && !Low(Half(h)) && !Low(Half(Half(h))) && !Low(Half(Half(Half(h))))
            && Half(Half(Half(Half(h)))) == z >> 8
  {
  }

  lemma HighBytes(z: bv32)
    ensures LowBits(HighPart(z), 8) == Zeros(8)
    ensures Halved(HighPart(z), 8) == z >> 8
  {
    hide Half, Low, HighPart, LowBits, Halved;
    var w := HighPart(z);
    HighPartBits(z);
    LowBitsEight(w, Half(Half(Half(Half(w)))));
    assert Zeros(4) == [false, false, false, false];
    assert Zeros(8) == [false, false, false, false] + Zeros(4);
  }

  lemma PartsMakeWhole(z: bv32)
    ensures Xor(LowByte(z), HighPart(z)) == z
  {
  }

  lemma WidenedIsLow(crc: bv32, b: byte)
    ensures Xor(crc, Widened(b)) >> 8 == crc >> 8
  {
    hide BitsOf;
  }

  lemma XorZero(a: bv32)
    ensures Xor(a, 0) == a
  {
  }

  /** One table lookup does the work of eight clocks. */
  lemma TableLookup(crc: bv32, b: byte)
    ensures UpdateByte(crc, b) == Clocked(crc, BitsOf(b))
  {
    hide Xor, ShiftBit, Clocked, Low, Half, LowBits, HighPart, LowByte, Widened;
    var z := Xor(crc, Widened(b));
    HighBytes(z);
    BitsEnterEarly(LowByte(z), HighPart(z), 8);
    PartsMakeWhole(z);
    assert TableEntry(z) == Xor(TableEntry(LowByte(z)), z >> 8);
    ByteWidened(b);
    BitsEnterEarly(crc, Widened(b), 8);
    WidenedIsLow(crc, b);
    XorZero(Clocked(crc, BitsOf(b)));
  }

  lemma {:induction false} UpdateIsSerial(crc: bv32, data: seq<byte>)
    ensures UpdateCrc(crc, data) == Clocked(crc, Bits(data))
    decreases |data|
  {
    hide UpdateByte, BitsOf, ShiftBit;
    if data != [] {
      TableLookup(crc, data[0]);
      ClockedConcat(crc, BitsOf(data[0]), Bits(data[1..]));
      UpdateIsSerial(UpdateByte(crc, data[0]), data[1..]);
    }
  }

  /** The table-driven checksum is the bit-serial one, on every input. */
  lemma TableFormIsSerial(data: seq<byte>)
    ensures Crc(data) == Serial(data)
  {
    hide UpdateCrc, Clocked, Xor;
    UpdateIsSerial(0xFFFF_FFFF, data);
  }

  // ---------------------------------------------------------------------
  // The checksum is a remainder of polynomials over GF(2)
  // ---------------------------------------------------------------------

  /** The exponents of the generator polynomial (ISO 3309, section 8.1.1.6.2 of ITU-T V.42). */
  predicate InGenerator(exponent: int) {
    exponent in [32, 26, 23, 22, 16, 12, 11, 10, 8, 7, 5, 4, 2, 1, 0]
  }

  /** Polynomials are sequences of coefficients, the highest power first. */
  function Generator(): (g: seq<bool>)
    ensures |g| == 33
  {
    seq(33, i requires 0 <= i < 33 => InGenerator(32 - i))
  }

  function Plus(a: seq<bool>, b: seq<bool>): (c: seq<bool>)
    requires |a| == |b|
    ensures |c| == |a|
  {
    seq(|a|, i requires 0 <= i < |a| => a[i] != b[i])
  }

  function Complement(a: seq<bool>): (c: seq<bool>)
    ensures |c| == |a|
  {
    seq(|a|, i requires 0 <= i < |a| => !a[i])
  }

  function Scaled(factor: bool, a: seq<bool>): (c: seq<bool>)
    ensures |c| == |a|
  {
    if factor then a else Zeros(|a|)
  }

  /** The product of q and the generator. */
  function TimesGenerator(q: seq<bool>): (p: seq<bool>)
    ensures |p| == |q| + 32
  {
    if q == [] then Zeros(32)
    else Plus(Scaled(q[0], Generator() + Zeros(|q| - 1)), [false] + TimesGenerator(q[1..]))
  }

  /** The message polynomial: the bits of the data as transmitted, times x^32, with the 32 highest coefficients
      complemented. */
  function Message(data: seq<byte>): (p: seq<bool>)
    ensures |p| == 8 * |data| + 32
  {
    var shifted := Bits(data) + Zeros(32);
    Complement(shifted[..32]) + shifted[32..]
  }

  /** r is what the division of p by the generator leaves. */
  ghost predicate IsRemainder(r: seq<bool>, p: seq<bool>) {
    && |r| == 32 && |p| >= 32
    && exists q :: |q| == |p| - 32 && p == Plus(TimesGenerator(q), Zeros(|q|) + r)
  }

  /** The lowest bit of a register is the coefficient of x^31. */
  function Coefficients(reg: bv32): (p: seq<bool>)
    ensures |p| == 32
  {
    LowBits(reg, 32)
  }

  lemma {:induction false} ZerosAt(n: nat, i: nat)
    requires i < n
    ensures !Zeros(n)[i]
  {
    if i > 0 {
      ZerosAt(n - 1, i - 1);
    }
  }

  lemma {:induction false} LowBitsAt(w: bv32, n: nat, i: nat)
    requires i < n
    ensures LowBits(w, n)[i] == Low(Halved(w, i))
    decreases n
  {
    hide Low, Half;
    if i > 0 {
      LowBitsAt(Half(w), n - 1, i - 1);
    }
  }

  lemma {:induction false} HalvedTwice(w: bv32, m: nat, n: nat)
    ensures Halved(w, m + n) == Halved(Halved(w, m), n)
    decreases m
  {
    hide Half;
    if m > 0 {
      HalvedTwice(Half(w), m - 1, n);
    }
  }

  function DropByte(w: bv32): bv32 {
    w >> 8
  }

  lemma EightHalves(w: bv32)
    ensures Half(Half(Half(Half(Half(Half(Half(Half(w)))))))) == DropByte(w)
  {
  }

  lemma HalvedByByte(w: bv32)
    ensures Halved(w, 8) == DropByte(w)
  {
    hide Half, Low, Halved, LowBits, DropByte;
    LowBitsEight(w, Half(Half(Half(Half(w)))));
    EightHalves(w);
  }

  lemma FourBytes(w: bv32)
    ensures !Low(DropByte(DropByte(DropByte(DropByte(w)))))
  {
  }

  lemma NothingAbove(w: bv32)
    ensures !Low(Halved(w, 32))
  {
    hide Half, Halved, DropByte, Low;
    var b := DropByte(w);
    var c := DropByte(b);
    HalvedTwice(w, 8, 24);
    HalvedTwice(b, 8, 16);
    HalvedTwice(c, 8, 8);
    HalvedByByte(w);
    HalvedByByte(b);
    HalvedByByte(c);
    HalvedByByte(DropByte(c));
    FourBytes(w);
  }

  /** Shifting the register multiplies by x, up to the coefficient that leaves. */
  lemma HalfShifts(w: bv32)
    ensures Coefficients(Half(w)) == Coefficients(w)[1..] + [false]
  {
    hide Half, Low, LowBits;
    var p, r := Coefficients(Half(w)), Coefficients(w)[1..] + [false];
    forall i | 0 <= i < 32
      ensures p[i] == r[i]
    {
      LowBitsAt(Half(w), 32, i);
      if i < 31 {
        LowBitsAt(w, 32, i + 1);
      } else {
        NothingAbove(w);
      }
    }
  }

  lemma LowOfXor(a: bv32, b: bv32)
    ensures Low(Xor(a, b)) == (Low(a) != Low(b))
  {
    hide Low;
    XorLow(a, b);
  }

  lemma HalfOfXor(a: bv32, b: bv32)
    ensures Half(Xor(a, b)) == Xor(Half(a), Half(b))
  {
    XorShifts(a, b);
  }

  lemma {:induction false} XorHalved(a: bv32, b: bv32, n: nat)
    ensures Halved(Xor(a, b), n) == Xor(Halved(a, n), Halved(b, n))
    decreases n
  {
    hide Xor, Half;
    if n > 0 {
      HalfOfXor(a, b);
      XorHalved(Half(a), Half(b), n - 1);
    }
  }

  lemma XorAdds(a: bv32, b: bv32)
    ensures Coefficients(Xor(a, b)) == Plus(Coefficients(a), Coefficients(b))
  {
    hide Xor, Low, Half, Halved, LowBits;
    forall i | 0 <= i < 32
      ensures Coefficients(Xor(a, b))[i] == Plus(Coefficients(a), Coefficients(b))[i]
    {
      LowBitsAt(Xor(a, b), 32, i);
      LowBitsAt(a, 32, i);
      LowBitsAt(b, 32, i);
      XorHalved(a, b, i);
      LowOfXor(Halved(a, i), Halved(b, i));
    }
  }

  /** Four more bits of a register in hexadecimal. */
  lemma NextNibble(w: bv32, rest: bv32, n: nat, bits: seq<bool>)
    requires rest == Half(Half(Half(Half(w)))) && LowBits(rest, n) == bits
    ensures LowBits(w, n + 4) == [Low(w), Low(Half(w)), Low(Half(Half(w))), Low(Half(Half(Half(w))))] + bits
  {
    hide Half, Low, LowBits;
    LowBitsFour(w, n);
  }

  predicate Nibble(w: bv32, rest: bv32, b0: bool, b1: bool, b2: bool, b3: bool) {
    && rest == Half(Half(Half(Half(w))))
    && Low(w) == b0 && Low(Half(w)) == b1 && Low(Half(Half(w))) == b2 && Low(Half(Half(Half(w)))) == b3
  }

  lemma HighNibbles()
    ensures Nibble(0xE, 0, false, true, true, true)
    ensures Nibble(0xED, 0xE, true, false, true, true)
    ensures Nibble(0xEDB, 0xED, true, true, false, true)
    ensures Nibble(0xEDB8, 0xEDB, false, false, false, true)
  {
  }

  lemma LowNibbles()
    ensures Nibble(0xE_DB88, 0xEDB8, false, false, false, true)
    ensures Nibble(0xED_B883, 0xE_DB88, true, true, false, false)
    ensures Nibble(0xEDB_8832, 0xED_B883, false, true, false, false)
    ensures Nibble(0xEDB8_8320, 0xEDB_8832, false, false, false, false)
  {
  }

  lemma AddNibble(w: bv32, rest: bv32, b0: bool, b1: bool, b2: bool, b3: bool, n: nat, bits: seq<bool>)
    requires Nibble(w, rest, b0, b1, b2, b3) && LowBits(rest, n) == bits
    ensures LowBits(w, n + 4) == [b0, b1, b2, b3] + bits
  {
    hide Half, Low, LowBits;
    NextNibble(w, rest, n, bits);
  }

  function Word16(): seq<bool> {
    [false, false, false, true] + ([true, true, false, true] + ([true, false, true, true] + [false, true, true, true]))
  }

  lemma UpperHalf()
    ensures LowBits(0xEDB8, 16) == Word16()
  {
    hide Half, Low, LowBits, Nibble;
    HighNibbles();
    LowBitsNone(0);
    AddNibble(0xE, 0, false, true, true, true, 0, []);
    AddNibble(0xED, 0xE, true, false, true, true, 4, LowBits(0xE, 4));
    AddNibble(0xEDB, 0xED, true, true, false, true, 8, LowBits(0xED, 8));
    AddNibble(0xEDB8, 0xEDB, false, false, false, true, 12, LowBits(0xEDB, 12));
  }

  /** The constant that the register is fed back with is the generator without its leading coefficient. */
  lemma PolynomialIsGenerator()
    ensures Coefficients(0xEDB8_8320) == Generator()[1..]
  {
    hide Half, Low, LowBits, Nibble;
    UpperHalf();
    LowNibbles();
    AddNibble(0xE_DB88, 0xEDB8, false, false, false, true, 16, LowBits(0xEDB8, 16));
    AddNibble(0xED_B883, 0xE_DB88, true, true, false, false, 20, LowBits(0xE_DB88, 20));
    AddNibble(0xEDB_8832, 0xED_B883, false, true, false, false, 24, LowBits(0xED_B883, 24));
    AddNibble(0xEDB8_8320, 0xEDB_8832, false, false, false, false, 28, LowBits(0xEDB_8832, 28));
  }

  /** What is left to divide: the register, times the powers that the bits to come stand for, and these times x^32. */
  function Dividend(reg: bv32, bits: seq<bool>): (p: seq<bool>)
    ensures |p| == |bits| + 32
  {
    Plus(Coefficients(reg) + Zeros(|bits|), bits + Zeros(32))
  }

  function Quotient(reg: bv32, bits: seq<bool>): (q: seq<bool>)
    ensures |q| == |bits|
    decreases |bits|
  {
    if bits == [] then [] else [Low(reg) != bits[0]] + Quotient(ShiftBit(reg, bits[0]), bits[1..])
  }

  lemma PlusZeros(a: seq<bool>)
    ensures Plus(a, Zeros(|a|)) == a
  {
    forall i | 0 <= i < |a|
      ensures Plus(a, Zeros(|a|))[i] == a[i]
    {
      ZerosAt(|a|, i);
    }
  }

  lemma ShiftedCoefficients(reg: bv32, bit: bool)
    ensures Coefficients(ShiftBit(reg, bit))
         == Plus(Coefficients(reg)[1..] + [false], Scaled(Low(reg) != bit, Generator()[1..]))
  {
    hide Coefficients, Low, Generator, Plus;
    HalfShifts(reg);
    if Low(reg) != bit {
      FedBack(reg, bit);
      XorAdds(Half(reg), 0xEDB8_8320);
      PolynomialIsGenerator();
    } else {
      PlusZeros(Coefficients(reg)[1..] + [false]);
    }
  }

  lemma FedBack(reg: bv32, bit: bool)
    requires Low(reg) != bit
    ensures ShiftBit(reg, bit) == Xor(Half(reg), 0xEDB8_8320)
  {
  }

  lemma ZerosFrom(s: seq<bool>, n: nat, i: nat)
    requires i < |s| + n
    ensures (s + Zeros(n))[i] == (i < |s| && s[i])
  {
    if i >= |s| {
      ZerosAt(n, i - |s|);
    }
  }

  lemma GeneratorLeads()
    ensures Generator()[0]
  {
  }

  lemma DividendAt(reg: bv32, bits: seq<bool>, k: nat)
    requires k < |bits| + 32
    ensures Dividend(reg, bits)[k] == ((k < 32 && Coefficients(reg)[k]) != (k < |bits| && bits[k]))
  {
    hide Coefficients, Zeros;
    ZerosFrom(Coefficients(reg), |bits|, k);
    ZerosFrom(bits, 32, k);
  }

  lemma SubtrahendAt(lead: bool, n: nat, k: nat)
    requires k < n + 33
    ensures Scaled(lead, Generator() + Zeros(n))[k] == (lead && k <= 32 && Generator()[k])
  {
    hide Generator, Zeros, Scaled;
    ScaledAt(lead, Generator() + Zeros(n), k);
    ZerosFrom(Generator(), n, k);
  }

  lemma ShiftedAt(reg: bv32, bit: bool, k: nat)
    requires 0 < k <= 32
    ensures Coefficients(ShiftBit(reg, bit))[k - 1]
         == ((k < 32 && Coefficients(reg)[k]) != (Low(reg) != bit && Generator()[k]))
  {
    hide Coefficients, ShiftBit, Low, Generator, Scaled;
    ShiftedCoefficients(reg, bit);
    ScaledAt(Low(reg) != bit, Generator()[1..], k - 1);
  }

  lemma PlusAt(a: seq<bool>, x: seq<bool>, k: nat)
    requires |a| == |x| + 1 && k < |a|
    ensures Plus(a, [false] + x)[k] == (a[k] != (k > 0 && x[k - 1]))
  {
  }

  lemma LeadsAt(reg: bv32, bits: seq<bool>)
    requires bits != []
    ensures Dividend(reg, bits)[0] == (Low(reg) != bits[0])
  {
    hide Coefficients, Low, Dividend;
    DividendAt(reg, bits, 0);
    FirstCoefficient(reg);
  }

  /** A coefficient below the leading one. */
  lemma FollowsAt(reg: bv32, bits: seq<bool>, lead: bool, next: bv32, rest: seq<bool>, k: nat)
    requires bits != [] && lead == (Low(reg) != bits[0]) && next == ShiftBit(reg, bits[0]) && rest == bits[1..]
    requires 0 < k < |bits| + 32
    ensures Dividend(reg, bits)[k] == ((lead && k <= 32 && Generator()[k]) != Dividend(next, rest)[k - 1])
  {
    hide Generator, ShiftBit, Coefficients, Low, Dividend;
    DividendAt(reg, bits, k);
    DividendAt(next, rest, k - 1);
    if k <= 32 {
      ShiftedAt(reg, bits[0], k);
    }
  }

  /** One clock is one step of the division. */
  lemma ClockDivides(reg: bv32, bits: seq<bool>, lead: bool, next: bv32, rest: seq<bool>)
    requires bits != [] && lead == (Low(reg) != bits[0]) && next == ShiftBit(reg, bits[0]) && rest == bits[1..]
    ensures Dividend(reg, bits) == Plus(Scaled(lead, Generator() + Zeros(|rest|)), [false] + Dividend(next, rest))
  {
    hide Generator, ShiftBit, Low, Zeros, Scaled, Dividend, Plus;
    var subtrahend, quotient := Scaled(lead, Generator() + Zeros(|rest|)), Dividend(next, rest);
    forall k | 0 <= k < |bits| + 32
      ensures Dividend(reg, bits)[k] == Plus(subtrahend, [false] + quotient)[k]
    {
      PlusAt(subtrahend, quotient, k);
      SubtrahendAt(lead, |rest|, k);
      if k == 0 {
        LeadsAt(reg, bits);
        GeneratorLeads();
      } else {
        FollowsAt(reg, bits, lead, next, rest, k);
      }
    }
  }

  lemma FirstCoefficient(reg: bv32)
    ensures Coefficients(reg)[0] == Low(reg)
  {
  }

  lemma ScaledAt(factor: bool, a: seq<bool>, k: nat)
    requires k < |a|
    ensures Scaled(factor, a)[k] == (factor && a[k])
  {
    if !factor {
      ZerosAt(|a|, k);
    }
  }

  lemma Regrouped(a: seq<bool>, b: seq<bool>, c: seq<bool>)
    requires |a| == |b| + 1 && |b| == |c|
    ensures Plus(a, [false] + Plus(b, c)) == Plus(Plus(a, [false] + b), [false] + c)
  {
  }

  lemma OneMoreZero(n: nat, r: seq<bool>)
    ensures [false] + (Zeros(n) + r) == Zeros(n + 1) + r
  {
  }

  lemma {:induction false} RegisterDivides(reg: bv32, bits: seq<bool>)
    ensures Dividend(reg, bits)
         == Plus(TimesGenerator(Quotient(reg, bits)), Zeros(|bits|) + Coefficients(Clocked(reg, bits)))
    decreases |bits|
  {
    hide ShiftBit, Low, Generator, LowBits, Plus, Scaled, Zeros;
    if bits == [] {
      NothingToDivide(reg);
    } else {
      var next := ShiftBit(reg, bits[0]);
      var q := Quotient(next, bits[1..]);
      var r := Coefficients(Clocked(reg, bits));
      RegisterDivides(next, bits[1..]);
      ClockDivides(reg, bits, Low(reg) != bits[0], next, bits[1..]);
      DivisionStep(Low(reg) != bits[0], q, r);
    }
  }

  lemma NothingToDivide(reg: bv32)
    ensures Dividend(reg, []) == Plus(TimesGenerator([]), Zeros(0) + Coefficients(reg))
  {
    hide LowBits;
    var r := Coefficients(reg);
    assert r + Zeros(0) == r && [] + Zeros(32) == Zeros(32) && Zeros(0) + r == r;
    PlusSwaps(r, Zeros(32));
  }

  lemma PlusSwaps(a: seq<bool>, b: seq<bool>)
    requires |a| == |b|
    ensures Plus(a, b) == Plus(b, a)
  {
  }

  lemma TimesOneMore(b: bool, q: seq<bool>)
    ensures TimesGenerator([b] + q) == Plus(Scaled(b, Generator() + Zeros(|q|)), [false] + TimesGenerator(q))
  {
    hide Generator, Plus, Scaled, Zeros;
    assert ([b] + q)[1..] == q;
  }

  lemma DivisionStep(b: bool, q: seq<bool>, r: seq<bool>)
    requires |r| == 32
    ensures Plus(TimesGenerator([b] + q), Zeros(|q| + 1) + r)
         == Plus(Scaled(b, Generator() + Zeros(|q|)), [false] + Plus(TimesGenerator(q), Zeros(|q|) + r))
  {
    hide Generator, Plus, Scaled, Zeros;
    TimesOneMore(b, q);
    Regrouped(Scaled(b, Generator() + Zeros(|q|)), TimesGenerator(q), Zeros(|q|) + r);
    OneMoreZero(|q|, r);
  }

  lemma LeadingCoefficient(b: bool, x: seq<bool>, n: nat)
    requires |x| == n + 32
    ensures Plus(Scaled(b, Generator() + Zeros(n)), [false] + x)[0] == b
  {
    GeneratorLeads();
    ScaledAt(b, Generator() + Zeros(n), 0);
  }

  lemma PlusCancels(a: seq<bool>, b: seq<bool>, c: seq<bool>)
    requires |a| == |b| + 1 && |b| == |c|
    requires Plus(a, [false] + b) == Plus(a, [false] + c)
    ensures b == c
  {
    forall i | 0 <= i < |b|
      ensures b[i] == c[i]
    {
      assert Plus(a, [false] + b)[i + 1] == (a[i + 1] != b[i]);
      assert Plus(a, [false] + c)[i + 1] == (a[i + 1] != c[i]);
    }
  }

  /** The division leaves one remainder only. */
  lemma {:induction false} RemainderUnique(q: seq<bool>, r: seq<bool>, v: seq<bool>, t: seq<bool>)
    requires |q| == |v| && |r| == |t| == 32
    requires Plus(TimesGenerator(q), Zeros(|q|) + r) == Plus(TimesGenerator(v), Zeros(|q|) + t)
    ensures r == t
    decreases |q|
  {
    hide Generator, Plus, Scaled, Zeros, TimesGenerator;
    if q == [] {
      RemainderAlone(r);
      RemainderAlone(t);
      assert v == [];
    } else {
      var n := |q| - 1;
      var x, y := Plus(TimesGenerator(q[1..]), Zeros(n) + r), Plus(TimesGenerator(v[1..]), Zeros(n) + t);
      assert q == [q[0]] + q[1..] && v == [v[0]] + v[1..];
      DivisionStep(q[0], q[1..], r);
      DivisionStep(v[0], v[1..], t);
      LeadingCoefficient(q[0], x, n);
      LeadingCoefficient(v[0], y, n);
      PlusCancels(Scaled(q[0], Generator() + Zeros(n)), x, y);
      RemainderUnique(q[1..], r, v[1..], t);
    }
  }

  lemma RemainderAlone(r: seq<bool>)
    requires |r| == 32
    ensures Plus(TimesGenerator([]), Zeros(0) + r) == r
  {
    assert Zeros(0) + r == r;
    PlusSwaps(Zeros(32), r);
    PlusZeros(r);
  }

  lemma OnesNibbles()
    ensures Nibble(0xF, 0, true, true, true, true) && Nibble(0xFF, 0xF, true, true, true, true)
    ensures Nibble(0xFFF, 0xFF, true, true, true, true) && Nibble(0xFFFF, 0xFFF, true, true, true, true)
    ensures Nibble(0xF_FFFF, 0xFFFF, true, true, true, true) && Nibble(0xFF_FFFF, 0xF_FFFF, true, true, true, true)
    ensures Nibble(0xFFF_FFFF, 0xFF_FFFF, true, true, true, true)
    ensures Nibble(0xFFFF_FFFF, 0xFFF_FFFF, true, true, true, true)
  {
  }

  function Ones(n: nat): (p: seq<bool>)
    ensures |p| == n && forall i :: 0 <= i < n ==> p[i]
  {
    seq(n, i => true)
  }

  lemma OnesNibble(w: bv32, rest: bv32, n: nat)
    requires Nibble(w, rest, true, true, true, true) && LowBits(rest, n) == Ones(n)
    ensures LowBits(w, n + 4) == Ones(n + 4)
  {
    hide Nibble, LowBits;
    AddNibble(w, rest, true, true, true, true, n, Ones(n));
  }

  lemma AllOnes()
    ensures Coefficients(0xFFFF_FFFF) == Ones(32)
  {
    hide Nibble, LowBits, Half, Low, Ones;
    OnesNibbles();
    LowBitsNone(0);
    assert LowBits(0, 0) == Ones(0);
    OnesNibble(0xF, 0, 0);
    OnesNibble(0xFF, 0xF, 4);
    OnesNibble(0xFFF, 0xFF, 8);
    OnesNibble(0xFFFF, 0xFFF, 12);
    OnesNibble(0xF_FFFF, 0xFFFF, 16);
    OnesNibble(0xFF_FFFF, 0xF_FFFF, 20);
    OnesNibble(0xFFF_FFFF, 0xFF_FFFF, 24);
    OnesNibble(0xFFFF_FFFF, 0xFFF_FFFF, 28);
  }

  lemma PlusOnes(a: seq<bool>)
    ensures Plus(a, Ones(|a|)) == Complement(a)
  {
  }

  lemma ComplementTwice(a: seq<bool>)
    ensures Complement(Complement(a)) == a
  {
  }

  /** The initial register complements the first 32 bits. */
  lemma InitialRegister(data: seq<byte>)
    ensures Message(data) == Dividend(0xFFFF_FFFF, Bits(data))
  {
    hide LowBits, Bits;
    AllOnes();
    var bits := Bits(data);
    forall k | 0 <= k < |bits| + 32
      ensures Message(data)[k] == Dividend(0xFFFF_FFFF, bits)[k]
    {
      ZerosFrom(Ones(32), |bits|, k);
    }
  }

  lemma ChecksumComplements(data: seq<byte>)
    ensures Coefficients(Clocked(0xFFFF_FFFF, Bits(data))) == Complement(Coefficients(Crc(data)))
  {
    hide Clocked, Xor, LowBits, Plus, Complement, Ones, Crc;
    TableFormIsSerial(data);
    var r := Coefficients(Clocked(0xFFFF_FFFF, Bits(data)));
    XorAdds(Clocked(0xFFFF_FFFF, Bits(data)), 0xFFFF_FFFF);
    AllOnes();
    PlusOnes(r);
    ComplementTwice(r);
  }

  /** The checksum is the complement of the remainder of the message polynomial, on every input. */
  lemma ChecksumIsRemainder(data: seq<byte>, r: seq<bool>)
    ensures IsRemainder(r, Message(data)) <==> r == Complement(Coefficients(Crc(data)))
  {
    hide Clocked, LowBits, Plus, Complement, Crc, Message, Bits, TimesGenerator, Quotient, Dividend, Zeros;
    var bits := Bits(data);
    var q, left := Quotient(0xFFFF_FFFF, bits), Coefficients(Clocked(0xFFFF_FFFF, bits));
    InitialRegister(data);
    RegisterDivides(0xFFFF_FFFF, bits);
    ChecksumComplements(data);
    assert IsRemainder(left, Message(data));
    if IsRemainder(r, Message(data)) {
      var v :| |v| == |Message(data)| - 32 && Message(data) == Plus(TimesGenerator(v), Zeros(|v|) + r);
      RemainderUnique(q, left, v, r);
    }
  }

  // ---------------------------------------------------------------------
  // The check value of the standard
  // ---------------------------------------------------------------------

  function FourClocks(reg: bv32, b0: bool, b1: bool, b2: bool, b3: bool): bv32 {
    ShiftBit(ShiftBit(ShiftBit(ShiftBit(reg, b0), b1), b2), b3)
  }

  lemma OneClock(reg: bv32, b: bool, rest: seq<bool>)
    ensures Clocked(reg, [b] + rest) == Clocked(ShiftBit(reg, b), rest)
  {
    hide ShiftBit;
    assert ([b] + rest)[1..] == rest;
  }

  lemma ClockedNibble(reg: bv32, b0: bool, b1: bool, b2: bool, b3: bool, rest: seq<bool>)
    ensures Clocked(reg, [b0, b1, b2, b3] + rest) == Clocked(FourClocks(reg, b0, b1, b2, b3), rest)
  {
    hide ShiftBit, Clocked;
    OneClock(reg, b0, [b1] + ([b2] + ([b3] + rest)));
    OneClock(ShiftBit(reg, b0), b1, [b2] + ([b3] + rest));
    OneClock(ShiftBit(ShiftBit(reg, b0), b1), b2, [b3] + rest);
    OneClock(ShiftBit(ShiftBit(ShiftBit(reg, b0), b1), b2), b3, rest);
    assert [b0, b1, b2, b3] + rest == [b0] + ([b1] + ([b2] + ([b3] + rest)));
  }

  /** One byte of digits in ASCII. */
  lemma DigitClocked(reg: bv32, middle: bv32, next: bv32, b: byte, b0: bool, b1: bool, b2: bool, b3: bool)
    requires BitsOf(b) == [b0, b1, b2, b3] + [true, true, false, false]
    requires middle == FourClocks(reg, b0, b1, b2, b3) && next == FourClocks(middle, true, true, false, false)
    ensures UpdateByte(reg, b) == next
  {
    hide UpdateByte, FourClocks, Clocked, BitsOf;
    TableLookup(reg, b);
    ClockedNibble(reg, b0, b1, b2, b3, [true, true, false, false]);
    ClockedNibble(middle, true, true, false, false, []);
    assert [true, true, false, false] + [] == [true, true, false, false];
    NoClock(next);
  }

  lemma NoClock(reg: bv32)
    ensures Clocked(reg, []) == reg
  {
  }

  lemma BinaryOneMore(n: nat, k: nat)
    ensures Binary(n, k + 1) == [Odd(n)] + Binary(n / 2, k)
  {
  }

  lemma BinaryNibble(n: nat, k: nat)
    ensures Binary(n, k + 4) == [Odd(n), Odd(n / 2), Odd(n / 4), Odd(n / 8)] + Binary(n / 16, k)
  {
    hide Binary, Odd;
    BinaryOneMore(n, k + 3);
    BinaryOneMore(n / 2, k + 2);
    BinaryOneMore(n / 4, k + 1);
    BinaryOneMore(n / 8, k);
    assert n / 2 / 2 == n / 4 && n / 4 / 2 == n / 8 && n / 8 / 2 == n / 16;
  }

  lemma DigitBits(d: nat, b0: bool, b1: bool, b2: bool, b3: bool)
    requires d <= 9
    requires d == Digit(b0) + 2 * Digit(b1) + 4 * Digit(b2) + 8 * Digit(b3)
    ensures BitsOf(d + 0x30) == [b0, b1, b2, b3] + [true, true, false, false]
  {
    hide Binary;
    var n := d + 0x30;
    BinaryNibble(n, 4);
    BinaryNibble(3, 0);
    assert n / 16 == 3 && Binary(3 / 16, 0) == [];
    assert Odd(n) == b0 && Odd(n / 2) == b1 && Odd(n / 4) == b2 && Odd(n / 8) == b3;
  }

  lemma Digit1()
    ensures UpdateByte(0xFFFF_FFFF, 1 + 0x30) == 0x7C23_1048
  {
    hide UpdateByte, BitsOf, Clocked;
    DigitBits(1, true, false, false, false);
    DigitClocked(0xFFFF_FFFF, 0xAFF5_1D87, 0x7C23_1048, 1 + 0x30, true, false, false, false);
  }

  lemma Digit2()
    ensures UpdateByte(0x7C23_1048, 2 + 0x30) == 0xB0AC_BB32
  {
    hide UpdateByte, BitsOf, Clocked;
    DigitBits(2, false, true, false, false);
    DigitClocked(0x7C23_1048, 0xD114_92EC, 0xB0AC_BB32, 2 + 0x30, false, true, false, false);
  }

  lemma Digit3()
    ensures UpdateByte(0xB0AC_BB32, 3 + 0x30) == 0x77B7_9C2D
  {
    hide UpdateByte, BitsOf, Clocked;
    DigitBits(3, true, true, false, false);
    DigitClocked(0xB0AC_BB32, 0x16BD_DBD7, 0x77B7_9C2D, 3 + 0x30, true, true, false, false);
  }

  lemma Digit4()
    ensures UpdateByte(0x77B7_9C2D, 4 + 0x30) == 0x641C_1F5C
  {
    hide UpdateByte, BitsOf, Clocked;
    DigitBits(4, false, false, true, false);
    DigitClocked(0x77B7_9C2D, 0xF774_EA86, 0x641C_1F5C, 4 + 0x30, false, false, true, false);
  }

  lemma Digit5()
    ensures UpdateByte(0x641C_1F5C, 5 + 0x30) == 0x340A_C5E3
  {
    hide UpdateByte, BitsOf, Clocked;
    DigitBits(5, true, false, true, false);
    DigitClocked(0x641C_1F5C, 0xF64E_52B1, 0x340A_C5E3, 5 + 0x30, true, false, true, false);
  }

  lemma Digit6()
    ensures UpdateByte(0x340A_C5E3, 6 + 0x30) == 0xF68D_2C9E
  {
    hide UpdateByte, BitsOf, Clocked;
    DigitBits(6, false, true, true, false);
    DigitClocked(0x340A_C5E3, 0x682B_FDAA, 0xF68D_2C9E, 6 + 0x30, false, true, true, false);
  }

  lemma Digit7()
    ensures UpdateByte(0xF68D_2C9E, 7 + 0x30) == 0xAFFC_9660
  {
    hide UpdateByte, BitsOf, Clocked;
    DigitBits(7, true, true, true, false);
    DigitClocked(0xF68D_2C9E, 0xFF67_418D, 0xAFFC_9660, 7 + 0x30, true, true, true, false);
  }

  lemma Digit8()
    ensures UpdateByte(0xAFFC_9660, 8 + 0x30) == 0x651F_2550
  {
    hide UpdateByte, BitsOf, Clocked;
    DigitBits(8, false, false, false, true);
    DigitClocked(0xAFFC_9660, 0xE747_4A46, 0x651F_2550, 8 + 0x30, false, false, false, true);
  }

  lemma Digit9()
    ensures UpdateByte(0x651F_2550, 9 + 0x30) == 0x340B_C6D9
  {
    hide UpdateByte, BitsOf, Clocked;
    DigitBits(9, true, false, false, true);
    DigitClocked(0x651F_2550, 0xF65E_6111, 0x340B_C6D9, 9 + 0x30, true, false, false, true);
  }

  lemma UpdateOneMore(crc: bv32, b: byte, rest: seq<byte>)
    ensures UpdateCrc(crc, [b] + rest) == UpdateCrc(UpdateByte(crc, b), rest)
  {
    hide UpdateByte;
    assert ([b] + rest)[1..] == rest;
  }

  /** The ASCII digits from d to 9. */
  function Digits(d: nat): seq<byte>
    requires d <= 10
    decreases 10 - d
  {
    if d == 10 then [] else [d + 0x30] + Digits(d + 1)
  }

  lemma FromDigit(reg: bv32, next: bv32, d: nat)
    requires d < 10 && UpdateByte(reg, d + 0x30) == next
    ensures UpdateCrc(reg, Digits(d)) == UpdateCrc(next, Digits(d + 1))
  {
    hide UpdateByte, UpdateCrc;
    UpdateOneMore(reg, d + 0x30, Digits(d + 1));
  }

  /** The check value: the checksum of 123456789. */
  lemma CheckValue()
    ensures Crc([0x31, 0x32, 0x33, 0x34, 0x35, 0x36, 0x37, 0x38, 0x39]) == 0xCBF4_3926
  {
    hide UpdateByte, UpdateCrc;
    Digit1();
    FromDigit(0xFFFF_FFFF, 0x7C23_1048, 1);
    Digit2();
    FromDigit(0x7C23_1048, 0xB0AC_BB32, 2);
    Digit3();
    FromDigit(0xB0AC_BB32, 0x77B7_9C2D, 3);
    Digit4();
    FromDigit(0x77B7_9C2D, 0x641C_1F5C, 4);
    Digit5();
    FromDigit(0x641C_1F5C, 0x340A_C5E3, 5);
    Digit6();
    FromDigit(0x340A_C5E3, 0xF68D_2C9E, 6);
    Digit7();
    FromDigit(0xF68D_2C9E, 0xAFFC_9660, 7);
    Digit8();
    FromDigit(0xAFFC_9660, 0x651F_2550, 8);
    Digit9();
    FromDigit(0x651F_2550, 0x340B_C6D9, 9);
    assert Digits(5) == [0x35] + ([0x36] + ([0x37] + ([0x38] + [0x39])));
    assert Digits(1) == [0x31] + ([0x32] + ([0x33] + ([0x34] + Digits(5))));
    assert Digits(1) == [0x31, 0x32, 0x33, 0x34, 0x35, 0x36, 0x37, 0x38, 0x39];
    UpdateNothing(0x340B_C6D9);
  }

  lemma UpdateNothing(crc: bv32)
    ensures UpdateCrc(crc, []) == crc
  {
  }

  // ---------------------------------------------------------------------
  // The register runs backwards
  // ---------------------------------------------------------------------

  lemma ShiftBitInjective(a: bv32, b: bv32, bit: bool)
    requires ShiftBit(a, bit) == ShiftBit(b, bit)
    ensures a == b
  {
  }

  lemma {:induction false} ClockedInjective(a: bv32, b: bv32, bits: seq<bool>)
    requires Clocked(a, bits) == Clocked(b, bits)
    ensures a == b
    decreases |bits|
  {
    hide ShiftBit;
    if bits != [] {
      ClockedInjective(ShiftBit(a, bits[0]), ShiftBit(b, bits[0]), bits[1..]);
      ShiftBitInjective(a, b, bits[0]);
    }
  }

  /** The k lowest bits of the register. */
  function LowMask(k: nat): bv32 {
    if k == 0 then 0 else (LowMask(k - 1) << 1) | 1
  }

  /** a and b differ at most in the bits of the mask. */
  predicate Agree(mask: bv32, a: bv32, b: bv32) {
    a | mask == b | mask
  }

  predicate Top(a: bv32) {
    a >= 0x8000_0000
  }

  lemma {:induction false} LowMaskGrows(j: nat, k: nat)
    requires j <= k
    ensures LowMask(j) & LowMask(k) == LowMask(j)
  {
    if j > 0 {
      LowMaskGrows(j - 1, k - 1);
    }
  }

  lemma LowMaskBelowTop(k: nat)
    requires k <= 31
    ensures !Top(LowMask(k))
  {
    LowMaskGrows(k, 31);
    assert LowMask(8) == 0xFF;
    assert LowMask(16) == 0xFFFF;
    assert LowMask(24) == 0xFF_FFFF;
    assert LowMask(31) == 0x7FFF_FFFF;
  }

  /** The top bit of the new register tells whether the polynomial was subtracted. */
  lemma TopBitIsFeedback(a: bv32, x: bool)
    ensures Top(ShiftBit(a, x)) <==> Low(a) != x
  {
  }

  lemma TopBitKept(a: bv32, b: bv32, low: bv32)
    requires !Top(low)
    requires Agree(low, a, b)
    ensures Top(a) <==> Top(b)
  {
  }

  lemma HalvesAgree(a: bv32, x: bool, b: bv32, y: bool, low: bv32)
    requires !Top(low)
    requires (Low(a) != x) == (Low(b) != y)
    requires Agree(low, ShiftBit(a, x), ShiftBit(b, y))
    ensures Agree((low << 1) | 1, a, b)
  {
  }

  /** One clock undone: one more low bit may differ, and equal registers tell which bit entered. */
  lemma ClockUndone(a: bv32, x: bool, b: bv32, y: bool, k: nat)
    requires k < 32
    requires Agree(LowMask(k), ShiftBit(a, x), ShiftBit(b, y))
    ensures Agree(LowMask(k + 1), a, b)
    ensures a == b ==> x == y
  {
    hide ShiftBit, Low, Agree, Top;
    LowMaskBelowTop(k);
    TopBitIsFeedback(a, x);
    TopBitIsFeedback(b, y);
    TopBitKept(ShiftBit(a, x), ShiftBit(b, y), LowMask(k));
    HalvesAgree(a, x, b, y, LowMask(k));
  }

  lemma {:induction false} ClockedAgree(a: bv32, xs: seq<bool>, b: bv32, ys: seq<bool>)
    requires |xs| == |ys| <= 32
    requires Clocked(a, xs) == Clocked(b, ys)
    ensures Agree(LowMask(|xs|), a, b)
    decreases |xs|
  {
    if xs != [] {
      hide ShiftBit, Agree, LowMask;
      ClockedAgree(ShiftBit(a, xs[0]), xs[1..], ShiftBit(b, ys[0]), ys[1..]);
      ClockUndone(a, xs[0], b, ys[0], |xs| - 1);
    }
  }

  /** From one register, at most 32 bits lead to a register that determines them. */
  lemma {:induction false} WindowInjective(reg: bv32, xs: seq<bool>, ys: seq<bool>)
    requires |xs| == |ys| <= 32
    requires Clocked(reg, xs) == Clocked(reg, ys)
    ensures xs == ys
    decreases |xs|
  {
    hide ShiftBit, Agree, LowMask;
    if xs != [] {
      ClockedAgree(ShiftBit(reg, xs[0]), xs[1..], ShiftBit(reg, ys[0]), ys[1..]);
      ClockUndone(reg, xs[0], reg, ys[0], |xs| - 1);
      WindowInjective(ShiftBit(reg, xs[0]), xs[1..], ys[1..]);
      assert xs == [xs[0]] + xs[1..] && ys == [ys[0]] + ys[1..];
    }
  }

  // ---------------------------------------------------------------------
  // Detection
  // ---------------------------------------------------------------------

  /** The bits in which x and y differ all lie in some 32 consecutive positions. */
  ghost predicate BitsWithinBurst(x: seq<bool>, y: seq<bool>) {
    |x| == |y| && exists start: nat :: DiffersOnlyIn(x, y, start)
  }

  ghost predicate DiffersOnlyIn(x: seq<bool>, y: seq<bool>, start: nat)
    requires |x| == |y|
  {
    forall k :: 0 <= k < |x| && x[k] != y[k] ==> start <= k < start + 32
  }

  /** A transmission error confined to a burst of 32 bits of the payload. */
  ghost predicate WithinBurst(sent: seq<byte>, received: seq<byte>) {
    |sent| == |received| && BitsWithinBurst(Bits(sent), Bits(received))
  }

  lemma BurstKeepsLength(sent: seq<byte>, received: seq<byte>)
    requires WithinBurst(sent, received)
    ensures |sent| == |received|
  {
  }

  lemma BitsOfInjective(a: byte, b: byte)
    requires BitsOf(a) == BitsOf(b)
    ensures a == b
  {
    assert TwoTo(8) == 0x100;
    BinaryValue(a, 8);
    BinaryValue(b, 8);
  }

  lemma {:induction false} BitsInjective(p: seq<byte>, q: seq<byte>)
    requires |p| == |q|
    requires Bits(p) == Bits(q)
    ensures p == q
  {
    hide BitsOf;
    if p != [] {
      assert BitsOf(p[0]) == Bits(p)[..8] == Bits(q)[..8] == BitsOf(q[0]);
      assert Bits(p[1..]) == Bits(p)[8..] == Bits(q)[8..] == Bits(q[1..]);
      BitsOfInjective(p[0], q[0]);
      BitsInjective(p[1..], q[1..]);
      assert p == [p[0]] + p[1..] && q == [q[0]] + q[1..];
    }
  }

  /** Clocking a sequence in three parts. */
  lemma ClockedInParts(reg: bv32, x: seq<bool>, i: nat, j: nat)
    requires i <= j <= |x|
    ensures Clocked(reg, x) == Clocked(Clocked(Clocked(reg, x[..i]), x[i..j]), x[j..])
  {
    hide Clocked;
    assert x == x[..i] + (x[i..j] + x[j..]);
    ClockedConcat(reg, x[..i], x[i..j] + x[j..]);
    ClockedConcat(Clocked(reg, x[..i]), x[i..j], x[j..]);
  }

  lemma SameOutside(x: seq<bool>, y: seq<bool>, start: nat, i: nat, j: nat)
    requires |x| == |y| && DiffersOnlyIn(x, y, start)
    requires i <= j <= |x| && i <= start && (j == |x| || j >= start + 32)
    ensures x[..i] == y[..i] && x[j..] == y[j..]
    ensures x[i..j] == y[i..j] ==> x == y
  {
    assert x == x[..i] + (x[i..j] + x[j..]) && y == y[..i] + (y[i..j] + y[j..]);
  }

  lemma BurstChangesRegister(reg: bv32, x: seq<bool>, y: seq<bool>)
    requires BitsWithinBurst(x, y)
    requires Clocked(reg, x) == Clocked(reg, y)
    ensures x == y
  {
    hide Clocked, DiffersOnlyIn;
    var start: nat :| DiffersOnlyIn(x, y, start);
    var i := if start <= |x| then start else |x|;
    var j := if i + 32 <= |x| then i + 32 else |x|;
    SameOutside(x, y, start, i, j);
    ClockedInParts(reg, x, i, j);
    ClockedInParts(reg, y, i, j);
    var before := Clocked(reg, x[..i]);
    ClockedInjective(Clocked(before, x[i..j]), Clocked(before, y[i..j]), x[j..]);
    WindowInjective(before, x[i..j], y[i..j]);
  }

  lemma XorCancels(a: bv32, b: bv32)
    requires Xor(a, 0xFFFF_FFFF) == Xor(b, 0xFFFF_FFFF)
    ensures a == b
  {
  }

  /** Every error burst of at most 32 bits changes the checksum. */
  lemma BurstDetected(sent: seq<byte>, received: seq<byte>)
    requires WithinBurst(sent, received)
    ensures Crc(sent) == Crc(received) <==> sent == received
  {
    hide Clocked, UpdateCrc, Bits, Xor;
    if Crc(sent) == Crc(received) {
      XorCancels(UpdateCrc(0xFFFF_FFFF, sent), UpdateCrc(0xFFFF_FFFF, received));
      UpdateIsSerial(0xFFFF_FFFF, sent);
      UpdateIsSerial(0xFFFF_FFFF, received);
      BurstChangesRegister(0xFFFF_FFFF, Bits(sent), Bits(received));
      BitsInjective(sent, received);
    }
  }

  lemma {:induction false} BitsAt(data: seq<byte>, k: nat)
    requires k < 8 * |data|
    ensures Bits(data)[k] == BitsOf(data[k / 8])[k % 8]
  {
    hide BitsOf;
    if k >= 8 {
      BitsAt(data[1..], k - 8);
      assert data[1..][(k - 8) / 8] == data[k / 8];
    }
  }

  /** Any change of a single byte is such a burst: the fault that the chaos simulator injects. */
  lemma ByteFaultIsBurst(data: seq<byte>, i: nat, b: byte)
    requires i < |data|
    ensures WithinBurst(data, data[i := b])
  {
    var x, y := Bits(data), Bits(data[i := b]);
    forall k | 0 <= k < |x| && x[k] != y[k]
      ensures 8 * i <= k < 8 * i + 32
    {
      BitsAt(data, k);
      BitsAt(data[i := b], k);
    }
    assert DiffersOnlyIn(x, y, 8 * i);
  }
}
