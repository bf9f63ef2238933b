/** CRC-32C as section 12.1 of RFC 3720 defines it, and the portable ed_crc32c of lib/hash.c, which takes four
    bytes at a time from four tables. Words are read in little-endian order. */
module Crc {
  import opened CrcTable

  /** The polynomial 0x11EDC6F41 with its bits reflected. */
  const POLY: bv32 := 0x82f63b78

  function Xor(a: bv32, b: bv32): bv32 {
    a ^ b
  }

  // ---- the definition, bit by bit

  function Half(x: bv32): bv32 {
    x >> 1
  }

  predicate Odd(x: bv32) {
    x & 1 == 1
  }

  function Bit(x: bv32): bv32 {
    Xor(Half(x), if Odd(x) then POLY else 0)
  }

  /** Eight bits of shift. */
  function Shift(x: bv32): bv32 {
    Bit(Bit(Bit(Bit(Bit(Bit(Bit(Bit(x))))))))
  }

  /** One byte of input. */
  function Next(crc: bv32, b: bv8): bv32 {
    Shift(Xor(crc, b as bv32))
  }

  function Fold(crc: bv32, bytes: seq<bv8>): bv32
    decreases |bytes|
  {
    if bytes == [] then crc else Next(Fold(crc, bytes[..|bytes| - 1]), bytes[|bytes| - 1])
  }

  function Not(x: bv32): bv32 {
    !x
  }

  /** The checksum of `bytes` behind data whose checksum is `crc`. */
  function Crc32c(crc: bv32, bytes: seq<bv8>): bv32 {
    Not(Fold(Not(crc), bytes))
  }

  // ---- shifting is linear

  lemma {:induction false} HalfLinear(x: bv32, y: bv32)
    ensures Half(Xor(x, y)) == Xor(Half(x), Half(y))
  {
  }

  lemma {:induction false} OddLinear(x: bv32, y: bv32)
    ensures Odd(Xor(x, y)) <==> Odd(x) != Odd(y)
  {
  }

  lemma {:induction false} BitsRegroup(a: bv32, b: bv32, c: bv32)
    ensures (a ^ b) ^ c == a ^ (b ^ c) && a ^ b == b ^ a && a ^ 0 == a && a ^ a == 0
  {
  }

  lemma {:induction false} XorRules(a: bv32, b: bv32, c: bv32)
    ensures Xor(Xor(a, b), c) == Xor(a, Xor(b, c)) && Xor(a, b) == Xor(b, a) && Xor(a, 0) == a && Xor(a, a) == 0
  {
    BitsRegroup(a, b, c);
  }

  lemma {:induction false} XorParts(a: bv32, b: bv32, p: bv32)
    ensures Xor(Xor(a, b), 0) == Xor(Xor(a, 0), Xor(b, 0)) == Xor(Xor(a, p), Xor(b, p))
    ensures Xor(Xor(a, b), p) == Xor(Xor(a, p), Xor(b, 0)) == Xor(Xor(a, 0), Xor(b, p))
  {
    hide Xor;
    XorRules(a, b, p);
    XorRules(a, p, b);
    XorRules(p, b, p);
    XorRules(b, p, p);
    XorRules(a, p, Xor(b, p));
    XorRules(p, p, b);
    XorRules(Xor(a, b), p, p);
  }

  lemma {:induction false} BitLinear(x: bv32, y: bv32)
    ensures Bit(Xor(x, y)) == Xor(Bit(x), Bit(y))
  {
    hide Half;
    hide Odd;
    hide Xor;
    HalfLinear(x, y);
    OddLinear(x, y);
    XorParts(Half(x), Half(y), POLY);
  }

  lemma {:induction false} ShiftLinear(x: bv32, y: bv32)
    ensures Shift(Xor(x, y)) == Xor(Shift(x), Shift(y))
  {
    hide Bit;
    hide Xor;
    var x1, y1 := Bit(x), Bit(y);
    var x2, y2 := Bit(x1), Bit(y1);
    var x3, y3 := Bit(x2), Bit(y2);
    var x4, y4 := Bit(x3), Bit(y3);
    var x5, y5 := Bit(x4), Bit(y4);
    var x6, y6 := Bit(x5), Bit(y5);
    var x7, y7 := Bit(x6), Bit(y6);
    BitLinear(x, y);
    BitLinear(x1, y1);
    BitLinear(x2, y2);
    BitLinear(x3, y3);
    BitLinear(x4, y4);
    BitLinear(x5, y5);
    BitLinear(x6, y6);
    BitLinear(x7, y7);
  }

  /** Above the lowest byte, shifting moves bytes down one place. */
  lemma {:induction false} ShiftByte(x: bv32)
    requires x <= 0xff_ffff
    ensures Shift(x << 8) == x
  {
  }

  // ---- the tables

  /** `x` added if the byte has a bit of the mask. */
  function Add(c: bv8, m: bv8, x: bv32, sum: bv32): bv32 {
    if c & m == 0 then sum else sum ^ x
  }

  /** The sum over the bits of a byte, each standing for a word. */
  function Sum(c: bv8, x0: bv32, x1: bv32, x2: bv32, x3: bv32, x4: bv32, x5: bv32, x6: bv32, x7: bv32): bv32 {
    Add(c, 128, x7, Add(c, 64, x6, Add(c, 32, x5, Add(c, 16, x4, Add(c, 8, x3, Add(c, 4, x2, Add(c, 2, x1, Add(c, 1, x0, 0))))))))
  }

  lemma {:induction false} ShiftZero()
    ensures Shift(0) == 0
  {
  }

  lemma {:induction false} AddIs(c: bv8, m: bv8, x: bv32, sum: bv32)
    ensures Add(c, m, x, sum) == if c & m == 0 then sum else Xor(sum, x)
  {
  }

  lemma {:induction false} ShiftAdd(c: bv8, m: bv8, x: bv32, sum: bv32)
    ensures Shift(Add(c, m, x, sum)) == Add(c, m, Shift(x), Shift(sum))
  {
    hide Shift;
    hide Xor;
    hide Add;
    AddIs(c, m, x, sum);
    AddIs(c, m, Shift(x), Shift(sum));
    ShiftLinear(sum, x);
  }

  /** Shifting a sum shifts what the bits stand for. */
  lemma {:induction false} ShiftSum(c: bv8, x0: bv32, x1: bv32, x2: bv32, x3: bv32, x4: bv32, x5: bv32, x6: bv32, x7: bv32)
    ensures Shift(Sum(c, x0, x1, x2, x3, x4, x5, x6, x7)) ==
            Sum(c, Shift(x0), Shift(x1), Shift(x2), Shift(x3), Shift(x4), Shift(x5), Shift(x6), Shift(x7))
  {
    hide Shift;
    hide Add;
    var s0 := Add(c, 1, x0, 0);
    var s1 := Add(c, 2, x1, s0);
    var s2 := Add(c, 4, x2, s1);
    var s3 := Add(c, 8, x3, s2);
    var s4 := Add(c, 16, x4, s3);
    var s5 := Add(c, 32, x5, s4);
    var s6 := Add(c, 64, x6, s5);
    ShiftZero();
    ShiftAdd(c, 1, x0, 0);
    ShiftAdd(c, 2, x1, s0);
    ShiftAdd(c, 4, x2, s1);
    ShiftAdd(c, 8, x3, s2);
    ShiftAdd(c, 16, x4, s3);
    ShiftAdd(c, 32, x5, s4);
    ShiftAdd(c, 64, x6, s5);
    ShiftAdd(c, 128, x7, s6);
  }

  lemma {:induction false} ByteSum(c: bv8)
    ensures c as bv32 == Sum(c, 1, 2, 4, 8, 16, 32, 64, 128)
  {
  }

  /** What the entries for the single bits give for the fourth table. */
  function Bits3(c: bv8): bv32 {
    Sum(c, 0xf26b8303, 0xe13b70f7, 0xc79a971f, 0x8ad958cf, 0x105ec76f, 0x20bd8ede, 0x417b1dbc, 0x82f63b78)
  }

  lemma {:induction false} Bits3Part0(c: bv8)
    requires c < 32
    ensures Table3Part0(c) == Bits3(c)
  {
  }

  lemma {:induction false} Bits3Part1(c: bv8)
    requires 32 <= c < 64
    ensures Table3Part1(c) == Bits3(c)
  {
  }

  lemma {:induction false} Bits3Part2(c: bv8)
    requires 64 <= c < 96
    ensures Table3Part2(c) == Bits3(c)
  {
  }

  lemma {:induction false} Bits3Part3(c: bv8)
    requires 96 <= c < 128
    ensures Table3Part3(c) == Bits3(c)
  {
  }

  lemma {:induction false} Bits3Part4(c: bv8)
    requires 128 <= c < 160
    ensures Table3Part4(c) == Bits3(c)
  {
  }

  lemma {:induction false} Bits3Part5(c: bv8)
    requires 160 <= c < 192
    ensures Table3Part5(c) == Bits3(c)
  {
  }

  lemma {:induction false} Bits3Part6(c: bv8)
    requires 192 <= c < 224
    ensures Table3Part6(c) == Bits3(c)
  {
  }

  lemma {:induction false} Bits3Part7(c: bv8)
    requires 224 <= c
    ensures Table3Part7(c) == Bits3(c)
  {
  }

  lemma {:induction false} Bits3Ok(c: bv8)
    ensures Table3(c) == Bits3(c)
  {
    hide Bits3;
    hide Table3Part0;
    hide Table3Part1;
    hide Table3Part2;
    hide Table3Part3;
    hide Table3Part4;
    hide Table3Part5;
    hide Table3Part6;
    hide Table3Part7;
    if c < 32 {
      Bits3Part0(c);
    } else if c < 64 {
      Bits3Part1(c);
    } else if c < 96 {
      Bits3Part2(c);
    } else if c < 128 {
      Bits3Part3(c);
    } else if c < 160 {
      Bits3Part4(c);
    } else if c < 192 {
      Bits3Part5(c);
    } else if c < 224 {
      Bits3Part6(c);
    } else {
      Bits3Part7(c);
    }
  }

  lemma {:induction false} Bits3Shifted()
    ensures Shift(1) == 0xf26b8303 && Shift(2) == 0xe13b70f7 && Shift(4) == 0xc79a971f && Shift(8) == 0x8ad958cf
    ensures Shift(16) == 0x105ec76f && Shift(32) == 0x20bd8ede && Shift(64) == 0x417b1dbc && Shift(128) == 0x82f63b78
  {
  }

  lemma {:induction false} Table3Ok(c: bv8)
    ensures Table3(c) == Shift(c as bv32)
  {
    hide Shift;
    hide Sum;
    hide Table3;
    Bits3Ok(c);
    ByteSum(c);
    ShiftSum(c, 1, 2, 4, 8, 16, 32, 64, 128);
    Bits3Shifted();
  }

  /** What the entries for the single bits give for the third table. */
  function Bits2(c: bv8): bv32 {
    Sum(c, 0x13a29877, 0x274530ee, 0x4e8a61dc, 0x9d14c3b8, 0x3fc5f181, 0x7f8be302, 0xff17c604, 0xfbc3faf9)
  }

  lemma {:induction false} Bits2Part0(c: bv8)
    requires c < 32
    ensures Table2Part0(c) == Bits2(c)
  {
  }

  lemma {:induction false} Bits2Part1(c: bv8)
    requires 32 <= c < 64
    ensures Table2Part1(c) == Bits2(c)
  {
  }

  lemma {:induction false} Bits2Part2(c: bv8)
    requires 64 <= c < 96
    ensures Table2Part2(c) == Bits2(c)
  {
  }

  lemma {:induction false} Bits2Part3(c: bv8)
    requires 96 <= c < 128
    ensures Table2Part3(c) == Bits2(c)
  {
  }

  lemma {:induction false} Bits2Part4(c: bv8)
    requires 128 <= c < 160
    ensures Table2Part4(c) == Bits2(c)
  {
  }

  lemma {:induction false} Bits2Part5(c: bv8)
    requires 160 <= c < 192
    ensures Table2Part5(c) == Bits2(c)
  {
  }

  lemma {:induction false} Bits2Part6(c: bv8)
    requires 192 <= c < 224
    ensures Table2Part6(c) == Bits2(c)
  {
  }

  lemma {:induction false} Bits2Part7(c: bv8)
    requires 224 <= c
    ensures Table2Part7(c) == Bits2(c)
  {
  }

  lemma {:induction false} Bits2Ok(c: bv8)
    ensures Table2(c) == Bits2(c)
  {
    hide Bits2;
    hide Table2Part0;
    hide Table2Part1;
    hide Table2Part2;
    hide Table2Part3;
    hide Table2Part4;
    hide Table2Part5;
    hide Table2Part6;
    hide Table2Part7;
    if c < 32 {
      Bits2Part0(c);
    } else if c < 64 {
      Bits2Part1(c);
    } else if c < 96 {
      Bits2Part2(c);
    } else if c < 128 {
      Bits2Part3(c);
    } else if c < 160 {
      Bits2Part4(c);
    } else if c < 192 {
      Bits2Part5(c);
    } else if c < 224 {
      Bits2Part6(c);
    } else {
      Bits2Part7(c);
    }
  }

  lemma {:induction false} Bits2Shifted()
    ensures Shift(0xf26b8303) == 0x13a29877 && Shift(0xe13b70f7) == 0x274530ee && Shift(0xc79a971f) == 0x4e8a61dc && Shift(0x8ad958cf) == 0x9d14c3b8
    ensures Shift(0x105ec76f) == 0x3fc5f181 && Shift(0x20bd8ede) == 0x7f8be302 && Shift(0x417b1dbc) == 0xff17c604 && Shift(0x82f63b78) == 0xfbc3faf9
  {
  }

  lemma {:induction false} Table2Ok(c: bv8)
    ensures Table2(c) == Shift(Shift(c as bv32))
  {
    hide Shift;
    hide Sum;
    hide Table2;
    hide Table3;
    Bits2Ok(c);
    Table3Ok(c);
    Bits3Ok(c);
    ShiftSum(c, 0xf26b8303, 0xe13b70f7, 0xc79a971f, 0x8ad958cf, 0x105ec76f, 0x20bd8ede, 0x417b1dbc, 0x82f63b78);
    Bits2Shifted();
  }

  /** What the entries for the single bits give for the second table. */
  function Bits1(c: bv8): bv32 {
    Sum(c, 0xa541927e, 0x4f6f520d, 0x9edea41a, 0x38513ec5, 0x70a27d8a, 0xe144fb14, 0xc76580d9, 0x8b277743)
  }

  lemma {:induction false} Bits1Part0(c: bv8)
    requires c < 32
    ensures Table1Part0(c) == Bits1(c)
  {
  }

  lemma {:induction false} Bits1Part1(c: bv8)
    requires 32 <= c < 64
    ensures Table1Part1(c) == Bits1(c)
  {
  }

  lemma {:induction false} Bits1Part2(c: bv8)
    requires 64 <= c < 96
    ensures Table1Part2(c) == Bits1(c)
  {
  }

  lemma {:induction false} Bits1Part3(c: bv8)
    requires 96 <= c < 128
    ensures Table1Part3(c) == Bits1(c)
  {
  }

  lemma {:induction false} Bits1Part4(c: bv8)
    requires 128 <= c < 160
    ensures Table1Part4(c) == Bits1(c)
  {
  }

  lemma {:induction false} Bits1Part5(c: bv8)
    requires 160 <= c < 192
    ensures Table1Part5(c) == Bits1(c)
  {
  }

  lemma {:induction false} Bits1Part6(c: bv8)
    requires 192 <= c < 224
    ensures Table1Part6(c) == Bits1(c)
  {
  }

  lemma {:induction false} Bits1Part7(c: bv8)
    requires 224 <= c
    ensures Table1Part7(c) == Bits1(c)
  {
  }

  lemma {:induction false} Bits1Ok(c: bv8)
    ensures Table1(c) == Bits1(c)
  {
    hide Bits1;
    hide Table1Part0;
    hide Table1Part1;
    hide Table1Part2;
    hide Table1Part3;
    hide Table1Part4;
    hide Table1Part5;
    hide Table1Part6;
    hide Table1Part7;
    if c < 32 {
      Bits1Part0(c);
    } else if c < 64 {
      Bits1Part1(c);
    } else if c < 96 {
      Bits1Part2(c);
    } else if c < 128 {
      Bits1Part3(c);
    } else if c < 160 {
      Bits1Part4(c);
    } else if c < 192 {
      Bits1Part5(c);
    } else if c < 224 {
      Bits1Part6(c);
    } else {
      Bits1Part7(c);
    }
  }

  lemma {:induction false} Bits1Shifted()
    ensures Shift(0x13a29877) == 0xa541927e && Shift(0x274530ee) == 0x4f6f520d && Shift(0x4e8a61dc) == 0x9edea41a && Shift(0x9d14c3b8) == 0x38513ec5
    ensures Shift(0x3fc5f181) == 0x70a27d8a && Shift(0x7f8be302) == 0xe144fb14 && Shift(0xff17c604) == 0xc76580d9 && Shift(0xfbc3faf9) == 0x8b277743
  {
  }

  lemma {:induction false} Table1Ok(c: bv8)
    ensures Table1(c) == Shift(Shift(Shift(c as bv32)))
  {
    hide Shift;
    hide Sum;
    hide Table1;
    hide Table2;
    Bits1Ok(c);
    Table2Ok(c);
    Bits2Ok(c);
    ShiftSum(c, 0x13a29877, 0x274530ee, 0x4e8a61dc, 0x9d14c3b8, 0x3fc5f181, 0x7f8be302, 0xff17c604, 0xfbc3faf9);
    Bits1Shifted();
  }

  /** What the entries for the single bits give for the first table. */
  function Bits0(c: bv8): bv32 {
    Sum(c, 0xdd45aab8, 0xbf672381, 0x7b2231f3, 0xf64463e6, 0xe964b13d, 0xd725148b, 0xaba65fe7, 0x52a0c93f)
  }

  lemma {:induction false} Bits0Part0(c: bv8)
    requires c < 32
    ensures Table0Part0(c) == Bits0(c)
  {
  }

  lemma {:induction false} Bits0Part1(c: bv8)
    requires 32 <= c < 64
    ensures Table0Part1(c) == Bits0(c)
  {
  }

  lemma {:induction false} Bits0Part2(c: bv8)
    requires 64 <= c < 96
    ensures Table0Part2(c) == Bits0(c)
  {
  }

  lemma {:induction false} Bits0Part3(c: bv8)
    requires 96 <= c < 128
    ensures Table0Part3(c) == Bits0(c)
  {
  }

  lemma {:induction false} Bits0Part4(c: bv8)
    requires 128 <= c < 160
    ensures Table0Part4(c) == Bits0(c)
  {
  }

  lemma {:induction false} Bits0Part5(c: bv8)
    requires 160 <= c < 192
    ensures Table0Part5(c) == Bits0(c)
  {
  }

  lemma {:induction false} Bits0Part6(c: bv8)
    requires 192 <= c < 224
    ensures Table0Part6(c) == Bits0(c)
  {
  }

  lemma {:induction false} Bits0Part7(c: bv8)
    requires 224 <= c
    ensures Table0Part7(c) == Bits0(c)
  {
  }

  lemma {:induction false} Bits0Ok(c: bv8)
    ensures Table0(c) == Bits0(c)
  {
    hide Bits0;
    hide Table0Part0;
    hide Table0Part1;
    hide Table0Part2;
    hide Table0Part3;
    hide Table0Part4;
    hide Table0Part5;
    hide Table0Part6;
    hide Table0Part7;
    if c < 32 {
      Bits0Part0(c);
    } else if c < 64 {
      Bits0Part1(c);
    } else if c < 96 {
      Bits0Part2(c);
    } else if c < 128 {
      Bits0Part3(c);
    } else if c < 160 {
      Bits0Part4(c);
    } else if c < 192 {
      Bits0Part5(c);
    } else if c < 224 {
      Bits0Part6(c);
    } else {
      Bits0Part7(c);
    }
  }

  lemma {:induction false} Bits0Shifted()
    ensures Shift(0xa541927e) == 0xdd45aab8 && Shift(0x4f6f520d) == 0xbf672381 && Shift(0x9edea41a) == 0x7b2231f3 && Shift(0x38513ec5) == 0xf64463e6
    ensures Shift(0x70a27d8a) == 0xe964b13d && Shift(0xe144fb14) == 0xd725148b && Shift(0xc76580d9) == 0xaba65fe7 && Shift(0x8b277743) == 0x52a0c93f
  {
  }

  lemma {:induction false} Table0Ok(c: bv8)
    ensures Table0(c) == Shift(Shift(Shift(Shift(c as bv32))))
  {
    hide Shift;
    hide Sum;
    hide Table0;
    hide Table1;
    Bits0Ok(c);
    Table1Ok(c);
    Bits1Ok(c);
    ShiftSum(c, 0xa541927e, 0x4f6f520d, 0x9edea41a, 0x38513ec5, 0x70a27d8a, 0xe144fb14, 0xc76580d9, 0x8b277743);
    Bits0Shifted();
  }

  // ---- four bytes at once

  /** The four bytes of a word, lowest first. */
  function Byte0(w: bv32): bv8 {
    (w & 0xff) as bv8
  }

  function Byte1(w: bv32): bv8 {
    ((w >> 8) & 0xff) as bv8
  }

  function Byte2(w: bv32): bv8 {
    ((w >> 16) & 0xff) as bv8
  }

  function Byte3(w: bv32): bv8 {
    (w >> 24) as bv8
  }

  function Word(a: bv8, b: bv8, c: bv8, d: bv8): bv32 {
    Xor(Xor(a as bv32, (b as bv32) << 8), Xor((c as bv32) << 16, (d as bv32) << 24))
  }

  lemma {:induction false} WordBytes(w: bv32)
    ensures w == Word(Byte0(w), Byte1(w), Byte2(w), Byte3(w))
  {
  }

  /** A byte `n` places up needs `n` shifts less. */
  lemma {:induction false} ByteUp(b: bv8)
    ensures Shift((b as bv32) << 8) == b as bv32
    ensures Shift((b as bv32) << 16) == (b as bv32) << 8
    ensures Shift((b as bv32) << 24) == (b as bv32) << 16
  {
    ShiftByte(b as bv32);
    ShiftByte((b as bv32) << 8);
    ShiftByte((b as bv32) << 16);
    ByteTwice(b);
  }

  lemma {:induction false} ByteTwice(b: bv8)
    ensures ((b as bv32) << 8) << 8 == (b as bv32) << 16 && ((b as bv32) << 16) << 8 == (b as bv32) << 24
    ensures (b as bv32) << 8 <= 0xff_ffff && (b as bv32) << 16 <= 0xff_ffff
  {
  }

  function Shift4(x: bv32): bv32 {
    Shift(Shift(Shift(Shift(x))))
  }

  lemma {:induction false} Shift4Linear(x: bv32, y: bv32)
    ensures Shift4(Xor(x, y)) == Xor(Shift4(x), Shift4(y))
  {
    hide Shift;
    hide Xor;
    ShiftLinear(x, y);
    ShiftLinear(Shift(x), Shift(y));
    ShiftLinear(Shift(Shift(x)), Shift(Shift(y)));
    ShiftLinear(Shift(Shift(Shift(x))), Shift(Shift(Shift(y))));
  }

  /** NEXT4: one lookup per byte. */
  function Lookup4(c: bv32): bv32 {
    Xor(Xor(Table0(Byte0(c)), Table1(Byte1(c))), Xor(Table2(Byte2(c)), Table3(Byte3(c))))
  }

  lemma {:induction false} Lookup4Ok(c: bv32)
    ensures Lookup4(c) == Shift4(c)
  {
    hide Shift;
    hide Xor;
    hide Table0;
    hide Table1;
    hide Table2;
    hide Table3;
    hide Byte0;
    hide Byte1;
    hide Byte2;
    hide Byte3;
    var a, b, d, e := Byte0(c), Byte1(c), Byte2(c), Byte3(c);
    var b', d', e' := (b as bv32) << 8, (d as bv32) << 16, (e as bv32) << 24;
    WordBytes(c);
    Shift4Linear(Xor(a as bv32, b'), Xor(d', e'));
    Shift4Linear(a as bv32, b');
    Shift4Linear(d', e');
    ByteUp(b);
    ByteUp(d);
    ByteUp(e);
    Table0Ok(a);
    Table1Ok(b);
    Table2Ok(d);
    Table3Ok(e);
  }

  /** Four bytes one after the other are one shift of four places by their word. */
  lemma {:induction false} FourBytes(crc: bv32, a: bv8, b: bv8, c: bv8, d: bv8)
    ensures Next(Next(Next(Next(crc, a), b), c), d) == Shift4(Xor(crc, Word(a, b, c, d)))
  {
    hide Shift;
    hide Xor;
    var b', c', d' := (b as bv32) << 8, (c as bv32) << 16, (d as bv32) << 24;
    var p := Xor(crc, a as bv32);
    // bring b, c and d in from above, one shift at a time
    WordSplit(crc, a as bv32, b', c', d');
    ByteUp(b);
    ByteUp(c);
    ByteUp(d);
    ShiftLinear(Xor(Xor(p, b'), c'), d');
    ShiftLinear(Xor(p, b'), c');
    ShiftLinear(p, b');
    var p1 := Next(crc, a);
    var p2 := Xor(p1, b as bv32);
    ShiftLinear(Xor(p2, (c as bv32) << 8), (d as bv32) << 16);
    ShiftLinear(p2, (c as bv32) << 8);
    var p3 := Xor(Next(p1, b), c as bv32);
    ShiftLinear(p3, (d as bv32) << 8);
  }

  lemma {:induction false} WordSplit(crc: bv32, a: bv32, b: bv32, c: bv32, d: bv32)
    ensures Xor(crc, Xor(Xor(a, b), Xor(c, d))) == Xor(Xor(Xor(Xor(crc, a), b), c), d)
  {
    hide Xor;
    XorRules(crc, Xor(a, b), Xor(c, d));
    XorRules(crc, a, b);
    XorRules(Xor(crc, Xor(a, b)), c, d);
  }

  // ---- one byte at a time

  function Above(x: bv32): bv32 {
    x >> 8
  }

  function Up(x: bv32): bv32 {
    x << 8
  }

  /** NEXT1: one lookup. */
  function Lookup1(crc: bv32, b: bv8): bv32 {
    Xor(Table3(Byte0(Xor(crc, b as bv32))), Above(crc))
  }

  lemma {:induction false} LowHigh(x: bv32)
    ensures x == Xor(Byte0(x) as bv32, Up(Above(x)))
  {
  }

  lemma {:induction false} AboveKept(crc: bv32, b: bv8)
    ensures Above(Xor(crc, b as bv32)) == Above(crc)
  {
  }

  lemma {:induction false} ShiftUp(x: bv32)
    ensures Shift(Up(Above(x))) == Above(x)
  {
  }

  lemma {:induction false} Lookup1Ok(crc: bv32, b: bv8)
    ensures Lookup1(crc, b) == Next(crc, b)
  {
    hide Shift;
    hide Xor;
    hide Table3;
    hide Byte0;
    hide Above;
    hide Up;
    var x := Xor(crc, b as bv32);
    LowHigh(x);
    AboveKept(crc, b);
    ShiftLinear(Byte0(x) as bv32, Up(Above(x)));
    ShiftUp(x);
    Table3Ok(Byte0(x));
  }

  // ---- the whole

  lemma {:induction false} FoldAppend(crc: bv32, a: seq<bv8>, b: seq<bv8>)
    ensures Fold(crc, a + b) == Fold(Fold(crc, a), b)
    decreases |b|
  {
    hide Next;
    if b == [] {
      assert a + b == a;
    } else {
      var n := |b| - 1;
      assert (a + b)[..|a + b| - 1] == a + b[..n];
      FoldAppend(crc, a, b[..n]);
    }
  }

  /** Resuming from a checksum goes on where it stopped. */
  lemma {:induction false} Resume(crc: bv32, a: seq<bv8>, b: seq<bv8>)
    ensures Crc32c(Crc32c(crc, a), b) == Crc32c(crc, a + b)
  {
    hide Fold;
    hide Not;
    FoldAppend(Not(crc), a, b);
    Twice(Fold(Not(crc), a));
  }

  lemma {:induction false} Twice(x: bv32)
    ensures Not(Not(x)) == x
  {
  }

  lemma {:induction false} FoldOne(crc: bv32, bytes: seq<bv8>, i: nat)
    requires i < |bytes|
    ensures Fold(crc, bytes[..i + 1]) == Next(Fold(crc, bytes[..i]), bytes[i])
  {
    hide Next;
    assert bytes[..i + 1][..i] == bytes[..i];
  }

  lemma {:induction false} FoldFour(crc: bv32, bytes: seq<bv8>, i: nat)
    requires i + 4 <= |bytes|
    ensures Fold(crc, bytes[..i + 4]) == Lookup4(Xor(Fold(crc, bytes[..i]), Word(bytes[i], bytes[i + 1], bytes[i + 2], bytes[i + 3])))
  {
    hide Next;
    hide Fold;
    hide Lookup4;
    hide Xor;
    hide Word;
    hide Shift4;
    FoldOne(crc, bytes, i);
    FoldOne(crc, bytes, i + 1);
    FoldOne(crc, bytes, i + 2);
    FoldOne(crc, bytes, i + 3);
    FourBytes(Fold(crc, bytes[..i]), bytes[i], bytes[i + 1], bytes[i + 2], bytes[i + 3]);
    Lookup4Ok(Xor(Fold(crc, bytes[..i]), Word(bytes[i], bytes[i + 1], bytes[i + 2], bytes[i + 3])));
  }

  /** ed_crc32c of a buffer that starts `align` bytes after a word boundary. */
  method Checksum(crc: bv32, bytes: seq<bv8>, align: nat) returns (r: bv32)
    requires align < 4
    ensures r == Crc32c(crc, bytes)
  {
    hide Fold;
    hide Lookup1;
    hide Lookup4;
    hide Xor;
    hide Word;
    hide Next;
    hide Not;
    var c, i, end := Not(crc), 0, |bytes|;
    var sub := (4 - align) % 4;
    assert bytes[..0] == [] && c == Fold(Not(crc), bytes[..0]) by { FoldNone(Not(crc)); }
    if sub <= end {
      while i != sub
        invariant i <= sub && c == Fold(Not(crc), bytes[..i])
      {
        FoldOne(Not(crc), bytes, i);
        Lookup1Ok(c, bytes[i]);
        c, i := Lookup1(c, bytes[i]), i + 1;
      }
    }
    while end - i >= 16
      invariant i <= end && c == Fold(Not(crc), bytes[..i])
    {
      ghost var from := i;
      for k := 0 to 4
        invariant i == from + 4 * k && c == Fold(Not(crc), bytes[..i])
      {
        FoldFour(Not(crc), bytes, i);
        c, i := Lookup4(Xor(c, Word(bytes[i], bytes[i + 1], bytes[i + 2], bytes[i + 3]))), i + 4;
      }
    }
    while end - i >= 4
      invariant i <= end && c == Fold(Not(crc), bytes[..i])
    {
      FoldFour(Not(crc), bytes, i);
      c, i := Lookup4(Xor(c, Word(bytes[i], bytes[i + 1], bytes[i + 2], bytes[i + 3]))), i + 4;
    }
    while i != end
      invariant i <= end && c == Fold(Not(crc), bytes[..i])
    {
      FoldOne(Not(crc), bytes, i);
      Lookup1Ok(c, bytes[i]);
      c, i := Lookup1(c, bytes[i]), i + 1;
    }
    assert bytes[..i] == bytes;
    r := Not(c);
  }

  lemma {:induction false} FoldNone(crc: bv32)
    ensures Fold(crc, []) == crc
  {
  }

  // ---- known values

  /** The bytes of a word, lowest first, as a checksum is stored. */
  function Stored(w: bv32): seq<bv8> {
    [Byte0(w), Byte1(w), Byte2(w), Byte3(w)]
  }

  lemma {:induction false} AllOnes()
    ensures Shift(0xffffffff) == 0xad82acae && Shift(0xad82acae) == 0x0e9e882d
    ensures Shift(0x0e9e882d) == 0x9f9b5c85 && Shift(0x9f9b5c85) == 0xb798b438
  {
  }

  lemma {:induction false} Inverse(x: bv32)
    ensures Xor(x, Not(x)) == 0xffff_ffff && Not(0) == 0xffff_ffff && Not(0xb798b438) == 0x48674bc7
  {
  }

  /** Data with its checksum behind it always has the same checksum. */
  lemma {:induction false} Residue(bytes: seq<bv8>)
    ensures Crc32c(0, bytes + Stored(Crc32c(0, bytes))) == 0x48674bc7
  {
    hide Next;
    hide Not;
    hide Xor;
    hide Shift;
    hide Word;
    hide Byte0;
    hide Byte1;
    hide Byte2;
    hide Byte3;
    var f := Fold(Not(0), bytes);
    var w := Not(f);
    var b := Stored(w);
    FoldAppend(Not(0), bytes, b);
    FoldNone(f);
    FoldOne(f, b, 0);
    FoldOne(f, b, 1);
    FoldOne(f, b, 2);
    FoldOne(f, b, 3);
    assert b[..0] == [] && b[..4] == b;
    FourBytes(f, b[0], b[1], b[2], b[3]);
    WordBytes(w);
    Inverse(f);
    AllOnes();
  }

  /** The checksum of the letter a. */
  lemma {:induction false} OneLetter()
    ensures Crc32c(0, [0x61]) == 0xc1d04330
  {
    hide Next;
    FoldNone(Not(0));
    FoldOne(Not(0), [0x61], 0);
    assert [0x61][..0] == [] && [0x61][..1] == [0x61];
    LetterShifted();
  }

  lemma {:induction false} LetterShifted()
    ensures Not(Next(Not(0), 0x61)) == 0xc1d04330
  {
  }
}
