/** Conversions between table indices and bytes. */
module ByteIndices {

  lemma ByteIndex(i: int)
    requires 0 <= i < 256
    ensures (i as bv8) as int == i
  {
    if i < 128 { if i < 64 { if i < 32 { } } } else if i < 192 { }
  }

  lemma ByteWiden(i: int)
    requires 0 <= i < 256
    ensures i as bv32 == (i as bv8) as bv32
  {
  }

  lemma ByteIndexInjective(a: bv8, b: bv8)
    requires a as int == b as int
    ensures a == b
  {
  }
}

/**
 The reflected CRC of src/core/crc.cpp.

 The reference is the serial definition: one message bit at a time enters a shift register whose
 feedback polynomial is `poly` (0xEDB88320 for CRC-32, section 8 of RFC 1952; 0x82F63B78 for
 CRC32C, section 12.1 of RFC 3720). The program never runs that definition. It fills eight
 256-entry tables and consumes eight bytes per step. Everything below holds for every polynomial.
 */
module Crc {
  import opened ByteIndices

  const IEEE: bv32 := 0xedb8_8320
  const CASTAGNOLI: bv32 := 0x82f6_3b78

  // ---------- register operations ----------

  function Xor(a: bv32, b: bv32): bv32 { a ^ b }

  function Shr(c: bv32): bv32 { c >> 1 }

  function Shr8(c: bv32): bv32 { c >> 8 }

  predicate Odd(c: bv32) { c & 1 == 1 }

  /** A byte at the low end of the register. */
  function Low(b: bv8): bv32 { b as bv32 }

  function LowByte(c: bv32): bv8 { (c & 0xff) as bv8 }

  function XorByte(a: bv8, b: bv8): bv8 { a ^ b }

  // ---------- the serial reference ----------

  /** One clock of the shift register with message bit `bit`. */
  function Clock(poly: bv32, c: bv32, bit: bool): bv32 {
    if Odd(c) != bit then Xor(poly, Shr(c)) else Shr(c)
  }

  function Tail(b: bv8, k: nat): bv8
    requires k <= 8
  {
    b >> k
  }

  /** The register after message bits `k..8` of a byte, least significant first. */
  function SerialByte(poly: bv32, c: bv32, b: bv8, k: nat): bv32
    requires k <= 8
    decreases 8 - k
  {
    if k == 8 then c else SerialByte(poly, Clock(poly, c, Odd(Low(Tail(b, k)))), b, k + 1)
  }

  /** The register after the whole message, fed bit by bit. */
  function Serial(poly: bv32, c: bv32, data: seq<bv8>): bv32
    decreases |data|
  {
    if data == [] then c
    else Serial(poly, SerialByte(poly, c, data[0], 0), data[1..])
  }

  // ---------- laws of the register operations ----------

  lemma XorAssoc(a: bv32, b: bv32, c: bv32)
    ensures Xor(Xor(a, b), c) == Xor(a, Xor(b, c))
  {
  }

  lemma XorComm(a: bv32, b: bv32)
    ensures Xor(a, b) == Xor(b, a)
  {
  }

  lemma XorCancel(a: bv32, b: bv32)
    ensures Xor(a, Xor(a, b)) == b
  {
  }

  lemma ShrXor(a: bv32, b: bv32)
    ensures Shr(Xor(a, b)) == Xor(Shr(a), Shr(b))
  {
  }

  lemma OddXor(a: bv32, b: bv32)
    ensures Odd(Xor(a, b)) == (Odd(a) != Odd(b))
  {
  }

  lemma TailShift(b: bv8, k: nat)
    requires k < 8
    ensures Shr(Low(Tail(b, k))) == Low(Tail(b, k + 1))
  {
    if k == 0 {} else if k == 1 {} else if k == 2 {} else if k == 3 {}
    else if k == 4 {} else if k == 5 {} else if k == 6 {} else {}
  }

  lemma TailEnds(b: bv8, c: bv32)
    ensures Tail(b, 0) == b
    ensures Xor(c, Low(Tail(b, 8))) == c
  {
  }

  // ---------- linearity of the clocked register ----------

  /** One clock with a zero message bit. */
  function Step(poly: bv32, c: bv32): bv32 {
    if Odd(c) then Xor(poly, Shr(c)) else Shr(c)
  }

  function Steps(poly: bv32, c: bv32, n: nat): bv32
    decreases n
  {
    if n == 0 then c else Steps(poly, Step(poly, c), n - 1)
  }

  lemma StepLinear(poly: bv32, a: bv32, b: bv32)
    ensures Step(poly, Xor(a, b)) == Xor(Step(poly, a), Step(poly, b))
  {
    hide Xor, Shr, Odd;
    var x, y := Shr(a), Shr(b);
    ShrXor(a, b);
    OddXor(a, b);
    if Odd(a) && Odd(b) {
      XorComm(poly, x);
      XorAssoc(x, poly, Xor(poly, y));
      XorCancel(poly, y);
    } else if Odd(a) {
      XorAssoc(poly, x, y);
    } else if Odd(b) {
      XorComm(poly, y);
      XorAssoc(x, y, poly);
      XorComm(Xor(x, y), poly);
    }
  }

  lemma {:induction false} StepsLinear(poly: bv32, a: bv32, b: bv32, n: nat)
    ensures Steps(poly, Xor(a, b), n) == Xor(Steps(poly, a, n), Steps(poly, b, n))
    decreases n
  {
    hide Xor, Step;
    if n > 0 {
      StepLinear(poly, a, b);
      StepsLinear(poly, Step(poly, a), Step(poly, b), n - 1);
    }
  }

  lemma {:induction false} StepsAdd(poly: bv32, c: bv32, m: nat, n: nat)
    ensures Steps(poly, Steps(poly, c, m), n) == Steps(poly, c, m + n)
    decreases m
  {
    hide Step;
    if m > 0 {
      StepsAdd(poly, Step(poly, c), m - 1, n);
    }
  }

  predicate LowClear(c: bv32) { c & 0xff == 0 }

  lemma {:induction false} LowClearBits(c: bv32)
    requires c & 0xff == 0
    ensures c & 1 != 1 && (c >> 1) & 1 != 1 && (c >> 2) & 1 != 1 && (c >> 3) & 1 != 1
    ensures (c >> 4) & 1 != 1 && (c >> 5) & 1 != 1 && (c >> 6) & 1 != 1 && (c >> 7) & 1 != 1
  {
  }

  lemma ShiftsCompose(c: bv32)
    ensures c >> 1 >> 1 == c >> 2 && c >> 2 >> 1 == c >> 3 && c >> 3 >> 1 == c >> 4
    ensures c >> 4 >> 1 == c >> 5 && c >> 5 >> 1 == c >> 6 && c >> 6 >> 1 == c >> 7 && c >> 7 >> 1 == c >> 8
  {
  }

  /** A register whose low byte is clear only shifts. */
  lemma StepsShift(poly: bv32, c: bv32)
    requires LowClear(c)
    ensures Steps(poly, c, 8) == Shr8(c)
  {
    LowClearBits(c);
    ShiftsCompose(c);
    var c1, c2, c3, c4 := c >> 1, c >> 2, c >> 3, c >> 4;
    var c5, c6, c7, c8 := c >> 5, c >> 6, c >> 7, c >> 8;
    assert Step(poly, c) == c1 && Step(poly, c1) == c2 && Step(poly, c2) == c3 && Step(poly, c3) == c4;
    assert Step(poly, c4) == c5 && Step(poly, c5) == c6 && Step(poly, c6) == c7 && Step(poly, c7) == c8;
    UnrollEight(poly, c, c1, c2, c3, c4, c5, c6, c7);
  }

  lemma UnrollEight(poly: bv32, c: bv32, c1: bv32, c2: bv32, c3: bv32, c4: bv32, c5: bv32, c6: bv32, c7: bv32)
    requires Step(poly, c) == c1 && Step(poly, c1) == c2 && Step(poly, c2) == c3 && Step(poly, c3) == c4
    requires Step(poly, c4) == c5 && Step(poly, c5) == c6 && Step(poly, c6) == c7
    ensures Steps(poly, c, 8) == Step(poly, c7)
  {
    hide Step;
    assert Steps(poly, c, 8) == Steps(poly, c2, 6);
    assert Steps(poly, c2, 6) == Steps(poly, c4, 4);
    assert Steps(poly, c4, 4) == Steps(poly, c6, 2);
  }

  function High(c: bv32): bv32 { c & 0xffff_ff00 }

  lemma SplitLow(c: bv32)
    ensures c == Xor(Low(LowByte(c)), High(c))
  {
    assert c == (c & 0xff) ^ (c & 0xffff_ff00);
  }

  lemma HighShift(c: bv32)
    ensures LowClear(High(c))
    ensures Shr8(High(c)) == Shr8(c)
  {
  }

  /** Byte-wise advance: clock the low byte, shift the rest. */
  lemma StepsByte(poly: bv32, c: bv32)
    ensures Steps(poly, c, 8) == Xor(Steps(poly, Low(LowByte(c)), 8), Shr8(c))
  {
    hide *;
    SplitLow(c);
    HighShift(c);
    StepsLinear(poly, Low(LowByte(c)), High(c), 8);
    StepsShift(poly, High(c));
  }

  // ---------- serial form versus byte form ----------

  /** Feeding the message bits serially equals adding the byte first and clocking eight times. */
  lemma {:induction false} SerialByteIsSteps(poly: bv32, c: bv32, b: bv8, k: nat)
    requires k <= 8
    ensures SerialByte(poly, c, b, k) == Steps(poly, Xor(c, Low(Tail(b, k))), 8 - k)
    decreases 8 - k
  {
    hide Xor, Shr, Odd, Low, Tail;
    if k == 8 {
      TailEnds(b, c);
    } else {
      var t := Low(Tail(b, k));
      var next := Clock(poly, c, Odd(t));
      TailShift(b, k);
      ShrXor(c, t);
      OddXor(c, t);
      XorAssoc(poly, Shr(c), Shr(t));
      assert Step(poly, Xor(c, t)) == Xor(next, Low(Tail(b, k + 1)));
      SerialByteIsSteps(poly, next, b, k + 1);
    }
  }

  lemma SerialHead(poly: bv32, c: bv32, data: seq<bv8>)
    requires data != []
    ensures Serial(poly, c, data) == Serial(poly, Steps(poly, Xor(c, Low(data[0])), 8), data[1..])
  {
    hide Xor, Low, Tail;
    SerialByteIsSteps(poly, c, data[0], 0);
    TailEnds(data[0], c);
  }

  /** Chunking: a message may be fed in two pieces. */
  lemma {:induction false} SerialConcat(poly: bv32, c: bv32, a: seq<bv8>, b: seq<bv8>)
    ensures Serial(poly, c, a + b) == Serial(poly, Serial(poly, c, a), b)
    decreases |a|
  {
    hide SerialByte;
    if a == [] {
      assert a + b == b;
    } else {
      assert (a + b)[1..] == a[1..] + b;
      SerialConcat(poly, SerialByte(poly, c, a[0], 0), a[1..], b);
    }
  }

  /** Linearity in the register, with the message held fixed. */
  lemma {:induction false} SerialLinear(poly: bv32, x: bv32, y: bv32, data: seq<bv8>)
    ensures Serial(poly, Xor(x, y), data) == Xor(Steps(poly, x, 8 * |data|), Serial(poly, y, data))
    decreases |data|
  {
    hide Xor, Low, Step, SerialByte;
    if data != [] {
      var b := Low(data[0]);
      SerialHead(poly, Xor(x, y), data);
      SerialHead(poly, y, data);
      XorAssoc(x, y, b);
      StepsLinear(poly, x, Xor(y, b), 8);
      SerialLinear(poly, Steps(poly, x, 8), Steps(poly, Xor(y, b), 8), data[1..]);
      StepsAdd(poly, x, 8, 8 * |data[1..]|);
    }
  }

  function XorAll(a: seq<bv8>, b: seq<bv8>): (r: seq<bv8>)
    requires |a| == |b|
    ensures |r| == |a|
  {
    seq(|a|, i requires 0 <= i < |a| => a[i] ^ b[i])
  }

  lemma XorAllHead(a: seq<bv8>, b: seq<bv8>)
    requires |a| == |b| && a != []
    ensures Low(XorAll(a, b)[0]) == Xor(Low(a[0]), Low(b[0])) && XorAll(a, b)[1..] == XorAll(a[1..], b[1..])
  {
    LowXor(a[0], b[0]);
    hide Low, Xor;
    assert XorAll(a, b)[1..] == XorAll(a[1..], b[1..]);
  }

  lemma LowXor(a: bv8, b: bv8)
    ensures Low(a ^ b) == Xor(Low(a), Low(b))
  {
  }

  lemma XorSwap(a: bv32, b: bv32, c: bv32, d: bv32)
    ensures Xor(Xor(a, b), Xor(c, d)) == Xor(Xor(a, c), Xor(b, d))
  {
    hide Xor;
    XorComm(b, c);
    XorAssoc(a, b, Xor(c, d));
    XorAssoc(b, c, d);
    XorAssoc(c, b, d);
    XorAssoc(a, c, Xor(b, d));
  }

  /** Linearity in register and message together. */
  lemma {:induction false} SerialPairLinear(poly: bv32, x: bv32, y: bv32, a: seq<bv8>, b: seq<bv8>)
    requires |a| == |b|
    ensures Serial(poly, Xor(x, y), XorAll(a, b)) == Xor(Serial(poly, x, a), Serial(poly, y, b))
    decreases |a|
  {
    hide Xor, Low, Steps, SerialByte, XorAll;
    if a != [] {
      var c := XorAll(a, b);
      XorAllHead(a, b);
      SerialHead(poly, Xor(x, y), c);
      SerialHead(poly, x, a);
      SerialHead(poly, y, b);
      XorSwap(x, y, Low(a[0]), Low(b[0]));
      StepsLinear(poly, Xor(x, Low(a[0])), Xor(y, Low(b[0])), 8);
      SerialPairLinear(poly, Steps(poly, Xor(x, Low(a[0])), 8), Steps(poly, Xor(y, Low(b[0])), 8), a[1..], b[1..]);
    }
  }

  // ---------- the tables ----------

  /** Entry `b` of table `n`: the byte clocked through 8 * (n + 1) zero bits. */
  function Entry(poly: bv32, n: nat, b: bv8): bv32 {
    Steps(poly, Low(b), 8 * (n + 1))
  }

  ghost predicate IsTable(poly: bv32, t: array2<bv32>)
    reads t
  {
    && t.Length0 == 8 && t.Length1 == 256
    && forall n :: 0 <= n < 8 ==> IsRow(poly, t, n, 256)
  }

  /** The recurrence by which table n is filled from tables 0 and n - 1. */
  lemma EntryNext(poly: bv32, n: nat, b: bv8)
    requires n > 0
    ensures var c := Entry(poly, n - 1, b);
            Entry(poly, n, b) == Xor(Entry(poly, 0, LowByte(c)), Shr8(c))
  {
    hide Xor, Low, Step, LowByte, Shr8;
    var c := Entry(poly, n - 1, b);
    StepsAdd(poly, Low(b), 8 * n, 8);
    StepsByte(poly, c);
  }

  /** Table 0, one entry: the inner loop over eight bits. */
  method ClockEight(poly: bv32, i: bv32) returns (c: bv32)
    ensures c == Steps(poly, i, 8)
  {
    hide Xor, Shr, Odd;
    c := i;
    for j := 0 to 8
      invariant Steps(poly, c, 8 - j) == Steps(poly, i, 8)
    {
      c := if Odd(c) then Xor(poly, Shr(c)) else Shr(c);
    }
  }

  ghost predicate IsRow(poly: bv32, t: array2<bv32>, n: nat, upTo: int)
    requires t.Length0 == 8 && t.Length1 == 256 && n < 8
    reads t
  {
    forall b: bv8 {:trigger Entry(poly, n, b)} :: (b as int) < upTo ==> t[n, b as int] == Entry(poly, n, b)
  }

  lemma RowExtends(poly: bv32, t: array2<bv32>, n: nat, byte: bv8)
    requires t.Length0 == 8 && t.Length1 == 256 && n < 8
    requires IsRow(poly, t, n, byte as int)
    requires t[n, byte as int] == Entry(poly, n, byte)
    ensures IsRow(poly, t, n, byte as int + 1)
  {
    hide Entry;
    forall b: bv8 | b as int <= byte as int ensures t[n, b as int] == Entry(poly, n, b) {
      if b as int == byte as int { ByteIndexInjective(b, byte); }
    }
  }

  /** make_tables: every entry is the byte clocked through its zeros. */
  method MakeTables(poly: bv32) returns (t: array2<bv32>)
    ensures fresh(t) && IsTable(poly, t)
  {
    hide Xor, Low, Step, LowByte, Shr8, Steps, Entry;
    t := new bv32[8, 256];
    for i := 0 to 256
      invariant IsRow(poly, t, 0, i)
    {
      ByteIndex(i);
      ghost var byte := i as bv8;
      t[0, i] := ClockEight(poly, i as bv32);
      ByteWiden(i);
      FirstEntry(poly, byte, i as bv32);
      RowExtends(poly, t, 0, byte);
    }
    for n := 1 to 8
      invariant forall m :: 0 <= m < n ==> IsRow(poly, t, m, 256)
    {
      for i := 0 to 256
        invariant forall m :: 0 <= m < n ==> IsRow(poly, t, m, 256)
        invariant IsRow(poly, t, n, i)
      {
        ByteIndex(i);
        ghost var byte := i as bv8;
        var c := t[n - 1, i];
        assert IsRow(poly, t, n - 1, 256) && IsRow(poly, t, 0, 256);
        assert c == Entry(poly, n - 1, byte);
        EntryNext(poly, n, byte);
        assert t[0, LowByte(c) as int] == Entry(poly, 0, LowByte(c));
        label before:
        t[n, i] := Xor(t[0, LowByte(c) as int], Shr8(c));
        RowExtends(poly, t, n, byte);
        forall m | 0 <= m < n ensures IsRow(poly, t, m, 256) {
          assert old@before(IsRow(poly, t, m, 256));
        }
      }
    }
  }

  lemma FirstEntry(poly: bv32, b: bv8, c: bv32)
    requires c == b as bv32
    ensures Steps(poly, c, 8) == Entry(poly, 0, b)
  {
    hide Steps;
  }

  // ---------- slicing by eight ----------

  /** One byte peeled off: its table entry, plus the register shifted past it. */
  lemma SerialPeel(poly: bv32, c: bv32, data: seq<bv8>)
    requires data != []
    ensures Serial(poly, c, data) ==
      Xor(Entry(poly, |data| - 1, XorByte(LowByte(c), data[0])), Serial(poly, Shr8(c), data[1..]))
  {
    hide Xor, Low, Step, LowByte, Shr8, XorByte, High, LowClear, SerialByte;
    var q := XorByte(LowByte(c), data[0]);
    SerialHead(poly, c, data);
    PeelXor(c, data[0]);
    StepsLinear(poly, Low(q), High(c), 8);
    HighShift(c);
    StepsShift(poly, High(c));
    SerialLinear(poly, Steps(poly, Low(q), 8), Shr8(c), data[1..]);
    StepsAdd(poly, Low(q), 8, 8 * |data[1..]|);
  }

  lemma PeelXor(c: bv32, b: bv8)
    ensures Xor(c, Low(b)) == Xor(Low(XorByte(LowByte(c), b)), High(c))
  {
    assert c ^ (b as bv32) == ((((c & 0xff) as bv8) ^ b) as bv32) ^ (c & 0xffff_ff00);
  }

  /** load_le64. */
  function Load(b: seq<bv8>): bv64
    requires |b| == 8
  {
    (b[0] as bv64) | ((b[1] as bv64) << 8) | ((b[2] as bv64) << 16) | ((b[3] as bv64) << 24)
    | ((b[4] as bv64) << 32) | ((b[5] as bv64) << 40) | ((b[6] as bv64) << 48) | ((b[7] as bv64) << 56)
  }

  function Mixed(c: bv32, d: seq<bv8>): bv64
    requires |d| == 8
  {
    Load(d) ^ (c as bv64)
  }

  function LowIndex(q: bv64): bv8 { (q & 0xff) as bv8 }

  /** Byte `k` of q, as the program shifts it down. */
  function Index(q: bv64, k: nat): bv8
    requires k < 8
  {
    if k == 0 then LowIndex(q) else if k == 1 then LowIndex(q >> 8)
    else if k == 2 then LowIndex(q >> 16) else if k == 3 then LowIndex(q >> 24)
    else if k == 4 then LowIndex(q >> 32) else if k == 5 then LowIndex(q >> 40)
    else if k == 6 then LowIndex(q >> 48) else LowIndex(q >> 56)
  }

  lemma LowIndexOfByte(c: bv32, d: seq<bv8>)
    requires |d| == 8
    ensures var q := Load(d) ^ (c as bv64);
            && LowIndex(q) == XorByte(LowByte(c), d[0])
            && LowIndex(q >> 8) == XorByte(LowByte(Shr8(c)), d[1])
            && LowIndex(q >> 16) == XorByte(LowByte(Shr8(Shr8(c))), d[2])
            && LowIndex(q >> 24) == XorByte(LowByte(Shr8(Shr8(Shr8(c)))), d[3])
  {
  }

  lemma LowIndexOfHighByte(c: bv32, d: seq<bv8>)
    requires |d| == 8
    ensures var q := Load(d) ^ (c as bv64);
            && LowIndex(q >> 32) == XorByte(LowByte(0), d[4])
            && LowIndex(q >> 40) == XorByte(LowByte(0), d[5])
            && LowIndex(q >> 48) == XorByte(LowByte(0), d[6])
            && LowIndex(q >> 56) == XorByte(LowByte(0), d[7])
  {
  }

  lemma IndexOfByte(c: bv32, d: seq<bv8>)
    requires |d| == 8
    ensures var q := Mixed(c, d);
            && Index(q, 0) == XorByte(LowByte(c), d[0])
            && Index(q, 1) == XorByte(LowByte(Shr8(c)), d[1])
            && Index(q, 2) == XorByte(LowByte(Shr8(Shr8(c))), d[2])
            && Index(q, 3) == XorByte(LowByte(Shr8(Shr8(Shr8(c)))), d[3])
            && Index(q, 4) == XorByte(LowByte(0), d[4])
            && Index(q, 5) == XorByte(LowByte(0), d[5])
            && Index(q, 6) == XorByte(LowByte(0), d[6])
            && Index(q, 7) == XorByte(LowByte(0), d[7])
  {
    hide LowByte, XorByte, Shr8, Load, LowIndex;
    LowIndexOfByte(c, d);
    LowIndexOfHighByte(c, d);
  }

  lemma ShiftedOut(c: bv32)
    ensures Shr8(Shr8(Shr8(Shr8(c)))) == 0 && Shr8(0) == 0
  {
  }

  /** The exclusive or of eight table entries, in the order the program combines them. */
  function Combine(a: bv32, b: bv32, c: bv32, d: bv32, e: bv32, f: bv32, g: bv32, h: bv32): bv32 {
    Xor(Xor(Xor(Xor(Xor(Xor(Xor(a, b), c), d), e), f), g), h)
  }

  lemma XorZero(a: bv32)
    ensures Xor(a, 0) == a
  {
  }

  lemma CombineNested(a: bv32, b: bv32, c: bv32, d: bv32, e: bv32, f: bv32, g: bv32, h: bv32)
    ensures Xor(a, Xor(b, Xor(c, Xor(d, Xor(e, Xor(f, Xor(g, Xor(h, 0)))))))) == Combine(a, b, c, d, e, f, g, h)
  {
    hide Xor;
    XorZero(h);
    var r7 := Xor(g, h);
    var r6 := Xor(f, r7);
    var r5 := Xor(e, r6);
    var r4 := Xor(d, r5);
    var r3 := Xor(c, r4);
    XorAssoc(a, b, r3);
    var l2 := Xor(a, b);
    XorAssoc(l2, c, r4);
    var l3 := Xor(l2, c);
    XorAssoc(l3, d, r5);
    var l4 := Xor(l3, d);
    XorAssoc(l4, e, r6);
    var l5 := Xor(l4, e);
    XorAssoc(l5, f, r7);
    XorAssoc(Xor(l5, f), g, h);
  }

  /** The eight indices the program takes from q = load ^ register. */
  function Combined(poly: bv32, q: bv64): bv32 {
    Combine(Entry(poly, 7, Index(q, 0)), Entry(poly, 6, Index(q, 1)), Entry(poly, 5, Index(q, 2)),
            Entry(poly, 4, Index(q, 3)), Entry(poly, 3, Index(q, 4)), Entry(poly, 2, Index(q, 5)),
            Entry(poly, 1, Index(q, 6)), Entry(poly, 0, Index(q, 7)))
  }

  /** The eight lookups, indexed by bytes of the register and the data. */
  function Peeled(poly: bv32, c: bv32, d: seq<bv8>): bv32
    requires |d| == 8
  {
    var c1 := Shr8(c);
    var c2 := Shr8(c1);
    var c3 := Shr8(c2);
    Combine(Entry(poly, 7, XorByte(LowByte(c), d[0])), Entry(poly, 6, XorByte(LowByte(c1), d[1])),
            Entry(poly, 5, XorByte(LowByte(c2), d[2])), Entry(poly, 4, XorByte(LowByte(c3), d[3])),
            Entry(poly, 3, XorByte(LowByte(0), d[4])), Entry(poly, 2, XorByte(LowByte(0), d[5])),
            Entry(poly, 1, XorByte(LowByte(0), d[6])), Entry(poly, 0, XorByte(LowByte(0), d[7])))
  }

  lemma PeeledIsCombined(poly: bv32, c: bv32, d: seq<bv8>)
    requires |d| == 8
    ensures Peeled(poly, c, d) == Combined(poly, Mixed(c, d))
  {
    hide Xor, LowByte, Shr8, XorByte, Index, Load, Entry, Combine, Mixed;
    IndexOfByte(c, d);
  }

  /** Eight bytes at once: the eight table lookups give the serial register. */
  lemma SliceEight(poly: bv32, c: bv32, d: seq<bv8>)
    requires |d| == 8
    ensures Serial(poly, c, d) == Combined(poly, Mixed(c, d))
  {
    hide Xor, LowByte, Shr8, XorByte, Index, Load, Entry, SerialByte, Combine, Combined, Mixed;
    PeeledIsCombined(poly, c, d);
    ShiftedOut(c);
    var c1 := Shr8(c);
    var c2 := Shr8(c1);
    var c3 := Shr8(c2);
    SerialPeel(poly, c, d);
    SerialPeel(poly, c1, d[1..]);
    SerialPeel(poly, c2, d[2..]);
    SerialPeel(poly, c3, d[3..]);
    SerialPeel(poly, 0, d[4..]);
    SerialPeel(poly, 0, d[5..]);
    SerialPeel(poly, 0, d[6..]);
    SerialPeel(poly, 0, d[7..]);
    assert d[1..][1..] == d[2..] && d[2..][1..] == d[3..] && d[3..][1..] == d[4..] && d[4..][1..] == d[5..];
    assert d[5..][1..] == d[6..] && d[6..][1..] == d[7..] && d[7..][1..] == [];
    CombineNested(Entry(poly, 7, XorByte(LowByte(c), d[0])), Entry(poly, 6, XorByte(LowByte(c1), d[1])),
            Entry(poly, 5, XorByte(LowByte(c2), d[2])), Entry(poly, 4, XorByte(LowByte(c3), d[3])),
            Entry(poly, 3, XorByte(LowByte(0), d[4])), Entry(poly, 2, XorByte(LowByte(0), d[5])),
            Entry(poly, 1, XorByte(LowByte(0), d[6])), Entry(poly, 0, XorByte(LowByte(0), d[7])));
  }

  /** The one-byte tail step. */
  lemma TailByte(poly: bv32, c: bv32, b: bv8)
    ensures Serial(poly, c, [b]) == Xor(Entry(poly, 0, XorByte(LowByte(c), b)), Shr8(c))
  {
    hide Xor, LowByte, Shr8, XorByte, Entry, SerialByte;
    SerialPeel(poly, c, [b]);
    assert [b][1..] == [];
  }

  /** One iteration of the eight-byte loop: eight lookups combined. */
  method Lookup(q: bv64, ghost poly: bv32, t: array2<bv32>) returns (c: bv32)
    requires IsTable(poly, t)
    ensures c == Combined(poly, q)
  {
    hide Entry, Index, Xor, Combine;
    assert IsRow(poly, t, 7, 256) && IsRow(poly, t, 6, 256) && IsRow(poly, t, 5, 256) && IsRow(poly, t, 4, 256);
    assert IsRow(poly, t, 3, 256) && IsRow(poly, t, 2, 256) && IsRow(poly, t, 1, 256) && IsRow(poly, t, 0, 256);
    c := Combine(t[7, Index(q, 0) as int], t[6, Index(q, 1) as int], t[5, Index(q, 2) as int],
                 t[4, Index(q, 3) as int], t[3, Index(q, 4) as int], t[2, Index(q, 5) as int],
                 t[1, Index(q, 6) as int], t[0, Index(q, 7) as int]);
  }

  /** run: eight bytes per step, then the rest byte by byte, equals the serial register. */
  method Run(data: seq<bv8>, seed: bv32, ghost poly: bv32, t: array2<bv32>) returns (c: bv32)
    requires IsTable(poly, t)
    ensures c == Serial(poly, seed, data)
  {
    hide Xor, LowByte, Shr8, XorByte, Index, Load, Entry, Serial, Combined, Mixed;
    c := seed;
    var p := 0;
    assert data[..0] == [];
    SerialNil(poly, seed);
    while |data| - p >= 8
      invariant 0 <= p <= |data|
      invariant c == Serial(poly, seed, data[..p])
    {
      var d := data[p..p + 8];
      SliceEight(poly, c, d);
      SerialConcat(poly, seed, data[..p], d);
      assert data[..p] + d == data[..p + 8];
      c := Lookup(Mixed(c, d), poly, t);
      p := p + 8;
    }
    while p < |data|
      invariant 0 <= p <= |data|
      invariant c == Serial(poly, seed, data[..p])
    {
      var q := XorByte(LowByte(c), data[p]);
      TailByte(poly, c, data[p]);
      SerialConcat(poly, seed, data[..p], [data[p]]);
      assert data[..p] + [data[p]] == data[..p + 1];
      assert IsRow(poly, t, 0, 256);
      assert t[0, q as int] == Entry(poly, 0, q);
      c := Xor(t[0, q as int], Shr8(c));
      p := p + 1;
    }
    assert data[..p] == data;
  }

  lemma SerialNil(poly: bv32, c: bv32)
    ensures Serial(poly, c, []) == c
  {
  }

  // ---------- check values ----------

  const DIGITS: seq<bv8> := [49, 50, 51, 52, 53, 54, 55, 56, 57]

  function Eight(poly: bv32, c: bv32): bv32 {
    var x := Step(poly, Step(poly, Step(poly, Step(poly, c))));
    Step(poly, Step(poly, Step(poly, Step(poly, x))))
  }

  lemma EightSteps(poly: bv32, c: bv32)
    ensures Steps(poly, c, 8) == Eight(poly, c)
  {
    hide Step;
    var x := Step(poly, Step(poly, Step(poly, Step(poly, c))));
    assert Steps(poly, c, 8) == Steps(poly, Step(poly, Step(poly, c)), 6) == Steps(poly, x, 4);
    assert Steps(poly, x, 4) == Steps(poly, Step(poly, Step(poly, x)), 2);
  }

  /** The register `next` after the first byte `b`. */
  lemma OneByte(poly: bv32, c: bv32, b: bv8, next: bv32, data: seq<bv8>)
    requires data != [] && data[0] == b && Eight(poly, Xor(c, Low(b))) == next
    ensures Serial(poly, c, data) == Serial(poly, next, data[1..])
  {
    hide Xor, Low, Eight;
    SerialHead(poly, c, data);
    EightSteps(poly, Xor(c, Low(b)));
  }

  /** The check value of CRC-32: the checksum of the digits 1 to 9. */
  lemma IeeeCheckValue()
    ensures Serial(IEEE, 0xffff_ffff, DIGITS) ^ 0xffff_ffff == 0xcbf4_3926
  {
    hide Serial, Steps, SerialByte;
    OneByte(IEEE, 0xffff_ffff, 49, 0x7c23_1048, DIGITS[0..]);
    OneByte(IEEE, 0x7c23_1048, 50, 0xb0ac_bb32, DIGITS[1..]);
    OneByte(IEEE, 0xb0ac_bb32, 51, 0x77b7_9c2d, DIGITS[2..]);
    OneByte(IEEE, 0x77b7_9c2d, 52, 0x641c_1f5c, DIGITS[3..]);
    OneByte(IEEE, 0x641c_1f5c, 53, 0x340a_c5e3, DIGITS[4..]);
    OneByte(IEEE, 0x340a_c5e3, 54, 0xf68d_2c9e, DIGITS[5..]);
    OneByte(IEEE, 0xf68d_2c9e, 55, 0xaffc_9660, DIGITS[6..]);
    OneByte(IEEE, 0xaffc_9660, 56, 0x651f_2550, DIGITS[7..]);
    OneByte(IEEE, 0x651f_2550, 57, 0x340b_c6d9, DIGITS[8..]);
    SerialNil(IEEE, 0x340b_c6d9);
    assert DIGITS[9..] == [] && DIGITS[0..] == DIGITS;
  }

  /** The check value of CRC32C: the checksum of the digits 1 to 9. */
  lemma CastagnoliCheckValue()
    ensures Crc32c(DIGITS) == 0xe306_9283
  {
    hide Serial, Steps, SerialByte;
    OneByte(CASTAGNOLI, 0xffff_ffff, 49, 0x6f0a_661c, DIGITS[0..]);
    OneByte(CASTAGNOLI, 0x6f0a_661c, 50, 0x8caa_3b9f, DIGITS[1..]);
    OneByte(CASTAGNOLI, 0x8caa_3b9f, 51, 0xef84_d04d, DIGITS[2..]);
    OneByte(CASTAGNOLI, 0xef84_d04d, 52, 0x09c5_0b11, DIGITS[3..]);
    OneByte(CASTAGNOLI, 0x09c5_0b11, 53, 0xe72e_dcca, DIGITS[4..]);
    OneByte(CASTAGNOLI, 0xe72e_dcca, 54, 0xbeca_8e79, DIGITS[5..]);
    OneByte(CASTAGNOLI, 0xbeca_8e79, 55, 0xedbd_6815, DIGITS[6..]);
    OneByte(CASTAGNOLI, 0xedbd_6815, 56, 0x9f78_7f65, DIGITS[7..]);
    OneByte(CASTAGNOLI, 0x9f78_7f65, 57, 0x1cf9_6d7c, DIGITS[8..]);
    SerialNil(CASTAGNOLI, 0x1cf9_6d7c);
    assert DIGITS[9..] == [] && DIGITS[0..] == DIGITS;
  }

  // ---------- checksums of ranges read in pieces ----------

  /** The finished CRC32C of a byte string, as stored in records and headers. */
  function Crc32c(data: seq<bv8>): bv32 {
    Serial(CASTAGNOLI, 0xffff_ffff, data) ^ 0xffff_ffff
  }

  /**
   extent_crc, copy_one and verify_one checksum a range through a bounded buffer and carry the
   register across reads. The buffer sizes differ between staging and commit; the result does not.
   */
  method ChunkedCrc32c(data: seq<bv8>, chunk: nat, t: array2<bv32>) returns (r: bv32)
    requires chunk > 0 && IsTable(CASTAGNOLI, t)
    ensures r == Crc32c(data)
  {
    hide Serial;
    var done := 0;
    var c: bv32 := 0xffff_ffff;
    assert data[..0] == [];
    SerialNil(CASTAGNOLI, c);
    while done < |data|
      invariant 0 <= done <= |data|
      invariant c == Serial(CASTAGNOLI, 0xffff_ffff, data[..done])
    {
      var n := if chunk < |data| - done then chunk else |data| - done;
      SerialConcat(CASTAGNOLI, 0xffff_ffff, data[..done], data[done..done + n]);
      assert data[..done] + data[done..done + n] == data[..done + n];
      c := Run(data[done..done + n], c, CASTAGNOLI, t);
      done := done + n;
    }
    assert data[..done] == data;
    r := c ^ 0xffff_ffff;
  }
}
