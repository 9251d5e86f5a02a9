/** Little-endian fields in byte buffers (include/fsx/endian.hpp). */
module Endian {
  import opened Arithmetic

  type byte = x: int | 0 <= x < 256

  type u32 = x: int | 0 <= x < 0x1_0000_0000

  type u64 = x: int | 0 <= x < 0x1_0000_0000_0000_0000

  function Pow256(n: nat): (r: nat)
    ensures r > 0
  {
    if n == 0 then 1 else 256 * Pow256(n - 1)
  }

  /** The low `n` bytes of `v`, least significant first. */
  function LE(v: nat, n: nat): (r: seq<byte>)
    ensures |r| == n
  {
    if n == 0 then [] else [v % 256] + LE(v / 256, n - 1)
  }

  function Num(b: seq<byte>): nat {
    if b == [] then 0 else b[0] + 256 * Num(b[1..])
  }

  /** Byte `k` is the k-th digit to base 256, the least significant first. */
  lemma {:induction false} LEByte(v: nat, n: nat, k: nat)
    requires k < n
    ensures LE(v, n)[k] == v / Pow256(k) % 256
    decreases n
  {
    if k > 0 {
      LEByte(v / 256, n - 1, k - 1);
      DivTwice(v, 256, Pow256(k - 1));
    } else {
      assert Pow256(0) == 1;
    }
  }

  lemma DivTwice(v: nat, a: nat, b: nat)
    requires a > 0 && b > 0
    ensures a * b > 0 && v / (a * b) == v / a / b
  {
    var q := v / a / b;
    var r := v / a % b;
    assert v / a == q * b + r;
    assert v == (q * b + r) * a + v % a;
    assert (q * b + r) * a == q * (a * b) + r * a by { Spread(q, b, r, a); }
    assert r * a + v % a < a * b by { Below(r, b, v % a, a); }
    DivMod(q, a * b, r * a + v % a);
  }

  lemma Spread(q: nat, b: nat, r: nat, a: nat)
    ensures (q * b + r) * a == q * (a * b) + r * a
  {
  }

  lemma Below(r: nat, b: nat, x: nat, a: nat)
    requires r < b && x < a
    ensures r * a + x < a * b
  {
    assert (b - 1 - r) * a >= 0;
    assert r * a + a <= b * a;
  }

  lemma {:induction false} NumLE(v: nat, n: nat)
    requires v < Pow256(n)
    ensures Num(LE(v, n)) == v
    decreases n
  {
    if n > 0 {
      NumLE(v / 256, n - 1);
      assert LE(v, n)[1..] == LE(v / 256, n - 1);
    }
  }

  lemma {:induction false} LENum(b: seq<byte>)
    ensures Num(b) < Pow256(|b|) && LE(Num(b), |b|) == b
    decreases |b|
  {
    if b != [] {
      LENum(b[1..]);
      var v := Num(b);
      assert v / 256 == Num(b[1..]) && v % 256 == b[0];
      assert b == [b[0]] + b[1..];
    }
  }

  lemma Widths()
    ensures Pow256(4) == 0x1_0000_0000 && Pow256(8) == 0x1_0000_0000_0000_0000
  {
    assert Pow256(2) == 0x1_0000;
    assert Pow256(4) == 0x1_0000_0000;
    assert Pow256(6) == 0x1_0000_0000_0000;
  }

  function Num32(b: seq<byte>): (r: u32)
    requires |b| == 4
  {
    LENum(b);
    Widths();
    Num(b)
  }

  function Num64(b: seq<byte>): (r: u64)
    requires |b| == 8
  {
    LENum(b);
    Widths();
    Num(b)
  }

  /** A field read back is the value written. */
  lemma FieldReads(a: u32, b: u64)
    ensures Num32(LE(a, 4)) == a && Num64(LE(b, 8)) == b
  {
    Widths();
    NumLE(a, 4);
    NumLE(b, 8);
  }

  // ---------- buffers ----------

  function Zeros(n: nat): (r: seq<byte>)
    ensures |r| == n && forall i :: 0 <= i < n ==> r[i] == 0
  {
    seq(n, i => 0)
  }

  datatype Field = Field(off: nat, bytes: seq<byte>)

  function Put(b: seq<byte>, f: Field): (r: seq<byte>)
    requires f.off + |f.bytes| <= |b|
    ensures |r| == |b|
  {
    b[..f.off] + f.bytes + b[f.off + |f.bytes|..]
  }

  predicate Inside(n: nat, fs: seq<Field>) {
    forall i :: 0 <= i < |fs| ==> fs[i].off + |fs[i].bytes| <= n
  }

  /** Fields in increasing order that do not overlap. */
  predicate Ascending(fs: seq<Field>) {
    forall i, j :: 0 <= i < j < |fs| ==> fs[i].off + |fs[i].bytes| <= fs[j].off
  }

  /** Each field ends before the next begins. */
  predicate Stepping(fs: seq<Field>) {
    forall i :: 0 <= i < |fs| - 1 ==> fs[i].off + |fs[i].bytes| <= fs[i + 1].off
  }

  lemma SteppingAscends(fs: seq<Field>)
    requires Stepping(fs)
    ensures Ascending(fs)
  {
    forall i, j | 0 <= i < j < |fs| ensures fs[i].off + |fs[i].bytes| <= fs[j].off {
      StepsUp(fs, i, j);
    }
  }

  lemma {:induction false} StepsUp(fs: seq<Field>, i: nat, j: nat)
    requires Stepping(fs) && i < j < |fs|
    ensures fs[i].off + |fs[i].bytes| <= fs[j].off
    decreases j
  {
    if i < j - 1 {
      StepsUp(fs, i, j - 1);
      assert fs[j - 1].off + |fs[j - 1].bytes| <= fs[j - 1 + 1].off;
    }
  }

  function PutAll(b: seq<byte>, fs: seq<Field>): (r: seq<byte>)
    requires Inside(|b|, fs)
    ensures |r| == |b|
  {
    if fs == [] then b else Put(PutAll(b, fs[..|fs| - 1]), fs[|fs| - 1])
  }

  lemma PutReads(b: seq<byte>, f: Field)
    requires f.off + |f.bytes| <= |b|
    ensures Put(b, f)[f.off..f.off + |f.bytes|] == f.bytes
  {
  }

  lemma PutElsewhere(b: seq<byte>, f: Field, off: nat, n: nat)
    requires f.off + |f.bytes| <= |b| && off + n <= |b| && (off + n <= f.off || f.off + |f.bytes| <= off)
    ensures Put(b, f)[off..off + n] == b[off..off + n]
  {
    var r := Put(b, f);
    forall i | off <= i < off + n ensures r[i] == b[i] { }
  }

  /** Overwriting a field twice keeps the second value. */
  lemma PutTwice(b: seq<byte>, f: Field, g: Field)
    requires f.off + |f.bytes| <= |b| && g.off == f.off && |g.bytes| == |f.bytes|
    ensures Put(Put(b, f), g) == Put(b, g)
  {
    var x, y := Put(Put(b, f), g), Put(b, g);
    forall i | 0 <= i < |b| ensures x[i] == y[i] { }
  }

  lemma {:induction false} PutAllReads(b: seq<byte>, fs: seq<Field>, k: nat)
    requires Inside(|b|, fs) && Ascending(fs) && k < |fs|
    ensures PutAll(b, fs)[fs[k].off..fs[k].off + |fs[k].bytes|] == fs[k].bytes
    decreases |fs|
  {
    hide Put;
    var n := |fs| - 1;
    var init := fs[..n];
    if k == n {
      PutReads(PutAll(b, init), fs[n]);
    } else {
      PutAllReads(b, init, k);
      assert init[k] == fs[k];
      PutElsewhere(PutAll(b, init), fs[n], fs[k].off, |fs[k].bytes|);
    }
  }

  /** Bytes no field covers stay as they were. */
  lemma {:induction false} PutAllKeeps(b: seq<byte>, fs: seq<Field>, off: nat, n: nat)
    requires Inside(|b|, fs) && off + n <= |b|
    requires forall i :: 0 <= i < |fs| ==> off + n <= fs[i].off || fs[i].off + |fs[i].bytes| <= off
    ensures PutAll(b, fs)[off..off + n] == b[off..off + n]
    decreases |fs|
  {
    hide Put;
    if fs != [] {
      var k := |fs| - 1;
      PutAllKeeps(b, fs[..k], off, n);
      PutElsewhere(PutAll(b, fs[..k]), fs[k], off, n);
    }
  }

  /** What follows the checksum field is unchanged too. */
  lemma SealedAfter(body: seq<byte>, off: nat, c: u32)
    requires off + 4 <= |body|
    ensures Put(body, Field(off, LE(c, 4)))[off + 4..] == body[off + 4..] && Put(body, Field(off, LE(c, 4)))[off..off + 4] == LE(c, 4)
  {
    hide LE;
  }

  /** The bytes with the four at `off` cleared, as a checksum of the whole buffer sees them. */
  function Cleared(b: seq<byte>, off: nat): (r: seq<byte>)
    requires off + 4 <= |b|
    ensures |r| == |b| && forall i :: 0 <= i < |b| ==> r[i] == if off <= i < off + 4 then 0 else b[i]
  {
    seq(|b|, i requires 0 <= i < |b| => if off <= i < off + 4 then 0 else b[i])
  }

  lemma ClearedIsPut(b: seq<byte>, off: nat)
    requires off + 4 <= |b|
    ensures Put(b, Field(off, LE(0, 4))) == Cleared(b, off)
  {
    var z := LE(0, 4);
    assert z == [0, 0, 0, 0] by { ZeroBytes(); }
    hide LE;
    var r := Put(b, Field(off, z));
    forall i | 0 <= i < |b| ensures r[i] == Cleared(b, off)[i] { }
  }

  lemma ZeroBytes()
    ensures LE(0, 4) == [0, 0, 0, 0]
  {
    assert LE(0, 2) == [0, 0];
  }

  /** Where the checksum field goes: everything before it is unchanged, and clearing it gives the body back. */
  lemma Sealed(body: seq<byte>, off: nat, c: u32)
    requires off + 4 <= |body| && body[off..off + 4] == LE(0, 4)
    ensures var r := Put(body, Field(off, LE(c, 4)));
      && Num32(r[off..off + 4]) == c && Put(r, Field(off, LE(0, 4))) == body
      && (forall a, b :: 0 <= a <= b <= off ==> r[a..b] == body[a..b])
  {
    hide Put, LE;
    var f := Field(off, LE(c, 4));
    var r := Put(body, f);
    PutReads(body, f);
    FieldReads(c, 0);
    PutTwice(body, f, Field(off, LE(0, 4)));
    PutSame(body, Field(off, LE(0, 4)));
    forall a, b | 0 <= a <= b <= off ensures r[a..b] == body[a..b] {
      PutElsewhere(body, f, a, b - a);
    }
  }

  lemma PutSame(body: seq<byte>, f: Field)
    requires f.off + |f.bytes| <= |body| && body[f.off..f.off + |f.bytes|] == f.bytes
    ensures Put(body, f) == body
  {
  }
}
