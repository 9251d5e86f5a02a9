/**
 The windowed FAT reader and the reference check of src/fs/fat.cpp.

 The allocation table is read as one little-endian number whose digits, in base 2^12, 2^16 or 2^32,
 are the entries; the reader sees it through a 4 MiB window.
 */
module Fat {
  import opened Endian
  import opened Arithmetic

  datatype Kind = Fat12 | Fat16 | Fat32

  function Base(k: Kind): nat {
    match k case Fat12 => 0x1000 case Fat16 => 0x1_0000 case Fat32 => 0x1_0000_0000
  }

  /** Entry `c` of the table: digit `c` of the number; FAT32 keeps the low 28 bits. */
  function Entry(fat: seq<byte>, k: Kind, c: nat): nat {
    var digit := Num(fat) / Pow(Base(k), c) % Base(k);
    if k == Fat32 then digit % 0x1000_0000 else digit
  }

  // ---------- where an entry is ----------

  function Offset(k: Kind, c: nat): nat {
    match k case Fat12 => c + c / 2 case Fat16 => c * 2 case Fat32 => c * 4
  }

  function Need(k: Kind): nat {
    if k == Fat32 then 4 else 2
  }

  function At(b: seq<byte>, i: nat): nat
    requires i < |b|
  {
    b[i]
  }

  /** Decoding an entry from the bytes at its offset. */
  function Decode(b: seq<byte>, k: Kind, c: nat): nat
    requires |b| == Need(k)
  {
    match k
    case Fat12 =>
      var pair := At(b, 0) + 256 * At(b, 1);
      if c % 2 == 1 then pair / 16 else pair % 0x1000
    case Fat16 => At(b, 0) + 256 * At(b, 1)
    case Fat32 => (At(b, 0) + 256 * At(b, 1) + 0x1_0000 * At(b, 2) + 0x100_0000 * At(b, 3)) % 0x1000_0000
  }

  lemma {:induction false} NumSplit(b: seq<byte>, k: nat)
    requires k <= |b|
    ensures Num(b) == Num(b[..k]) + Pow256(k) * Num(b[k..])
    decreases k
  {
    if k == 0 {
      assert b[0..] == b;
    } else {
      var t := b[1..];
      NumSplit(t, k - 1);
      assert b[..k][1..] == t[..k - 1] && t[k - 1..] == b[k..];
      assert b[..k][0] == b[0];
      Distribute(Num(t[..k - 1]), Pow256(k - 1), Num(b[k..]));
    }
  }

  lemma Distribute(x: nat, p: nat, y: nat)
    ensures 256 * (x + p * y) == 256 * x + (256 * p) * y
  {
  }

  /** Dropping the low `k` bytes is dividing by 256^k. */
  lemma NumShift(b: seq<byte>, k: nat)
    requires k <= |b|
    ensures Num(b) / Pow256(k) == Num(b[k..])
  {
    hide Num, Pow256;
    NumSplit(b, k);
    LENum(b[..k]);
    Commute(Pow256(k), Num(b[k..]));
    DivMod(Num(b[k..]), Pow256(k), Num(b[..k]));
  }

  lemma Commute(a: nat, b: nat)
    ensures a * b == b * a
  {
  }

  /** Entry `c` begins 256^Offset up, and for odd FAT12 entries four bits more. */
  lemma {:induction false} BasePower(k: Kind, c: nat)
    ensures Pow(Base(k), c) == Pow256(Offset(k, c)) * if k == Fat12 && c % 2 == 1 then 16 else 1
    decreases c
  {
    match k
    case Fat12 =>
      if c >= 2 {
        BasePower(k, c - 2);
        assert Offset(k, c) == Offset(k, c - 2) + 3;
        ThreeBytes(c);
      }
    case Fat16 => if c > 0 { BasePower(k, c - 1); }
    case Fat32 =>
      if c > 0 {
        BasePower(k, c - 1);
        FourBytes(Offset(k, c - 1));
      }
  }

  lemma FourBytes(n: nat)
    ensures Pow256(n + 4) == 0x1_0000_0000 * Pow256(n)
  {
    assert Pow256(n + 4) == 256 * Pow256(n + 3) && Pow256(n + 3) == 256 * Pow256(n + 2);
    assert Pow256(n + 2) == 256 * Pow256(n + 1) && Pow256(n + 1) == 256 * Pow256(n);
  }

  /** Two 12-bit digits are three bytes. */
  lemma ThreeBytes(c: nat)
    requires c >= 2
    ensures Pow(0x1000, c) == 0x100_0000 * Pow(0x1000, c - 2)
    ensures Pow256(Offset(Fat12, c - 2) + 3) == 0x100_0000 * Pow256(Offset(Fat12, c - 2))
  {
    var n := Offset(Fat12, c - 2);
    assert Pow(0x1000, c) == 0x1000 * Pow(0x1000, c - 1) && Pow(0x1000, c - 1) == 0x1000 * Pow(0x1000, c - 2);
    assert Pow256(n + 3) == 256 * Pow256(n + 2) && Pow256(n + 2) == 256 * Pow256(n + 1) && Pow256(n + 1) == 256 * Pow256(n);
  }

  /** Dividing by `a` and then by 16. */
  lemma DivSixteen(n: nat, a: nat)
    requires a > 0
    ensures n / (a * 16) == n / a / 16
  {
    var q, r := n / a, n % a;
    var s, t := q / 16, q % 16;
    assert n == q * a + r && q == s * 16 + t;
    Spread(s, t, a);
    Monotone(t + 1, 16, a);
    Spread(0, t + 1, a);
    assert (t + 1) * a == t * a + a;
    DivMod(s, a * 16, t * a + r);
  }

  lemma Spread(s: nat, t: nat, a: nat)
    ensures (s * 16 + t) * a == s * (a * 16) + t * a
  {
  }

  /** The bytes at the offset of an entry decode to it, for every entry inside the table. */
  lemma DecodeIsEntry(fat: seq<byte>, k: Kind, c: nat)
    requires Offset(k, c) + Need(k) <= |fat|
    ensures Decode(fat[Offset(k, c)..Offset(k, c) + Need(k)], k, c) == Entry(fat, k, c)
  {
    hide Num, Pow256;
    var off, n := Offset(k, c), Need(k);
    var tail, b := fat[off..], fat[off..off + n];
    BasePower(k, c);
    NumShift(fat, off);
    NumSplit(tail, n);
    assert tail[..n] == b;
    var rest := Num(tail[n..]);
    Digits(b, n);
    if k == Fat12 {
      if c % 2 == 1 { DivSixteen(Num(fat), Pow256(off)); }
      LowDigits(Num(b), rest);
    } else if k == Fat16 {
      LowPart(Num(b), rest, 0x1_0000);
    } else {
      LowPart(Num(b), rest, 0x1_0000_0000);
    }
  }

  lemma Digits(b: seq<byte>, n: nat)
    requires |b| == n && (n == 2 || n == 4)
    ensures n == 2 ==> Num(b) == At(b, 0) + 256 * At(b, 1) && Pow256(n) == 0x1_0000
    ensures n == 4 ==> Num(b) == At(b, 0) + 256 * At(b, 1) + 0x1_0000 * At(b, 2) + 0x100_0000 * At(b, 3) && Pow256(n) == 0x1_0000_0000
    ensures Num(b) < Pow256(n)
  {
    LENum(b);
    Widths();
    assert Pow256(2) == 256 * Pow256(1) && Pow256(1) == 256 * Pow256(0);
    var t := b[1..];
    assert Num(b) == b[0] + 256 * Num(t) && t[0] == b[1];
    var u := t[1..];
    assert Num(t) == t[0] + 256 * Num(u);
    if n == 2 {
      assert u == [];
    } else {
      var v := u[1..];
      assert u[0] == b[2] && Num(u) == u[0] + 256 * Num(v);
      assert v[0] == b[3] && v[1..] == [] && Num(v) == v[0] + 256 * Num(v[1..]);
    }
  }

  lemma LowPart(x: nat, rest: nat, m: nat)
    requires x < m
    ensures (x + m * rest) % m == x
  {
    Commute(m, rest);
    DivMod(rest, m, x);
  }

  lemma LowDigits(x: nat, rest: nat)
    requires x < 0x1_0000
    ensures (x + 0x1_0000 * rest) % 0x1000 == x % 0x1000
    ensures (x + 0x1_0000 * rest) / 16 % 0x1000 == x / 16
  {
    var y := x + 0x1_0000 * rest;
    assert y == (16 * rest + x / 0x1000) * 0x1000 + x % 0x1000;
    DivMod(16 * rest + x / 0x1000, 0x1000, x % 0x1000);
    assert y == (0x1000 * rest + x / 16) * 16 + x % 16;
    DivMod(0x1000 * rest + x / 16, 16, x % 16);
    LowPart(x / 16, rest, 0x1000);
  }

  // ---------- the window ----------

  datatype Lookup = Found(value: nat) | Ended | ReadFailed

  const CHUNK: nat := 4 * 1024 * 1024
  /** What the reader answers from a buffer that claims to hold the window at `windowOff`. */
  function Answer(buffer: seq<byte>, k: Kind, windowOff: nat, c: nat): nat
    requires windowOff <= Offset(k, c) && Offset(k, c) - windowOff + Need(k) <= |buffer|
  {
    Decode(buffer[Offset(k, c) - windowOff..Offset(k, c) - windowOff + Need(k)], k, c)
  }

  /** The buffer after a failed read has left `junk` at its beginning. */
  function Overlay(buffer: seq<byte>, junk: seq<byte>, n: nat): (r: seq<byte>)
    requires n <= |buffer|
    ensures |r| == |buffer|
  {
    seq(|buffer|, i requires 0 <= i < |buffer| => if i < n && i < |junk| then junk[i] else buffer[i])
  }

  class FatStream {
    const fat: seq<byte>
    const kind: Kind
    const buffer: array<byte>
    var windowOff: nat
    var windowValid: nat
    /** The last read of the window failed. */
    ghost var stale: bool

    constructor (fat: seq<byte>, kind: Kind)
      requires |fat| < MAX64
      ensures this.fat == fat && this.kind == kind && Shaped() && !stale && fresh(buffer)
      ensures forall i :: 0 <= i < buffer.Length ==> buffer[i] == 0
      ensures windowValid == 0
    {
      this.fat, this.kind := fat, kind;
      buffer := new byte[CHUNK + 8](i => 0);
      windowOff, windowValid := MAX64, 0;
      stale := false;
    }

    /** The window lies in the table, and unless its read failed it holds what the table holds there. */
    ghost predicate Shaped()
      reads this, buffer
    {
      && buffer.Length == CHUNK + 8 && |fat| < MAX64 && windowValid <= buffer.Length
      && ((windowOff == MAX64 && windowValid == 0) || windowOff + windowValid <= |fat|)
      && (!stale && windowValid > 0 ==> buffer[..windowValid] == fat[windowOff..windowOff + windowValid])
    }

    /** The entry lies inside the window. */
    predicate Inside(c: nat)
      reads this
    {
      Offset(kind, c) >= windowOff && Offset(kind, c) + Need(kind) <= windowOff + windowValid
    }

    /** read_exact: a failed read may have left anything at the beginning of the buffer. */
    method Fill(readOk: bool, junk: seq<byte>)
      requires buffer.Length == CHUNK + 8 && windowValid <= buffer.Length && windowOff + windowValid <= |fat| && |fat| < MAX64
      modifies buffer, this`stale
      ensures Shaped() && stale == !readOk
      ensures !readOk ==> buffer[..] == Overlay(old(buffer[..]), junk, windowValid)
    {
      stale := !readOk;
      if readOk {
        for i := 0 to windowValid
          invariant stale == !readOk
          invariant forall k :: 0 <= k < i ==> buffer[k] == fat[windowOff + k]
        {
          buffer[i] := fat[windowOff + i];
        }
      } else {
        var n := if |junk| < windowValid then |junk| else windowValid;
        for i := 0 to n
          invariant stale == !readOk
          invariant forall k :: 0 <= k < buffer.Length ==> buffer[k] == if k < i then junk[k] else old(buffer[k])
        {
          buffer[i] := junk[i];
        }
      }
    }

    /** Move the window to the chunk of `off`; it is marked valid before it is read. */
    method Refill(off: nat, need: nat, readOk: bool, junk: seq<byte>)
      requires Shaped() && need <= 4 && off + need <= |fat|
      modifies this, buffer
      ensures Shaped() && stale == !readOk
      ensures windowOff <= off && off + need <= windowOff + windowValid
      ensures !readOk ==> buffer[..] == Overlay(old(buffer[..]), junk, windowValid)
    {
      WindowHolds(off, need, |fat|);
      windowOff := off / CHUNK * CHUNK;
      windowValid := if buffer.Length < |fat| - windowOff then buffer.Length else |fat| - windowOff;
      Fill(readOk, junk);
    }

    /**
     get, with what the device does if it is read. The answer is the entry itself, whichever side of
     a window edge it lies on, except when it comes from a window whose read had failed: then it is
     whatever the buffer was left with.
     */
    method Get(c: nat, readOk: bool, junk: seq<byte>) returns (r: Lookup)
      requires Shaped()
      modifies this, buffer
      ensures Shaped()
      ensures r == Ended <==> Offset(kind, c) + Need(kind) > |fat|
      ensures r == ReadFailed <==> r != Ended && !old(Inside(c)) && !readOk
      ensures stale == if r == Ended || old(Inside(c)) then old(stale) else !readOk
      ensures r.Found? && !(old(stale) && old(Inside(c))) ==> r.value == Entry(fat, kind, c)
      ensures r.Found? && old(Inside(c)) ==> r.value == Answer(old(buffer[..]), kind, old(windowOff), c)
      ensures r == ReadFailed ==> Inside(c) && buffer[..] == Overlay(old(buffer[..]), junk, windowValid)
    {
      hide Entry, Decode;
      var off, need := Offset(kind, c), Need(kind);
      if off > |fat| || need > |fat| - off { return Ended; }
      if !(off >= windowOff && off + need <= windowOff + windowValid) {
        Refill(off, need, readOk, junk);
        if !readOk { return ReadFailed; }
      }
      var i := off - windowOff;
      if !stale { SameBytes(buffer[..], fat, windowOff, windowValid, i, need); }
      DecodeIsEntry(fat, kind, c);
      assert buffer[..][i..i + need] == buffer[i..i + need];
      r := Found(Decode(buffer[i..i + need], kind, c));
    }
  }

  lemma SameBytes(buffer: seq<byte>, fat: seq<byte>, w: nat, n: nat, i: nat, need: nat)
    requires n <= |buffer| && w + n <= |fat| && buffer[..n] == fat[w..w + n] && i + need <= n
    ensures buffer[i..i + need] == fat[w + i..w + i + need]
  {
    forall k | i <= k < i + need ensures buffer[k] == fat[w + k] {
      assert buffer[..n][k] == fat[w..w + n][k];
    }
    var x, y := buffer[i..i + need], fat[w + i..w + i + need];
    forall k | 0 <= k < need ensures x[k] == y[k] {
      assert buffer[i + k] == fat[w + (i + k)];
    }
  }

  /** The window that starts at the chunk of `off` reaches past the entry, even across its 4 MiB edge. */
  lemma WindowHolds(off: nat, need: nat, total: nat)
    requires need <= 4 && off + need <= total
    ensures var w := off / CHUNK * CHUNK;
      w <= off && off + need <= w + if CHUNK + 8 < total - w then CHUNK + 8 else total - w
  {
  }

  // ---------- the reference check ----------

  function Bad(k: Kind): nat {
    match k case Fat12 => 0xff7 case Fat16 => 0xfff7 case Fat32 => 0x0fff_fff7
  }

  function Mask(k: Kind): nat {
    match k case Fat12 => 0x1000 case Fat16 => 0x1_0000 case Fat32 => 0x1000_0000
  }

  /** Neither free, bad, an end marker, nor a cluster of the volume. */
  predicate Invalid(k: Kind, value: nat, maxCluster: nat) {
    value != 0 && value != Bad(k) && value < Bad(k) + 1 && (value < 2 || value > maxCluster)
  }

  function CountInvalid(fat: seq<byte>, k: Kind, maxCluster: nat, n: nat): nat {
    if n <= 2 then 0
    else CountInvalid(fat, k, maxCluster, n - 1) + if Invalid(k, Entry(fat, k, n - 1), maxCluster) then 1 else 0
  }

  /** A reserved value, or a cluster the volume does not have. */
  ghost predicate OutOfRange(fat: seq<byte>, k: Kind, maxCluster: nat, c: nat) {
    var v := Entry(fat, k, c);
    v == 1 || (maxCluster < v && v < match k case Fat12 => 0xff7 case Fat16 => 0xfff7 case Fat32 => 0xfff_fff7)
  }

  ghost function OutOfRangeSet(fat: seq<byte>, k: Kind, maxCluster: nat, n: nat): set<nat> {
    set c | 2 <= c < n && OutOfRange(fat, k, maxCluster, c)
  }

  lemma InvalidMeans(fat: seq<byte>, k: Kind, maxCluster: nat, c: nat)
    requires maxCluster >= 1
    ensures Invalid(k, Entry(fat, k, c), maxCluster) <==> OutOfRange(fat, k, maxCluster, c)
  {
    hide Entry;
  }

  /** The count is the number of clusters whose entry is neither free, bad, an end marker, nor a cluster of the volume. */
  lemma {:induction false} CountIsCard(fat: seq<byte>, k: Kind, maxCluster: nat, n: nat)
    requires maxCluster >= 1
    ensures CountInvalid(fat, k, maxCluster, n) == |OutOfRangeSet(fat, k, maxCluster, n)|
    decreases n
  {
    hide Entry, OutOfRange, Invalid;
    var all := OutOfRangeSet(fat, k, maxCluster, n);
    if n <= 2 {
      assert all == {};
    } else {
      CountIsCard(fat, k, maxCluster, n - 1);
      var init := OutOfRangeSet(fat, k, maxCluster, n - 1);
      InvalidMeans(fat, k, maxCluster, n - 1);
      if OutOfRange(fat, k, maxCluster, n - 1) { assert all == init + {n - 1}; } else { assert all == init; }
    }
  }

  /** The check is that the table's bits suffice for every entry. */
  lemma EnoughBits(k: Kind, bytes: nat, clusters: nat)
    ensures TableLargeEnough(k, bytes, clusters) <==>
      bytes * 8 >= (clusters + 2) * match k case Fat12 => 12 case Fat16 => 16 case Fat32 => 32
  {
  }

  /** parse_volume's capacity check. */
  predicate TableLargeEnough(k: Kind, bytes: nat, clusters: nat) {
    bytes * 8 / (match k case Fat12 => 12 case Fat16 => 16 case Fat32 => 32) >= clusters + 2
  }

  /** With it, no lookup of the check runs off the end of the table. */
  lemma NeverEnds(k: Kind, bytes: nat, clusters: nat, c: nat)
    requires TableLargeEnough(k, bytes, clusters) && c <= clusters + 1
    ensures Offset(k, c) + Need(k) <= bytes
  {
  }

  lemma EntryBelowMask(fat: seq<byte>, k: Kind, c: nat)
    ensures Entry(fat, k, c) < Mask(k)
  {
  }

  datatype CheckResult = CheckResult(invalid: nat, failed: bool)

  /**
   The loop of check, on a device that answers a read made for cluster c if `answers(c)`: exactly the
   out-of-range entries are counted, unless a read fails, and then those before it.
   */
  method CheckReferences(fat: seq<byte>, k: Kind, clusters: nat, answers: nat -> bool) returns (r: CheckResult)
    requires TableLargeEnough(k, |fat|, clusters) && |fat| < MAX64
    ensures !r.failed ==> r.invalid == CountInvalid(fat, k, clusters + 1, clusters + 2) == |OutOfRangeSet(fat, k, clusters + 1, clusters + 2)|
    ensures r.failed ==> exists c :: 2 <= c <= clusters + 1 && !answers(c) && r.invalid == CountInvalid(fat, k, clusters + 1, c)
  {
    hide OutOfRangeSet, Entry, FatStream.Shaped, FatStream.Inside, Offset, Need, Answer, Overlay;
    var stream := new FatStream(fat, k);
    var maxCluster := clusters + 1;
    var invalid := 0;
    for c: nat := 2 to maxCluster + 1
      invariant stream.fat == fat && stream.kind == k && !stream.stale && stream.Shaped() && fresh(stream) && fresh(stream.buffer)
      invariant invalid == CountInvalid(fat, k, maxCluster, c)
    {
      NeverEnds(k, |fat|, clusters, c);
      var junk: seq<byte> := *;
      var e := stream.Get(c, answers(c), junk);
      if !e.Found? { return CheckResult(invalid, true); }
      EntryBelowMask(fat, k, c);
      var value := e.value % Mask(k);
      if value == 0 || value == Bad(k) || value >= Bad(k) + 1 { continue; }
      if value < 2 || value > maxCluster { invalid := invalid + 1; }
    }
    CountIsCard(fat, k, maxCluster, clusters + 2);
    r := CheckResult(invalid, false);
  }

  /** The mirror comparison finds no differing chunk exactly when every copy equals the first. */
  method CompareCopies(copies: seq<seq<byte>>, bytes: nat) returns (mismatches: nat)
    requires |copies| > 0 && forall i :: 0 <= i < |copies| ==> |copies[i]| == bytes
    ensures mismatches == 0 <==> forall i :: 0 <= i < |copies| ==> copies[i] == copies[0]
  {
    mismatches := 0;
    for copy := 1 to |copies|
      invariant mismatches == 0 <==> forall i :: 0 <= i < copy ==> copies[i] == copies[0]
    {
      var a, b := copies[0], copies[copy];
      var done := 0;
      ghost var before := mismatches;
      while done < bytes
        invariant 0 <= done <= bytes && before <= mismatches
        invariant mismatches == before <==> forall k :: 0 <= k < done ==> a[k] == b[k]
      {
        var n := if CHUNK < bytes - done then CHUNK else bytes - done;
        ChunkEqual(a, b, done, n);
        if a[done..done + n] != b[done..done + n] { mismatches := mismatches + 1; }
        done := done + n;
      }
      assert mismatches == before <==> a == b;
    }
  }

  lemma ChunkEqual(a: seq<byte>, b: seq<byte>, off: nat, n: nat)
    requires off + n <= |a| && off + n <= |b|
    ensures a[off..off + n] == b[off..off + n] <==> forall k :: off <= k < off + n ==> a[k] == b[k]
  {
    if a[off..off + n] == b[off..off + n] {
      forall k | off <= k < off + n ensures a[k] == b[k] {
        assert a[off..off + n][k - off] == b[off..off + n][k - off];
      }
    }
  }

  // ---------- after a failed read ----------

  /** A reachable stream: the read of its first window fails, and the next lookup answers 0 where the entry is 5. */
  method StaleAfterFailure() returns (first: Lookup, second: Lookup, ghost fat: seq<byte>)
    ensures fat == [0, 0, 0, 0, 5, 0] && Entry(fat, Fat16, 2) == 5
    ensures first == ReadFailed && second == Found(0)
  {
    var table: seq<byte> := [0, 0, 0, 0, 5, 0];
    fat := table;
    DecodeIsEntry(table, Fat16, 2);
    assert table[4..6] == [5, 0];
    hide Entry;
    var stream := new FatStream(table, Fat16);
    first := stream.Get(2, false, []);
    ghost var left := stream.buffer[..];
    assert first == ReadFailed && stream.Inside(2);
    ghost var off := Offset(Fat16, 2) - stream.windowOff;
    assert left[off] == 0 && left[off + 1] == 0;
    second := stream.Get(2, true, []);
  }

  /**
   And this is exact: whatever the table and the entry, some content of a window whose read failed
   gives a wrong answer. So a lookup is right whatever failed reads leave behind exactly when it does
   not answer from such a window.
   */
  lemma StaleCanMislead(fat: seq<byte>, k: Kind, windowOff: nat, n: nat, c: nat) returns (buffer: seq<byte>)
    requires windowOff <= Offset(k, c) && Offset(k, c) - windowOff + Need(k) <= n
    ensures |buffer| == n && Answer(buffer, k, windowOff, c) != Entry(fat, k, c)
  {
    hide Entry;
    var i := Offset(k, c) - windowOff;
    var fill: byte := if Entry(fat, k, c) == 0 then 255 else 0;
    buffer := seq(n, j => fill);
    var b := buffer[i..i + Need(k)];
    assert forall j :: 0 <= j < |b| ==> b[j] == fill;
    assert At(b, 0) == fill && At(b, 1) == fill && (k == Fat32 ==> At(b, 2) == fill && At(b, 3) == fill);
  }
}
