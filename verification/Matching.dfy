/**
 Matching tail blocks to free space below the target: build_relocation_geometry of
 src/ext4/allocation.cpp, seen as one list of blocks laid against another.
 */
module Matching {
  import opened CommitDisk
  import opened Runs

  // ---------- runs as lists of blocks ----------

  function RunOf(e: BlockExtent): (r: seq<nat>)
    ensures |r| == e.length
  {
    seq(e.length, i requires 0 <= i < e.length => e.start + i)
  }

  function Blocks(es: seq<BlockExtent>): seq<nat> {
    if es == [] then [] else Blocks(es[..|es| - 1]) + RunOf(es[|es| - 1])
  }

  function Total(es: seq<BlockExtent>): nat {
    if es == [] then 0 else Total(es[..|es| - 1]) + es[|es| - 1].length
  }

  predicate Distinct(s: seq<nat>) {
    forall i, j :: 0 <= i < j < |s| ==> s[i] != s[j]
  }

  lemma BlocksAppend(es: seq<BlockExtent>, e: BlockExtent)
    ensures Blocks(es + [e]) == Blocks(es) + RunOf(e)
    ensures Total(es + [e]) == Total(es) + e.length
  {
    assert (es + [e])[..|es|] == es;
  }

  lemma BlocksNone()
    ensures Blocks([]) == []
  {
  }

  lemma {:induction false} TotalIsLength(es: seq<BlockExtent>)
    ensures |Blocks(es)| == Total(es)
    decreases |es|
  {
    if es != [] { TotalIsLength(es[..|es| - 1]); }
  }

  lemma InRunOf(e: BlockExtent, b: nat)
    ensures b in RunOf(e) <==> InExtent(e, b)
  {
    if InExtent(e, b) { assert RunOf(e)[b - e.start] == b; }
  }

  lemma {:induction false} InBlocks(es: seq<BlockExtent>, b: nat)
    ensures b in Blocks(es) <==> Covers(es, b)
    decreases |es|
  {
    if es != [] {
      var init, last := es[..|es| - 1], es[|es| - 1];
      InBlocks(init, b);
      InRunOf(last, b);
      CoversAppend(init, last, b);
      assert es == init + [last];
    }
  }

  lemma {:induction false} SeparatedDistinct(es: seq<BlockExtent>)
    requires Separated(es)
    ensures Distinct(Blocks(es))
    decreases |es|
  {
    if es != [] {
      var init, last := es[..|es| - 1], es[|es| - 1];
      SeparatedDistinct(init);
      forall b: nat | b in Blocks(init) ensures b < last.start {
        InBlocks(init, b);
        var i :| 0 <= i < |init| && InExtent(init[i], b);
        assert End(es[i]) < es[|es| - 1].start;
      }
      var s, n := Blocks(es), |Blocks(init)|;
      forall i, j | 0 <= i < j < |s| ensures s[i] != s[j] {
        if j < n {
          assert s[i] == Blocks(init)[i] && s[j] == Blocks(init)[j];
        } else if i < n {
          assert s[i] == Blocks(init)[i] && s[i] in Blocks(init) && s[j] == last.start + (j - n);
        } else {
          assert s[i] == last.start + (i - n) && s[j] == last.start + (j - n);
        }
      }
    }
  }

  lemma {:induction false} BlocksConcat(a: seq<BlockExtent>, b: seq<BlockExtent>)
    ensures Blocks(a + b) == Blocks(a) + Blocks(b)
    decreases |b|
  {
    hide Blocks;
    if b == [] {
      assert a + b == a;
      BlocksNone();
    } else {
      var init, last := b[..|b| - 1], b[|b| - 1];
      BlocksConcat(a, init);
      assert a + b == (a + init) + [last];
      BlocksAppend(a + init, last);
      BlocksAppend(init, last);
      assert b == init + [last];
    }
  }

  lemma BlocksSingle(e: BlockExtent)
    ensures Blocks([e]) == RunOf(e)
  {
    BlocksAppend([], e);
    assert [] + [e] == [e];
  }

  lemma SplitAt<T>(s: seq<T>, i: nat)
    requires i < |s|
    ensures s == (s[..i] + [s[i]]) + s[i + 1..]
  {
  }

  lemma PrefixMultiset<T>(s: seq<T>, k: nat)
    requires k < |s|
    ensures s[..k + 1] == s[..k] + [s[k]] && multiset(s[..k + 1]) == multiset(s[..k]) + multiset{s[k]}
  {
    assert s[..k + 1] == s[..k] + [s[k]];
  }

  /** Taking one run out of the middle of the list. */
  lemma BlocksSplit(es: seq<BlockExtent>, i: nat)
    requires i < |es|
    ensures Blocks(es) == Blocks(es[..i]) + RunOf(es[i]) + Blocks(es[i + 1..])
  {
    hide Blocks, RunOf;
    SplitAt(es, i);
    BlocksConcat(es[..i] + [es[i]], es[i + 1..]);
    BlocksAppend(es[..i], es[i]);
  }

  lemma RemoveOne<T>(s: seq<T>, i: nat)
    requires i < |s|
    ensures multiset(s) == multiset(s[..i] + s[i + 1..]) + multiset{s[i]}
  {
    assert s == s[..i] + [s[i]] + s[i + 1..];
  }

  /** The blocks, with their multiplicity, do not depend on the order of the runs. */
  lemma {:induction false} BlocksPermuted(a: seq<BlockExtent>, b: seq<BlockExtent>)
    requires multiset(a) == multiset(b)
    ensures multiset(Blocks(a)) == multiset(Blocks(b))
    decreases |a|
  {
    hide Blocks;
    assert |multiset(a)| == |a| && |multiset(b)| == |b|;
    if a == [] {
      assert b == [];
    } else {
      var init, last := a[..|a| - 1], a[|a| - 1];
      assert a == init + [last];
      assert last in multiset(b);
      assert last in b;
      var i :| 0 <= i < |b| && b[i] == last;
      var rest := b[..i] + b[i + 1..];
      RemoveOne(b, i);
      assert multiset(a) == multiset(init) + multiset{last};
      assert multiset(init) == multiset(a) - multiset{last};
      assert multiset(rest) == multiset(b) - multiset{last};
      BlocksPermuted(init, rest);
      BlocksAppend(init, last);
      BlocksSplit(b, i);
      BlocksConcat(b[..i], b[i + 1..]);
    }
  }

  lemma DistinctIsSingle(s: seq<nat>)
    ensures Distinct(s) <==> forall x :: multiset(s)[x] <= 1
  {
    if Distinct(s) { forall x ensures multiset(s)[x] <= 1 { SingleCount(s, x); } }
    if !Distinct(s) {
      var i, j :| 0 <= i < j < |s| && s[i] == s[j];
      assert s == s[..j] + s[j..];
      assert s[..j][i] == s[i] && s[j..][0] == s[j];
      assert multiset(s) == multiset(s[..j]) + multiset(s[j..]);
      assert multiset(s)[s[i]] > 1;
    }
  }

  lemma {:induction false} SingleCount(s: seq<nat>, x: nat)
    requires Distinct(s)
    ensures multiset(s)[x] <= 1
    decreases |s|
  {
    if s != [] {
      var init, last := s[..|s| - 1], s[|s| - 1];
      SingleCount(init, x);
      assert s == init + [last];
      if x == last { assert x !in init; }
    }
  }

  lemma DistinctPermuted(a: seq<nat>, b: seq<nat>)
    requires multiset(a) == multiset(b) && Distinct(a)
    ensures Distinct(b)
  {
    DistinctIsSingle(a);
    DistinctIsSingle(b);
  }

  // ---------- counting ----------

  lemma MembersAppend(s: seq<nat>, x: nat)
    ensures Members(s + [x]) == Members(s) + {x}
  {
  }

  function Members(s: seq<nat>): set<nat> { set x | x in s }

  lemma {:induction false} DistinctCard(s: seq<nat>)
    requires Distinct(s)
    ensures |Members(s)| == |s|
    decreases |s|
  {
    if s == [] {
      assert Members(s) == {};
    } else {
      var init, last := s[..|s| - 1], s[|s| - 1];
      DistinctCard(init);
      MembersAppend(init, last);
      assert s == init + [last];
      assert last !in Members(init);
    }
  }

  ghost function BitBlocks(geo: Geometry, bitmaps: seq<seq<bool>>, used: bool, lo: nat, hi: nat): set<nat>
    requires GeometryOk(geo)
  {
    set b: nat | lo <= b < hi && BitOf(geo, bitmaps, b) == used
  }

  lemma {:induction false} CountIsCard(geo: Geometry, bitmaps: seq<seq<bool>>, used: bool, lo: nat, hi: nat)
    requires GeometryOk(geo) && lo <= hi
    ensures CountBits(geo, bitmaps, used, lo, hi) == |BitBlocks(geo, bitmaps, used, lo, hi)|
    decreases hi
  {
    hide BitOf;
    if lo == hi {
      assert BitBlocks(geo, bitmaps, used, lo, hi) == {};
    } else {
      CountIsCard(geo, bitmaps, used, lo, hi - 1);
      var before := BitBlocks(geo, bitmaps, used, lo, hi - 1);
      assert BitBlocks(geo, bitmaps, used, lo, hi) == if BitOf(geo, bitmaps, hi - 1) == used then before + {hi - 1} else before;
    }
  }

  /** The counters of the allocation map are the total lengths of its runs. */
  lemma CountsMatchRuns(geo: Geometry, bitmaps: seq<seq<bool>>, used: bool, es: seq<BlockExtent>, lo: nat, hi: nat)
    requires GeometryOk(geo) && lo <= hi && Encodes(geo, bitmaps, used, es, lo, hi)
    ensures CountBits(geo, bitmaps, used, lo, hi) == Total(es)
  {
    hide BitOf, CountBits, Blocks;
    SeparatedDistinct(es);
    DistinctCard(Blocks(es));
    TotalIsLength(es);
    CountIsCard(geo, bitmaps, used, lo, hi);
    forall b: nat ensures b in Blocks(es) <==> b in BitBlocks(geo, bitmaps, used, lo, hi) { InBlocks(es, b); }
    assert Members(Blocks(es)) == BitBlocks(geo, bitmaps, used, lo, hi);
  }

  // ---------- parts of the map ----------

  /** `t` is the part of the first `k` runs inside [lo, hi). */
  ghost predicate Clipped(es: seq<BlockExtent>, k: nat, lo: nat, hi: nat, t: seq<BlockExtent>)
    requires k <= |es|
  {
    && Separated(t) && |t| <= k
    && (forall i :: 0 <= i < |t| && k > 0 ==> End(t[i]) <= End(es[k - 1]))
    && (forall b: nat :: Covers(t, b) <==> lo <= b < hi && Covers(es[..k], b))
  }

  lemma ClipNone(es: seq<BlockExtent>, lo: nat, hi: nat)
    ensures Clipped(es, 0, lo, hi, [])
  {
  }

  lemma ClipNext(es: seq<BlockExtent>, k: nat, lo: nat, hi: nat, t: seq<BlockExtent>, s: nat, e: nat)
    requires k < |es| && Separated(es) && Clipped(es, k, lo, hi, t)
    requires s == (if es[k].start > lo then es[k].start else lo)
    requires e == if End(es[k]) < hi then End(es[k]) else hi
    ensures Clipped(es, k + 1, lo, hi, if s < e then t + [BlockExtent(s, e - s)] else t)
  {
    var r := if s < e then t + [BlockExtent(s, e - s)] else t;
    assert es[..k + 1] == es[..k] + [es[k]];
    forall b: nat ensures Covers(r, b) <==> lo <= b < hi && Covers(es[..k + 1], b) {
      hide Covers;
      CoversAppend(es[..k], es[k], b);
      if s < e { CoversAppend(t, BlockExtent(s, e - s), b); }
    }
    if k > 0 { assert End(es[k - 1]) < es[k].start; }
  }

  /** Runs past the first one that starts at or after `hi` contribute nothing. */
  lemma ClipRest(es: seq<BlockExtent>, k: nat, lo: nat, hi: nat, t: seq<BlockExtent>)
    requires k <= |es| && Separated(es) && Clipped(es, k, lo, hi, t)
    requires k < |es| ==> es[k].start >= hi
    ensures Separated(t) && |t| <= |es|
    ensures forall b: nat :: Covers(t, b) <==> lo <= b < hi && Covers(es, b)
  {
    forall b: nat | b < hi ensures Covers(es, b) <==> Covers(es[..k], b) {
      if Covers(es[..k], b) {
        var i :| 0 <= i < k && InExtent(es[..k][i], b);
        assert InExtent(es[i], b);
      }
      if Covers(es, b) {
        var i :| 0 <= i < |es| && InExtent(es[i], b);
        assert i < k;
        assert es[..k][i] == es[i];
      }
    }
  }

  lemma RunPositive(es: seq<BlockExtent>, k: nat)
    requires Separated(es) && k < |es|
    ensures es[k].length > 0
  {
  }

  lemma CoversBelow(es: seq<BlockExtent>, end: nat)
    requires forall i :: 0 <= i < |es| ==> End(es[i]) <= end
    ensures forall b: nat :: Covers(es, b) ==> b < end
  {
  }

  /** Runs at or above the target, clipped. */
  method Tail(es: seq<BlockExtent>, target: nat, ghost end: nat) returns (t: seq<BlockExtent>)
    requires Separated(es) && forall i :: 0 <= i < |es| ==> End(es[i]) <= end
    ensures Separated(t) && |t| <= |es|
    ensures forall b: nat :: Covers(t, b) <==> target <= b < end && Covers(es, b)
  {
    hide Covers, Clipped, Separated;
    t := [];
    ClipNone(es, target, end);
    for k := 0 to |es|
      invariant Clipped(es, k, target, end, t)
    {
      var e := es[k];
      var s := if e.start > target then e.start else target;
      RunPositive(es, k);
      ClipNext(es, k, target, end, t, s, End(e));
      if End(e) > target { t := t + [BlockExtent(s, End(e) - s)]; }
    }
    ClipRest(es, |es|, target, end, t);
  }

  /** Runs below the target, clipped; the scan stops at the first run past it. */
  method Head(es: seq<BlockExtent>, target: nat) returns (t: seq<BlockExtent>)
    requires Separated(es)
    ensures Separated(t) && |t| <= |es|
    ensures forall b: nat :: Covers(t, b) <==> b < target && Covers(es, b)
  {
    hide Covers, Clipped, Separated;
    t := [];
    ClipNone(es, 0, target);
    var k: nat := 0;
    while k < |es| && es[k].start < target
      invariant 0 <= k <= |es| && Clipped(es, k, 0, target, t)
    {
      var e := es[k];
      var end := if End(e) < target then End(e) else target;
      ClipNext(es, k, 0, target, t, e.start, end);
      if end > e.start { t := t + [BlockExtent(e.start, end - e.start)]; }
      k := k + 1;
    }
    ClipRest(es, k, 0, target, t);
  }

  predicate Descending(es: seq<BlockExtent>) {
    forall i, j :: 0 <= i < j < |es| ==> es[i].length >= es[j].length
  }

  lemma InsertDescending(s: seq<BlockExtent>, pos: nat, e: BlockExtent)
    requires pos <= |s| && Descending(s)
    requires forall i :: pos <= i < |s| ==> s[i].length < e.length
    requires pos > 0 ==> s[pos - 1].length >= e.length
    ensures Descending(s[..pos] + [e] + s[pos..])
  {
    var r := s[..pos] + [e] + s[pos..];
    forall i, j | 0 <= i < j < |r| ensures r[i].length >= r[j].length {
      if j == pos {
        assert r[i] == s[i];
      } else if i == pos {
        assert r[j] == s[j - 1];
      } else {
        assert r[i] == s[if i < pos then i else i - 1] && r[j] == s[if j < pos then j else j - 1];
      }
    }
  }

  /** std::sort by decreasing length. */
  method SortByLength(es: seq<BlockExtent>) returns (s: seq<BlockExtent>)
    ensures multiset(s) == multiset(es) && |s| == |es| && Descending(s)
  {
    s := [];
    for k := 0 to |es|
      invariant multiset(s) == multiset(es[..k]) && |s| == k && Descending(s)
    {
      hide Descending;
      PrefixMultiset(es, k);
      s := Insert(s, es[k]);
    }
    assert es[..|es|] == es;
  }

  method Insert(s: seq<BlockExtent>, e: BlockExtent) returns (r: seq<BlockExtent>)
    requires Descending(s)
    ensures Descending(r) && multiset(r) == multiset(s) + multiset{e} && |r| == |s| + 1
  {
    var pos := |s|;
    while pos > 0 && s[pos - 1].length < e.length
      invariant 0 <= pos <= |s|
      invariant forall i :: pos <= i < |s| ==> s[i].length < e.length
    {
      pos := pos - 1;
    }
    hide Descending;
    InsertDescending(s, pos, e);
    InsertMultiset(s, pos, e);
    r := s[..pos] + [e] + s[pos..];
  }

  // ---------- the two cursors ----------

  datatype Move = Move(source: BlockExtent, destination: BlockExtent)

  function Sources(ms: seq<Move>): seq<BlockExtent> {
    seq(|ms|, i requires 0 <= i < |ms| => ms[i].source)
  }

  function Destinations(ms: seq<Move>): seq<BlockExtent> {
    seq(|ms|, i requires 0 <= i < |ms| => ms[i].destination)
  }

  lemma MovesAppend(ms: seq<Move>, m: Move)
    ensures Blocks(Sources(ms + [m])) == Blocks(Sources(ms)) + RunOf(m.source)
    ensures Blocks(Destinations(ms + [m])) == Blocks(Destinations(ms)) + RunOf(m.destination)
  {
    assert Sources(ms + [m]) == Sources(ms) + [m.source];
    assert Destinations(ms + [m]) == Destinations(ms) + [m.destination];
    BlocksAppend(Sources(ms), m.source);
    BlocksAppend(Destinations(ms), m.destination);
  }

  /** The blocks before a cursor: whole runs, then `off` blocks of run `i`. */
  function Passed(es: seq<BlockExtent>, i: nat, off: nat): seq<nat>
    requires i <= |es|
  {
    Blocks(es[..i]) + if i < |es| then RunOf(BlockExtent(es[i].start, off)) else []
  }

  lemma PassedMore(es: seq<BlockExtent>, i: nat, off: nat, n: nat)
    requires i < |es|
    ensures Passed(es, i, off + n) == Passed(es, i, off) + RunOf(BlockExtent(es[i].start + off, n))
  {
    var a, b, c := RunOf(BlockExtent(es[i].start, off + n)), RunOf(BlockExtent(es[i].start, off)), RunOf(BlockExtent(es[i].start + off, n));
    assert a == b + c;
  }

  lemma PassedNext(es: seq<BlockExtent>, i: nat)
    requires i < |es|
    ensures Passed(es, i + 1, 0) == Passed(es, i, es[i].length)
  {
    assert es[..i + 1] == es[..i] + [es[i]];
    BlocksAppend(es[..i], es[i]);
    assert BlockExtent(es[i].start, es[i].length) == es[i];
    assert i + 1 < |es| ==> RunOf(BlockExtent(es[i + 1].start, 0)) == [];
  }

  lemma PassedPrefix(es: seq<BlockExtent>, i: nat, off: nat)
    requires i <= |es| && (i < |es| ==> off <= es[i].length)
    ensures Passed(es, i, off) <= Blocks(es)
    ensures i < |es| && off < es[i].length ==> |Passed(es, i, off)| < |Blocks(es)|
    ensures i == |es| ==> Passed(es, i, off) == Blocks(es)
  {
    hide Blocks;
    if i < |es| {
      BlocksSplit(es, i);
      PassedMore(es, i, off, es[i].length - off);
      assert RunOf(BlockExtent(es[i].start, es[i].length)) == RunOf(es[i]) by { assert BlockExtent(es[i].start, es[i].length) == es[i]; }
    } else {
      assert es[..i] == es;
    }
  }

  predicate Nonempty(es: seq<BlockExtent>) {
    forall i :: 0 <= i < |es| ==> es[i].length > 0
  }

  predicate MovesOk(ms: seq<Move>) {
    forall i :: 0 <= i < |ms| ==> ms[i].source.length == ms[i].destination.length > 0
  }

  /** A cursor sits at the end of run `i`. */
  function AtEnd(es: seq<BlockExtent>, i: nat, off: nat): nat {
    if i < |es| && off == es[i].length then 1 else 0
  }

  /** Where the two cursors stand and what has been emitted. */
  ghost predicate Matched(sources: seq<BlockExtent>, dests: seq<BlockExtent>, ms: seq<Move>, si: nat, soff: nat, di: nat, dused: nat) {
    && si <= |sources| && di <= |dests| && MovesOk(ms)
    && (if si < |sources| then soff <= sources[si].length else soff == 0)
    && (if di < |dests| then dused <= dests[di].length else dused == 0)
    && Blocks(Sources(ms)) == Passed(sources, si, soff)
    && Blocks(Destinations(ms)) == Passed(dests, di, dused)
    && |Blocks(Sources(ms))| == |Blocks(Destinations(ms))|
    && |ms| <= si + AtEnd(sources, si, soff) + di + AtEnd(dests, di, dused)
  }

  lemma MatchOne(sources: seq<BlockExtent>, dests: seq<BlockExtent>, ms: seq<Move>, si: nat, soff: nat, di: nat, dused: nat, n: nat)
    requires Matched(sources, dests, ms, si, soff, di, dused) && si < |sources| && di < |dests|
    requires soff < sources[si].length && dused < dests[di].length
    requires n == if sources[si].length - soff < dests[di].length - dused then sources[si].length - soff else dests[di].length - dused
    ensures var m := Move(BlockExtent(sources[si].start + soff, n), BlockExtent(dests[di].start + dused, n));
      Matched(sources, dests, ms + [m], si, soff + n, di, dused + n)
  {
    hide Blocks, Passed;
    var m := Move(BlockExtent(sources[si].start + soff, n), BlockExtent(dests[di].start + dused, n));
    MovesAppend(ms, m);
    PassedMore(sources, si, soff, n);
    PassedMore(dests, di, dused, n);
  }

  lemma NextRun(sources: seq<BlockExtent>, dests: seq<BlockExtent>, ms: seq<Move>, si: nat, soff: nat, di: nat, dused: nat)
    requires Matched(sources, dests, ms, si, soff, di, dused) && Nonempty(sources) && Nonempty(dests)
    ensures di < |dests| && dused == dests[di].length ==> Matched(sources, dests, ms, si, soff, di + 1, 0)
    ensures si < |sources| && soff == sources[si].length ==> Matched(sources, dests, ms, si + 1, 0, di, dused)
  {
    hide Blocks, Passed;
    if di < |dests| { PassedNext(dests, di); }
    if si < |sources| { PassedNext(sources, si); }
  }

  /** While source blocks remain, destinations that are large enough in total cannot have run out. */
  lemma NotExhausted(sources: seq<BlockExtent>, dests: seq<BlockExtent>, ms: seq<Move>, si: nat, soff: nat, di: nat, dused: nat)
    requires Matched(sources, dests, ms, si, soff, di, dused) && si < |sources| && soff < sources[si].length
    requires Total(sources) <= Total(dests)
    ensures di < |dests|
  {
    hide Blocks, Passed;
    TotalIsLength(sources);
    TotalIsLength(dests);
    PassedPrefix(sources, si, soff);
    PassedPrefix(dests, di, dused);
  }

  /**
   The two-cursor loop. Read as lists of blocks, the sources of the moves are the given sources in
   order and the destinations are the beginning of the given destinations; it is never exhausted
   when the destinations are large enough, and makes at most one move per source and destination.
   */
  method MatchExtents(sources: seq<BlockExtent>, dests: seq<BlockExtent>) returns (ok: bool, ms: seq<Move>)
    requires Nonempty(sources) && Nonempty(dests)
    ensures Total(sources) <= Total(dests) ==> ok
    ensures ok ==> MovesOk(ms) && |ms| <= |sources| + |dests|
    ensures ok ==> Blocks(Sources(ms)) == Blocks(sources)
    ensures ok ==> Blocks(Destinations(ms)) <= Blocks(dests)
  {
    hide Blocks, Passed, Matched;
    ms := [];
    var di: nat, dused: nat := 0, 0;
    NothingMatched(sources, dests);
    for si := 0 to |sources|
      invariant Matched(sources, dests, ms, si, 0, di, dused)
      invariant di <= |dests| && dused <= if di < |dests| then dests[di].length else 0
    {
      var soff: nat := 0;
      while soff < sources[si].length
        invariant Matched(sources, dests, ms, si, soff, di, dused) && soff <= sources[si].length
        invariant di <= |dests| && dused <= if di < |dests| then dests[di].length else 0
      {
        while di < |dests| && dused == dests[di].length
          invariant Matched(sources, dests, ms, si, soff, di, dused)
          invariant di <= |dests| && dused <= if di < |dests| then dests[di].length else 0
        {
          NextRun(sources, dests, ms, si, soff, di, dused);
          di, dused := di + 1, 0;
        }
        if Total(sources) <= Total(dests) { NotExhausted(sources, dests, ms, si, soff, di, dused); }
        if di >= |dests| { return false, []; }
        var n := if sources[si].length - soff < dests[di].length - dused then sources[si].length - soff else dests[di].length - dused;
        MatchOne(sources, dests, ms, si, soff, di, dused, n);
        ms := ms + [Move(BlockExtent(sources[si].start + soff, n), BlockExtent(dests[di].start + dused, n))];
        soff, dused := soff + n, dused + n;
      }
      NextRun(sources, dests, ms, si, soff, di, dused);
    }
    AllMatched(sources, dests, ms, di, dused);
    ok := true;
  }

  lemma NothingMatched(sources: seq<BlockExtent>, dests: seq<BlockExtent>)
    ensures Matched(sources, dests, [], 0, 0, 0, 0)
  {
    assert Passed(sources, 0, 0) == [] && Passed(dests, 0, 0) == [];
  }

  lemma AllMatched(sources: seq<BlockExtent>, dests: seq<BlockExtent>, ms: seq<Move>, di: nat, dused: nat)
    requires Matched(sources, dests, ms, |sources|, 0, di, dused) && Nonempty(dests)
    ensures MovesOk(ms) && |ms| <= |sources| + |dests|
    ensures Blocks(Sources(ms)) == Blocks(sources) && Blocks(Destinations(ms)) <= Blocks(dests)
  {
    hide Blocks, Passed;
    PassedPrefix(sources, |sources|, 0);
    PassedPrefix(dests, di, dused);
  }

  // ---------- the whole plan ----------

  ghost function Above(es: seq<BlockExtent>, target: nat): set<nat> {
    set b | b in Members(Blocks(es)) && target <= b
  }

  ghost function Below(es: seq<BlockExtent>, target: nat): set<nat> {
    set b | b in Members(Blocks(es)) && b < target
  }

  lemma CountSorted(es: seq<BlockExtent>, s: seq<BlockExtent>, part: set<nat>)
    requires Distinct(Blocks(s))
    requires part <= Members(Blocks(es))
    requires forall b: nat :: Covers(es, b) ==> (b in Blocks(s) <==> b in part)
    requires forall b: nat :: b in Blocks(s) ==> Covers(es, b)
    ensures Total(s) == |part|
  {
    hide Blocks, Covers, Distinct;
    DistinctCard(Blocks(s));
    TotalIsLength(s);
    forall b: nat ensures b in Members(Blocks(s)) <==> b in part { InBlocks(es, b); }
    assert Members(Blocks(s)) == part;
  }

  datatype GeometryResult = InvalidTarget | Exhausted | Matches(sourceBlocks: nat, destinationBlocks: nat, capacityOk: bool, moves: seq<Move>)

  /**
   build_relocation_geometry. When capacity suffices it never reports exhaustion, its moves take
   every allocated block at or above the target exactly once, and put them on distinct free blocks
   below it.
   */
  method BuildGeometry(usedRuns: seq<BlockExtent>, freeRuns: seq<BlockExtent>, totalBlocks: nat, target: nat) returns (r: GeometryResult)
    requires Separated(usedRuns) && Separated(freeRuns)
    requires forall i :: 0 <= i < |usedRuns| ==> End(usedRuns[i]) <= totalBlocks
    ensures r.InvalidTarget? <==> target == 0 || target >= totalBlocks
    ensures !r.Exhausted?
    ensures r.Matches? ==> r.sourceBlocks == |Above(usedRuns, target)| && r.destinationBlocks == |Below(freeRuns, target)|
    ensures r.Matches? ==> (r.capacityOk <==> r.sourceBlocks <= r.destinationBlocks)
    ensures r.Matches? && r.capacityOk ==>
      var src, dst := Blocks(Sources(r.moves)), Blocks(Destinations(r.moves));
      && MovesOk(r.moves) && Distinct(src) && Distinct(dst) && |src| == r.sourceBlocks
      && (forall b: nat :: b in src <==> target <= b && Covers(usedRuns, b))
      && (forall b: nat :: b in dst ==> b < target && Covers(freeRuns, b))
      && |r.moves| <= |usedRuns| + |freeRuns|
  {
    hide Blocks, Covers, Distinct;
    if target == 0 || target >= totalBlocks { return InvalidTarget; }
    var tail := Tail(usedRuns, target, totalBlocks);
    CoversBelow(usedRuns, totalBlocks);
    var head := Head(freeRuns, target);
    var sources := SortByLength(tail);
    var dests := SortByLength(head);
    SortedRuns(tail, sources);
    SortedRuns(head, dests);
    forall b: nat ensures b in Blocks(usedRuns) <==> Covers(usedRuns, b) { InBlocks(usedRuns, b); }
    forall b: nat ensures b in Blocks(freeRuns) <==> Covers(freeRuns, b) { InBlocks(freeRuns, b); }
    CountSorted(usedRuns, sources, Above(usedRuns, target));
    CountSorted(freeRuns, dests, Below(freeRuns, target));
    var sourceBlocks := SumLengths(sources);
    var destinationBlocks := SumLengths(dests);
    if destinationBlocks < sourceBlocks { return Matches(sourceBlocks, destinationBlocks, false, []); }
    var ok, ms := MatchExtents(sources, dests);
    if !ok { return Exhausted; }
    TotalIsLength(sources);
    PrefixDistinct(Blocks(Destinations(ms)), Blocks(dests));
    r := Matches(sourceBlocks, destinationBlocks, true, ms);
  }

  lemma PrefixDistinct(a: seq<nat>, b: seq<nat>)
    requires a <= b && Distinct(b)
    ensures Distinct(a) && forall x :: x in a ==> x in b
  {
    forall i, j | 0 <= i < j < |a| ensures a[i] != a[j] {
      assert a[i] == b[i] && a[j] == b[j];
    }
  }

  method SumLengths(es: seq<BlockExtent>) returns (n: nat)
    ensures n == Total(es)
  {
    n := 0;
    for i := 0 to |es|
      invariant n == Total(es[..i])
    {
      assert es[..i + 1] == es[..i] + [es[i]];
      BlocksAppend(es[..i], es[i]);
      n := n + es[i].length;
    }
    assert es[..|es|] == es;
  }

  lemma SortedRuns(es: seq<BlockExtent>, s: seq<BlockExtent>)
    requires Separated(es) && multiset(s) == multiset(es)
    ensures Nonempty(s) && Distinct(Blocks(s))
    ensures forall b: nat :: b in Blocks(s) <==> Covers(es, b)
  {
    hide Blocks, Covers;
    forall i | 0 <= i < |s| ensures s[i].length > 0 {
      assert s[i] in multiset(s);
      assert s[i] in es;
    }
    SeparatedDistinct(es);
    BlocksPermuted(es, s);
    DistinctPermuted(Blocks(es), Blocks(s));
    forall b: nat ensures b in Blocks(s) <==> Covers(es, b) {
      assert b in Blocks(s) <==> b in multiset(Blocks(s));
      InBlocks(es, b);
    }
  }
}
