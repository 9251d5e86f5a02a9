/**
 A storage device between flushes.

 A write is pending until the next successful flush. A crash resolves every written cell on its own:
 it keeps the durable value, takes any value written since the last flush, or is torn. A torn cell
 is one whose checksum no longer matches, so nothing can be decoded from it.
 */
module Storage {

  datatype Cell<V> = Intact(value: V) | Torn

  type Image<K, V> = map<K, Cell<V>>

  datatype Medium<K, V> = Medium(durable: Image<K, V>, pending: seq<(K, V)>)

  ghost predicate Written<K, V>(m: Medium<K, V>, k: K) {
    exists i :: 0 <= i < |m.pending| && m.pending[i].0 == k
  }

  /** Cell `c` is a possible content of `k` after a crash. */
  ghost predicate Survives<K, V>(m: Medium<K, V>, k: K, c: Cell<V>) {
    || (k in m.durable && c == m.durable[k])
    || (c == Torn && Written(m, k))
    || exists i :: 0 <= i < |m.pending| && m.pending[i].0 == k && c == Intact(m.pending[i].1)
  }

  ghost predicate CrashImage<K, V>(m: Medium<K, V>, img: Image<K, V>) {
    && img.Keys == m.durable.Keys
    && forall k :: k in img ==> Survives(m, k, img[k])
  }

  /** The durable content once every pending write has reached the medium in order. */
  function Flushed<K, V>(d: Image<K, V>, pending: seq<(K, V)>): (r: Image<K, V>)
    decreases |pending|
  {
    if pending == [] then d
    else
      var last := pending[|pending| - 1];
      Flushed(d, pending[..|pending| - 1])[last.0 := Intact(last.1)]
  }

  /** Nothing pending: a crash finds exactly the durable content. */
  lemma QuiescentCrash<K, V>(d: Image<K, V>, img: Image<K, V>)
    requires CrashImage(Medium(d, []), img)
    ensures img == d
  {
    forall k | k in img ensures img[k] == d[k] {
      assert Survives(Medium(d, []), k, img[k]);
    }
  }

  lemma QuiescentIsCrash<K, V>(d: Image<K, V>)
    ensures CrashImage(Medium(d, []), d)
  {
    forall k | k in d ensures Survives(Medium(d, []), k, d[k]) { }
  }

  lemma {:induction false} FlushedOther<K, V>(d: Image<K, V>, pending: seq<(K, V)>, k: K)
    requires forall i :: 0 <= i < |pending| ==> pending[i].0 != k
    ensures k in Flushed(d, pending) <==> k in d
    ensures k in d ==> Flushed(d, pending)[k] == d[k]
    decreases |pending|
  {
    if pending != [] {
      FlushedOther(d, pending[..|pending| - 1], k);
    }
  }

  lemma {:induction false} FlushedAt<K, V>(d: Image<K, V>, pending: seq<(K, V)>, i: nat)
    requires i < |pending|
    requires forall j :: i < j < |pending| ==> pending[j].0 != pending[i].0
    ensures pending[i].0 in Flushed(d, pending)
    ensures Flushed(d, pending)[pending[i].0] == Intact(pending[i].1)
    decreases |pending|
  {
    if i < |pending| - 1 {
      FlushedAt(d, pending[..|pending| - 1], i);
    }
  }

  /** A cell all of whose pending writes agree holds what they write. */
  lemma {:induction false} FlushedSame<K, V>(d: Image<K, V>, pending: seq<(K, V)>, k: K, v: V)
    requires forall i :: 0 <= i < |pending| && pending[i].0 == k ==> pending[i].1 == v
    requires exists i :: 0 <= i < |pending| && pending[i].0 == k
    ensures k in Flushed(d, pending) && Flushed(d, pending)[k] == Intact(v)
    decreases |pending|
  {
    var n := |pending| - 1;
    var init := pending[..n];
    if pending[n].0 != k {
      var i :| 0 <= i < |pending| && pending[i].0 == k;
      assert init[i] == pending[i];
      FlushedSame(d, init, k, v);
    }
  }

  lemma {:induction false} FlushedKeys<K, V>(d: Image<K, V>, pending: seq<(K, V)>)
    requires forall i :: 0 <= i < |pending| ==> pending[i].0 in d
    ensures Flushed(d, pending).Keys == d.Keys
    decreases |pending|
  {
    if pending != [] {
      FlushedKeys(d, pending[..|pending| - 1]);
    }
  }

  /** A device whose write and flush calls may fail; `trace` lists every medium it has held, `failed` remembers that a call has failed. */
  class Device<K(==), V> {
    var medium: Medium<K, V>
    ghost var trace: seq<Medium<K, V>>
    ghost var failed: bool

    constructor (img: Image<K, V>)
      ensures medium == Medium(img, []) && trace == [medium] && !failed
    {
      medium := Medium(img, []);
      trace, failed := [Medium(img, [])], false;
    }

    /** A failed write may have reached the medium in part, so it is pending all the same. */
    method Write(k: K, v: V) returns (ok: bool)
      modifies this
      ensures medium == Medium(old(medium).durable, old(medium).pending + [(k, v)])
      ensures trace == old(trace) + [medium] && failed == (old(failed) || !ok)
    {
      medium := Medium(medium.durable, medium.pending + [(k, v)]);
      trace := trace + [medium];
      ok := *;
      failed := failed || !ok;
    }

    /** A failed flush promises nothing about what is pending. */
    method Flush() returns (ok: bool)
      modifies this
      ensures ok ==> medium == Medium(Flushed(old(medium).durable, old(medium).pending), [])
      ensures ok ==> trace == old(trace) + [medium]
      ensures !ok ==> medium == old(medium) && trace == old(trace)
      ensures failed == (old(failed) || !ok)
    {
      ok := *;
      failed := failed || !ok;
      if ok {
        medium := Medium(Flushed(medium.durable, medium.pending), []);
        trace := trace + [medium];
      }
    }
  }
}
