/** Ordering helpers for listings: lists without repeats, insertion into a
    list of keys kept in descending order of a timestamp (newest first), and
    insertion into a list of records kept in ascending order of their
    timestamp (oldest first). */
module Ordering {

  predicate Distinct<T(==)>(xs: seq<T>) {
    forall i, j :: 0 <= i < j < |xs| ==> xs[i] != xs[j]
  }

  /** Every entry has a time, and times do not increase along the list. */
  predicate Descending<K(==)>(t: map<K, nat>, ids: seq<K>) {
    && (forall i :: 0 <= i < |ids| ==> ids[i] in t)
    && (forall i, j :: 0 <= i < j < |ids| ==> t[ids[i]] >= t[ids[j]])
  }

  /** Puts `k` into a descending list, keeping it descending; the result holds
      the old entries and `k`, nothing else. */
  function InsertDescending<K(==)>(t: map<K, nat>, k: K, ids: seq<K>): (r: seq<K>)
    requires k in t
    requires Descending(t, ids)
    ensures |r| == |ids| + 1
    ensures multiset(r) == multiset(ids) + multiset{k}
    ensures Descending(t, r)
  {
    if ids == [] then [k]
    else if t[k] >= t[ids[0]] then
      PrependDescending(t, k, ids);
      [k] + ids
    else
      var rest := InsertDescending(t, k, ids[1..]);
      assert ids == [ids[0]] + ids[1..];
      HeadIsLatest(t, ids, rest, k);
      PrependDescending(t, ids[0], rest);
      [ids[0]] + rest
  }

  /** An entry at least as late as the head of a descending list can go in front. */
  lemma PrependDescending<K>(t: map<K, nat>, x: K, ids: seq<K>)
    requires x in t
    requires Descending(t, ids)
    requires ids != [] ==> t[x] >= t[ids[0]]
    ensures Descending(t, [x] + ids)
  {
    var r := [x] + ids;
    forall i, j | 0 <= i < j < |r|
      ensures t[r[i]] >= t[r[j]]
    {
      assert r[j] == ids[j - 1];
      if i > 0 {
        assert r[i] == ids[i - 1];
      }
    }
  }

  /** The head of a descending list is at least as late as anything holding
      the rest of the list plus an earlier entry. */
  lemma HeadIsLatest<K>(t: map<K, nat>, ids: seq<K>, rest: seq<K>, k: K)
    requires Descending(t, ids) && ids != []
    requires k in t && t[k] < t[ids[0]]
    requires multiset(rest) == multiset(ids[1..]) + multiset{k}
    ensures rest != [] ==> rest[0] in t && t[ids[0]] >= t[rest[0]]
  {
    if rest != [] {
      assert rest[0] in multiset(rest);
      if rest[0] != k {
        assert rest[0] in multiset(ids[1..]);
        var i :| 0 <= i < |ids[1..]| && ids[1..][i] == rest[0];
        assert ids[i + 1] == rest[0];
      }
    }
  }

  /** Inserting an entry that is not yet listed keeps the list free of repeats. */
  lemma {:induction false} InsertKeepsDistinct<K>(t: map<K, nat>, k: K, ids: seq<K>)
    requires k in t
    requires Descending(t, ids)
    requires Distinct(ids) && k !in ids
    ensures Distinct(InsertDescending(t, k, ids))
  {
    if ids != [] && t[k] < t[ids[0]] {
      assert ids == [ids[0]] + ids[1..];
      InsertKeepsDistinct(t, k, ids[1..]);
      var rest := InsertDescending(t, k, ids[1..]);
      assert ids[0] !in multiset(rest);
      assert ids[0] !in rest;
    }
  }

  /** The entries of the list after an insertion are the old ones and `k`. */
  lemma InsertMembers<K>(t: map<K, nat>, k: K, ids: seq<K>)
    requires k in t
    requires Descending(t, ids)
    ensures forall x :: x in InsertDescending(t, k, ids) <==> x == k || x in ids
  {
    var r := InsertDescending(t, k, ids);
    assert forall x :: x in r <==> x in multiset(r);
    assert forall x :: x in ids <==> x in multiset(ids);
  }

  /** Times never decrease along the list. */
  predicate Ascending<T>(time: T -> nat, xs: seq<T>) {
    forall i, j :: 0 <= i < j < |xs| ==> time(xs[i]) <= time(xs[j])
  }

  /** Puts `x` into an ascending list after every entry not later than it. */
  function InsertAscending<T>(time: T -> nat, x: T, xs: seq<T>): (r: seq<T>)
    requires Ascending(time, xs)
    ensures multiset(r) == multiset(xs) + multiset{x}
    ensures Ascending(time, r)
  {
    if xs == [] then [x]
    else if time(x) < time(xs[0]) then
      PrependAscending(time, x, xs);
      [x] + xs
    else
      var rest := InsertAscending(time, x, xs[1..]);
      assert xs == [xs[0]] + xs[1..];
      HeadIsEarliest(time, xs, rest, x);
      PrependAscending(time, xs[0], rest);
      [xs[0]] + rest
  }

  /** An entry no later than the head of an ascending list can go in front. */
  lemma PrependAscending<T>(time: T -> nat, x: T, xs: seq<T>)
    requires Ascending(time, xs)
    requires xs != [] ==> time(x) <= time(xs[0])
    ensures Ascending(time, [x] + xs)
  {
    var r := [x] + xs;
    forall i, j | 0 <= i < j < |r|
      ensures time(r[i]) <= time(r[j])
    {
      assert r[j] == xs[j - 1];
      if i > 0 {
        assert r[i] == xs[i - 1];
      }
    }
  }

  /** The head of an ascending list is no later than anything holding the rest
      of the list plus an entry not earlier than the head. */
  lemma HeadIsEarliest<T>(time: T -> nat, xs: seq<T>, rest: seq<T>, x: T)
    requires Ascending(time, xs) && xs != []
    requires time(x) >= time(xs[0])
    requires multiset(rest) == multiset(xs[1..]) + multiset{x}
    ensures rest != [] ==> time(xs[0]) <= time(rest[0])
  {
    if rest != [] {
      assert rest[0] in multiset(rest);
      if rest[0] != x {
        assert rest[0] in multiset(xs[1..]);
        var i :| 0 <= i < |xs[1..]| && xs[1..][i] == rest[0];
        assert xs[i + 1] == rest[0];
      }
    }
  }
}
