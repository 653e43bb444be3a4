/** `Array.prototype.filter` and the stable newest-first `Array.prototype.sort` used by the pages. */
module Collections {

  /** `s.filter(keep)`: the elements that satisfy `keep`, in their original order. */
  function Filter<T>(s: seq<T>, keep: T -> bool): (r: seq<T>)
    ensures |r| <= |s|
    ensures forall i :: 0 <= i < |r| ==> r[i] in s && keep(r[i])
    ensures forall i :: 0 <= i < |s| && keep(s[i]) ==> s[i] in r
  {
    if s == [] then []
    else if keep(s[0]) then [s[0]] + Filter(s[1..], keep)
    else Filter(s[1..], keep)
  }

  /** Filtering distributes over concatenation, so it keeps the relative order of what it keeps. */
  lemma {:induction false} FilterAppend<T>(a: seq<T>, b: seq<T>, keep: T -> bool)
    ensures Filter(a + b, keep) == Filter(a, keep) + Filter(b, keep)
  {
    if a == [] {
      assert a + b == b;
    } else {
      assert (a + b)[0] == a[0];
      assert (a + b)[1..] == a[1..] + b;
      FilterAppend(a[1..], b, keep);
    }
  }

  /** Ordered by non-increasing timestamp: the newest entry comes first. */
  ghost predicate NewestFirst<T>(s: seq<T>, time: T -> int) {
    forall i, j :: 0 <= i < j < |s| ==> time(s[i]) >= time(s[j])
  }

  /** Inserts `x` before the first entry that is not newer than it, so entries with equal
      timestamps keep their original order. */
  function Insert<T>(x: T, s: seq<T>, time: T -> int): (r: seq<T>)
    requires NewestFirst(s, time)
    ensures NewestFirst(r, time)
    ensures multiset(r) == multiset(s) + multiset{x}
  {
    if s == [] || time(s[0]) <= time(x) then
      PrependNewest(x, s, time);
      [x] + s
    else
      var tail := Insert(x, s[1..], time);
      InsertBehindHead(x, s[0], s[1..], tail, time);
      assert s == [s[0]] + s[1..];
      assert multiset([s[0]] + tail) == multiset{s[0]} + multiset(tail);
      [s[0]] + tail
  }

  /** An entry at least as new as the first of a newest-first list can go in front. */
  lemma PrependNewest<T>(x: T, s: seq<T>, time: T -> int)
    requires NewestFirst(s, time) && (s == [] || time(s[0]) <= time(x))
    ensures NewestFirst([x] + s, time)
  {
    forall i, j | 0 <= i < j < |[x] + s| ensures time(([x] + s)[i]) >= time(([x] + s)[j]) {
      assert ([x] + s)[j] == s[j - 1];
      if i > 0 {
        assert ([x] + s)[i] == s[i - 1];
      } else {
        assert time(s[0]) >= time(s[j - 1]) || j == 1;
      }
    }
  }

  /** An entry newer than `x` and than everything behind it stays in front of the insertion. */
  lemma InsertBehindHead<T>(x: T, head: T, rest: seq<T>, tail: seq<T>, time: T -> int)
    requires NewestFirst([head] + rest, time) && time(head) > time(x)
    requires NewestFirst(tail, time) && multiset(tail) == multiset(rest) + multiset{x}
    ensures NewestFirst([head] + tail, time)
  {
    forall k | 0 <= k < |tail| ensures time(head) >= time(tail[k]) {
      assert tail[k] in multiset(tail);
      if tail[k] != x {
        assert tail[k] in multiset(rest);
        assert tail[k] in rest;
        var j :| 0 <= j < |rest| && rest[j] == tail[k];
        var s := [head] + rest;
        assert s[0] == head && s[j + 1] == rest[j];
        assert time(s[0]) >= time(s[j + 1]);
      }
    }
    forall i, j | 0 <= i < j < |[head] + tail| ensures time(([head] + tail)[i]) >= time(([head] + tail)[j]) {
      if i > 0 {
        assert ([head] + tail)[i] == tail[i - 1];
      }
      assert ([head] + tail)[j] == tail[j - 1];
    }
  }

  /** The entries stamped exactly `t`. */
  function StampedAt<T>(time: T -> int, t: int): T -> bool {
    x => time(x) == t
  }

  /** Insertion puts `x` in front of every entry with the same timestamp and keeps the others'
      order: among the entries stamped `t`, the new list is the old one, after `x` when `x` is
      stamped `t` too. */
  lemma {:induction false} InsertKeepsTies<T>(x: T, s: seq<T>, time: T -> int, t: int)
    requires NewestFirst(s, time)
    ensures Filter(Insert(x, s, time), StampedAt(time, t)) ==
            (if time(x) == t then [x] else []) + Filter(s, StampedAt(time, t))
  {
    var r := Insert(x, s, time);
    if s == [] || time(s[0]) <= time(x) {
      assert r == [x] + s;
      assert r[1..] == s;
    } else {
      var tail := Insert(x, s[1..], time);
      assert r == [s[0]] + tail && r[1..] == tail;
      assert NewestFirst(s[1..], time);
      InsertKeepsTies(x, s[1..], time, t);
      if time(x) == t {
        assert !StampedAt(time, t)(s[0]);
      }
    }
  }

  /** `[...s].sort((a, b) => time(b) - time(a))`: a newest-first permutation of `s` in which
      entries with equal timestamps keep their original order (the sort is stable). */
  function SortNewestFirst<T>(s: seq<T>, time: T -> int): (r: seq<T>)
    ensures NewestFirst(r, time)
    ensures multiset(r) == multiset(s)
    ensures forall t :: Filter(r, StampedAt(time, t)) == Filter(s, StampedAt(time, t))
  {
    if s == [] then []
    else
      assert s == [s[0]] + s[1..];
      var rest := SortNewestFirst(s[1..], time);
      SortKeepsTies(s[0], s[1..], rest, time);
      Insert(s[0], rest, time)
  }

  /** The stability step of the sort: inserting the head into the stably sorted tail. */
  lemma SortKeepsTies<T>(x: T, s: seq<T>, sorted: seq<T>, time: T -> int)
    requires NewestFirst(sorted, time)
    requires forall t :: Filter(sorted, StampedAt(time, t)) == Filter(s, StampedAt(time, t))
    ensures forall t :: Filter(Insert(x, sorted, time), StampedAt(time, t)) == Filter([x] + s, StampedAt(time, t))
  {
    forall t ensures Filter(Insert(x, sorted, time), StampedAt(time, t)) == Filter([x] + s, StampedAt(time, t)) {
      InsertKeepsTies(x, sorted, time, t);
      assert ([x] + s)[1..] == s;
    }
  }

  /** `s.reverse()`. */
  function Reverse<T>(s: seq<T>): (r: seq<T>)
    ensures |r| == |s|
    ensures forall i :: 0 <= i < |s| ==> r[i] == s[|s| - 1 - i]
  {
    if s == [] then [] else Reverse(s[1..]) + [s[0]]
  }
}
