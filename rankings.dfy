/** Ranking entries and the order both the client store and the room keep
    them in: `list.sort((a, b) => a.time - b.time)`. JavaScript's
    `Array.prototype.sort` is stable, so entries with equal times keep
    their relative order; the model is a stable insertion sort. */
module Rankings {

  /** `{ id, name, time }`: a finisher and their time in milliseconds. */
  datatype Ranking = Ranking(id: string, name: string, time: int)

  predicate SortedByTime(s: seq<Ranking>) {
    forall i, j :: 0 <= i < j < |s| ==> s[i].time <= s[j].time
  }

  /** The entries of `s` whose time is `t`, in their order in `s`. */
  function WithTime(s: seq<Ranking>, t: int): (r: seq<Ranking>)
    ensures |r| <= |s|
  {
    if s == [] then []
    else WithTime(s[..|s| - 1], t) + (if s[|s| - 1].time == t then [s[|s| - 1]] else [])
  }

  /** Where a stable sort puts an entry appended after a sorted list: behind
      every entry whose time is not larger. */
  function Insert(s: seq<Ranking>, e: Ranking): (r: seq<Ranking>)
    ensures |r| == |s| + 1
    ensures forall x :: x in r <==> x in s || x == e
  {
    if s == [] || s[|s| - 1].time <= e.time then s + [e]
    else
      var init := s[..|s| - 1];
      assert s == init + [s[|s| - 1]];
      Insert(init, e) + [s[|s| - 1]]
  }

  /** Inserting adds exactly the new entry. */
  lemma {:induction false} InsertPermutes(s: seq<Ranking>, e: Ranking)
    ensures multiset(Insert(s, e)) == multiset(s) + multiset{e}
  {
    if s != [] && s[|s| - 1].time > e.time {
      var init := s[..|s| - 1];
      InsertPermutes(init, e);
      assert s == init + [s[|s| - 1]];
    }
  }

  /** A stable sort by ascending time. */
  function SortByTime(s: seq<Ranking>): (r: seq<Ranking>)
    ensures |r| == |s|
    ensures forall x :: x in r <==> x in s
  {
    if s == [] then []
    else
      assert s == s[..|s| - 1] + [s[|s| - 1]];
      Insert(SortByTime(s[..|s| - 1]), s[|s| - 1])
  }

  /** Inserting into a sorted list keeps it sorted. */
  lemma {:induction false} InsertSorted(s: seq<Ranking>, e: Ranking)
    requires SortedByTime(s)
    ensures SortedByTime(Insert(s, e))
  {
    if s != [] && s[|s| - 1].time > e.time {
      var init := s[..|s| - 1];
      InsertSorted(init, e);
      var r := Insert(init, e);
      InsertPermutes(init, e);
      forall k | 0 <= k < |r|
        ensures r[k].time <= s[|s| - 1].time
      {
        assert r[k] in multiset(r);
        if r[k] != e {
          assert r[k] in multiset(init);
          assert r[k] in init;
        }
      }
    }
  }

  /** The inserted entry comes after every entry with its own time and
      changes the relative order of no other entries. */
  lemma {:induction false} InsertStable(s: seq<Ranking>, e: Ranking, t: int)
    ensures WithTime(Insert(s, e), t) == WithTime(s, t) + (if e.time == t then [e] else [])
  {
    if s == [] || s[|s| - 1].time <= e.time {
      WithTimeSnoc(s, e, t);
    } else {
      var init, last := s[..|s| - 1], s[|s| - 1];
      assert Insert(s, e) == Insert(init, e) + [last];
      assert s == init + [last];
      InsertStable(init, e, t);
      StableBehind(Insert(init, e), init, last, e, t);
    }
  }

  /** An entry with a larger time than `e` put behind both lists keeps the
      relation between them. */
  lemma StableBehind(mid: seq<Ranking>, init: seq<Ranking>, last: Ranking, e: Ranking, t: int)
    requires last.time > e.time
    requires WithTime(mid, t) == WithTime(init, t) + (if e.time == t then [e] else [])
    ensures WithTime(mid + [last], t) == WithTime(init + [last], t) + (if e.time == t then [e] else [])
  {
    WithTimeSnoc(mid, last, t);
    WithTimeSnoc(init, last, t);
    if last.time == t {
      assert WithTime(mid, t) == WithTime(init, t) + [];
    } else {
      assert WithTime(mid + [last], t) == WithTime(mid, t) + [];
      assert WithTime(init + [last], t) == WithTime(init, t) + [];
    }
  }

  /** The entries of a list with one more entry at its end. */
  lemma WithTimeSnoc(s: seq<Ranking>, x: Ranking, t: int)
    ensures WithTime(s + [x], t) == WithTime(s, t) + (if x.time == t then [x] else [])
  {
    assert (s + [x])[..|s|] == s;
  }

  /** The sort yields the same entries, in ascending time. */
  lemma {:induction false} SortByTimeOrders(s: seq<Ranking>)
    ensures SortedByTime(SortByTime(s))
    ensures multiset(SortByTime(s)) == multiset(s)
  {
    if s != [] {
      var init, last := s[..|s| - 1], s[|s| - 1];
      SortByTimeOrders(init);
      InsertSorted(SortByTime(init), last);
      InsertPermutes(SortByTime(init), last);
      assert s == init + [last];
    }
  }

  /** The sort keeps entries with equal times in their original order. */
  lemma {:induction false} SortByTimeStable(s: seq<Ranking>, t: int)
    ensures WithTime(SortByTime(s), t) == WithTime(s, t)
  {
    if s != [] {
      var init, last := s[..|s| - 1], s[|s| - 1];
      assert SortByTime(s) == Insert(SortByTime(init), last);
      SortByTimeStable(init, t);
      InsertStable(SortByTime(init), last, t);
      assert s == init + [last];
      WithTimeSnoc(init, last, t);
    }
  }

  /** The sort yields the same entries, in ascending time, and entries with
      equal times in their original order. */
  lemma SortByTimeCorrect(s: seq<Ranking>)
    ensures SortedByTime(SortByTime(s))
    ensures multiset(SortByTime(s)) == multiset(s)
    ensures forall t :: WithTime(SortByTime(s), t) == WithTime(s, t)
  {
    SortByTimeOrders(s);
    forall t ensures WithTime(SortByTime(s), t) == WithTime(s, t) {
      SortByTimeStable(s, t);
    }
  }

  /** Sorting a list that is already sorted leaves it unchanged. */
  lemma {:induction false} SortSortedIsIdentity(s: seq<Ranking>)
    requires SortedByTime(s)
    ensures SortByTime(s) == s
  {
    if s != [] {
      var init := s[..|s| - 1];
      SortSortedIsIdentity(init);
      assert s == init + [s[|s| - 1]];
    }
  }

  /** Appending one entry to a sorted list and sorting the result, as the
      store and the room do, is the same as inserting it: the result is
      sorted, holds the old entries plus the new one, and among equal times
      the new entry comes last. */
  lemma AppendThenSort(s: seq<Ranking>, e: Ranking)
    requires SortedByTime(s)
    ensures SortByTime(s + [e]) == Insert(s, e)
    ensures SortedByTime(Insert(s, e))
    ensures multiset(Insert(s, e)) == multiset(s) + multiset{e}
    ensures forall t :: WithTime(Insert(s, e), t) == WithTime(s, t) + (if e.time == t then [e] else [])
  {
    assert (s + [e])[..|s|] == s;
    SortSortedIsIdentity(s);
    InsertSorted(s, e);
    InsertPermutes(s, e);
    forall t ensures WithTime(Insert(s, e), t) == WithTime(s, t) + (if e.time == t then [e] else []) {
      InsertStable(s, e, t);
    }
  }
}
