/** The chronological sort of the copied prediction list (components/app-page.tsx:133).
    The comparator is `a.time - b.time`, and `Array.prototype.sort` is stable, so the
    result is the stable sort by time: modelled here as an insertion sort. */
module TimeSort {
  import opened TidePrediction

  /** Inserts `p` after every entry of `r` whose time is at most `p.time`. */
  function Insert(r: seq<Pred>, p: Pred): (q: seq<Pred>)
    ensures |q| == |r| + 1
    decreases |r|
  {
    if r == [] || r[|r| - 1].time <= p.time then r + [p]
    else Insert(r[..|r| - 1], p) + [r[|r| - 1]]
  }

  /** The sorted copy: entries in time order, equal times in input order. */
  function SortByTime(s: seq<Pred>): (r: seq<Pred>)
    ensures |r| == |s|
    decreases |s|
  {
    if s == [] then [] else Insert(SortByTime(s[..|s| - 1]), s[|s| - 1])
  }

  /** The entries of `s` stamped exactly `t`, in the order of `s`. */
  function AtTime(s: seq<Pred>, t: int): seq<Pred>
    decreases |s|
  {
    if s == [] then [] else (if s[0].time == t then [s[0]] else []) + AtTime(s[1..], t)
  }

  lemma {:induction false} AtTimeAppend(a: seq<Pred>, b: seq<Pred>, t: int)
    ensures AtTime(a + b, t) == AtTime(a, t) + AtTime(b, t)
    decreases |a|
  {
    if a == [] {
      assert a + b == b;
    } else {
      assert (a + b)[1..] == a[1..] + b;
      AtTimeAppend(a[1..], b, t);
    }
  }

  lemma {:induction false} InsertPermutes(r: seq<Pred>, p: Pred)
    ensures multiset(Insert(r, p)) == multiset(r) + multiset{p}
    decreases |r|
  {
    if r != [] && r[|r| - 1].time > p.time {
      InsertPermutes(r[..|r| - 1], p);
      assert r == r[..|r| - 1] + [r[|r| - 1]];
    }
  }

  lemma {:induction false} InsertSorted(r: seq<Pred>, p: Pred)
    requires SortedByTime(r)
    ensures SortedByTime(Insert(r, p))
    decreases |r|
  {
    if r != [] && r[|r| - 1].time > p.time {
      var init, last := r[..|r| - 1], r[|r| - 1];
      InsertSorted(init, p);
      InsertPermutes(init, p);
      var q := Insert(init, p);
      forall x | x in q ensures x.time <= last.time {
        assert x in multiset(q);
        assert x == p || x in multiset(init);
      }
      forall i, j | 0 <= i < j < |q| + 1 ensures (q + [last])[i].time <= (q + [last])[j].time {
        if j == |q| { assert q[i] in q; }
      }
    }
  }

  /** Equal timestamps keep their relative order through one insertion. */
  lemma {:induction false} InsertStable(r: seq<Pred>, p: Pred, t: int)
    ensures AtTime(Insert(r, p), t) == AtTime(r, t) + AtTime([p], t)
    decreases |r|
  {
    if r == [] || r[|r| - 1].time <= p.time {
      AtTimeAppend(r, [p], t);
    } else {
      var init, last := r[..|r| - 1], r[|r| - 1];
      InsertStable(init, p, t);
      AtTimeAppend(Insert(init, p), [last], t);
      AtTimeAppend(init, [last], t);
      assert r == init + [last];
      if t == p.time {
        assert AtTime([last], t) == [] by { assert AtTime([last][1..], t) == []; }
      } else {
        assert AtTime([p], t) == [] by { assert AtTime([p][1..], t) == []; }
      }
    }
  }

  /** The sorted copy is non-decreasing in time and holds exactly the input's entries. */
  lemma {:induction false} SortByTimeSortedPermutation(s: seq<Pred>)
    ensures SortedByTime(SortByTime(s))
    ensures multiset(SortByTime(s)) == multiset(s)
    decreases |s|
  {
    if s != [] {
      var init := s[..|s| - 1];
      SortByTimeSortedPermutation(init);
      InsertSorted(SortByTime(init), s[|s| - 1]);
      InsertPermutes(SortByTime(init), s[|s| - 1]);
      assert s == init + [s[|s| - 1]];
    }
  }

  /** The sort is stable: for every timestamp, the entries stamped with it appear
      in the sorted copy in the same order as in the input. */
  lemma {:induction false} SortByTimeStable(s: seq<Pred>, t: int)
    ensures AtTime(SortByTime(s), t) == AtTime(s, t)
    decreases |s|
  {
    if s != [] {
      var init, last := s[..|s| - 1], s[|s| - 1];
      SortByTimeStable(init, t);
      InsertStable(SortByTime(init), last, t);
      AtTimeAppend(init, [last], t);
      assert s == init + [last];
    }
  }

  /** Every entry picked out for `t` comes from `s` and is stamped `t`. */
  lemma {:induction false} AtTimeFrom(s: seq<Pred>, t: int, x: Pred)
    requires x in AtTime(s, t)
    ensures x in s && x.time == t
    decreases |s|
  {
    if x !in AtTime(s[1..], t) {
      assert x == s[0];
    } else {
      AtTimeFrom(s[1..], t, x);
    }
  }

  /** A non-empty sequence has an entry at the timestamp of its first entry. */
  lemma AtTimeHead(s: seq<Pred>)
    requires s != []
    ensures AtTime(s, s[0].time) != []
  {
  }

  /** Two time-sorted sequences that agree, timestamp by timestamp, on the order of their
      entries are equal. */
  lemma {:induction false} StableSortUnique(a: seq<Pred>, b: seq<Pred>)
    requires SortedByTime(a) && SortedByTime(b)
    requires forall t :: AtTime(a, t) == AtTime(b, t)
    ensures a == b
    decreases |a| + |b|
  {
    if a == [] && b == [] {
    } else if a == [] {
      AtTimeHead(b);
      assert false;
    } else if b == [] {
      AtTimeHead(a);
      assert false;
    } else {
      assert a[0] in AtTime(a, a[0].time);
      AtTimeFrom(b, a[0].time, a[0]);
      assert b[0] in AtTime(b, b[0].time);
      AtTimeFrom(a, b[0].time, b[0]);
      var m := a[0].time;
      assert b[0].time == m;
      assert AtTime(a, m) == [a[0]] + AtTime(a[1..], m);
      assert AtTime(b, m) == [b[0]] + AtTime(b[1..], m);
      forall t ensures AtTime(a[1..], t) == AtTime(b[1..], t) {
        if t == m {
          assert AtTime(a, m)[1..] == AtTime(a[1..], m);
          assert AtTime(b, m)[1..] == AtTime(b[1..], m);
        } else {
          assert AtTime(a, t) == AtTime(a[1..], t);
          assert AtTime(b, t) == AtTime(b[1..], t);
        }
      }
      StableSortUnique(a[1..], b[1..]);
      assert a == [a[0]] + a[1..] && b == [b[0]] + b[1..];
    }
  }

  /** Any stable sort by time of `s` (non-decreasing in time, equal times in input order)
      is `SortByTime(s)`: the model does not depend on which stable algorithm the
      engine runs. */
  lemma SortByTimeIsTheStableSort(s: seq<Pred>, r: seq<Pred>)
    requires SortedByTime(r)
    requires forall t :: AtTime(r, t) == AtTime(s, t)
    ensures r == SortByTime(s)
  {
    SortByTimeSortedPermutation(s);
    forall t ensures AtTime(r, t) == AtTime(SortByTime(s), t) {
      SortByTimeStable(s, t);
    }
    StableSortUnique(r, SortByTime(s));
  }
}
