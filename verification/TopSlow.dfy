/**
 The slowest queries of a run: a short sorted list for each worker, merged and cut
 at the end, against the slowest of all queries taken together.
 */
module TopSlow {
  const LIMIT: nat := 10

  datatype Slow = Slow(latencyMs: real, detail: string)

  predicate Descending(s: seq<Slow>) {
    forall i, j :: 0 <= i < j < |s| ==> s[i].latencyMs >= s[j].latencyMs
  }

  function Least(a: nat, b: nat): nat { if a < b then a else b }

  /** The list is sorted and capped, and no entry outside it is slower than one inside. */
  ghost predicate IsTop(list: seq<Slow>, entries: multiset<Slow>) {
    && Descending(list)
    && multiset(list) <= entries
    && |list| == Least(10, |entries|)
    && forall x, y :: x in list && y in entries - multiset(list) ==> x.latencyMs >= y.latencyMs
  }

  // ----- Sorting -----

  function Insert(s: seq<Slow>, e: Slow): (r: seq<Slow>)
    requires Descending(s)
    ensures Descending(r) && multiset(r) == multiset(s) + multiset{e}
  {
    if s == [] || e.latencyMs > s[0].latencyMs then
      assert multiset([e] + s) == multiset(s) + multiset{e};
      [e] + s
    else
      var tail := Insert(s[1..], e);
      InsertedBelow(s, e, tail);
      [s[0]] + tail
  }

  lemma InsertedBelow(s: seq<Slow>, e: Slow, tail: seq<Slow>)
    requires s != [] && Descending(s) && e.latencyMs <= s[0].latencyMs
    requires Descending(tail) && multiset(tail) == multiset(s[1..]) + multiset{e}
    ensures Descending([s[0]] + tail) && multiset([s[0]] + tail) == multiset(s) + multiset{e}
  {
    assert s == [s[0]] + s[1..];
    forall j | 0 <= j < |tail|
      ensures tail[j].latencyMs <= s[0].latencyMs
    {
      assert tail[j] in multiset(tail);
      assert tail[j] in s[1..] || tail[j] == e;
    }
  }

  /** Stands for sort.Slice: all that is used is that the result is sorted and a permutation. */
  method Sort(s: seq<Slow>) returns (r: seq<Slow>)
    ensures Descending(r) && multiset(r) == multiset(s)
  {
    r := [];
    for i := 0 to |s|
      invariant Descending(r) && multiset(r) == multiset(s[..i])
    {
      r := Insert(r, s[i]);
      assert s[..i + 1] == s[..i] + [s[i]];
    }
    assert s[..|s|] == s;
  }

  // ----- Sizes of multisets -----

  lemma SubSize<T>(a: multiset<T>, b: multiset<T>)
    requires a <= b
    ensures |a| <= |b| && (|a| == |b| ==> a == b)
  {
    assert b == a + (b - a);
  }

  // ----- One worker -----

  method InsertTopSlow(list: seq<Slow>, entry: Slow) returns (r: seq<Slow>)
    requires Descending(list) && |list| <= LIMIT
    ensures Descending(r) && |r| == Least(10, |list| + 1)
    ensures forall entries :: IsTop(list, entries) ==> IsTop(r, entries + multiset{entry})
  {
    if |list| < LIMIT {
      r := Sort(list + [entry]);
      assert |multiset(r)| == |r|;
      forall entries | IsTop(list, entries)
        ensures IsTop(r, entries + multiset{entry})
      {
        ShortTop(list, r, entry, entries);
      }
      return;
    }
    var last := list[|list| - 1];
    if entry.latencyMs <= last.latencyMs {
      r := list;
      forall entries | IsTop(list, entries)
        ensures IsTop(r, entries + multiset{entry})
      {
        FastEntry(list, entry, entries);
      }
      return;
    }
    var replaced := list[|list| - 1 := entry];
    r := Sort(replaced);
    assert list == list[..|list| - 1] + [last] && replaced == list[..|list| - 1] + [entry];
    assert |multiset(r)| == |multiset(replaced)|;
    forall entries | IsTop(list, entries)
      ensures IsTop(r, entries + multiset{entry})
    {
      SlowEntry(list, r, entry, entries);
    }
  }

  lemma ShortTop(list: seq<Slow>, r: seq<Slow>, entry: Slow, entries: multiset<Slow>)
    requires IsTop(list, entries) && |list| < LIMIT
    requires Descending(r) && multiset(r) == multiset(list + [entry])
    ensures IsTop(r, entries + multiset{entry})
  {
    assert |multiset(list)| == |list| && |multiset(r)| == |r|;
    SubSize(multiset(list), entries);
    assert multiset(r) == entries + multiset{entry};
  }

  lemma FastEntry(list: seq<Slow>, entry: Slow, entries: multiset<Slow>)
    requires IsTop(list, entries) && |list| == LIMIT && entry.latencyMs <= list[|list| - 1].latencyMs
    ensures IsTop(list, entries + multiset{entry})
  {
    assert entries + multiset{entry} - multiset(list) == (entries - multiset(list)) + multiset{entry};
    forall x | x in list
      ensures x.latencyMs >= entry.latencyMs
    {
      var i :| 0 <= i < |list| && list[i] == x;
    }
  }

  lemma SlowEntry(list: seq<Slow>, r: seq<Slow>, entry: Slow, entries: multiset<Slow>)
    requires IsTop(list, entries) && |list| == LIMIT && entry.latencyMs > list[|list| - 1].latencyMs
    requires Descending(r) && |r| == |list|
    requires multiset(r) == multiset(list) - multiset{list[|list| - 1]} + multiset{entry}
    ensures IsTop(r, entries + multiset{entry})
  {
    var last := list[|list| - 1];
    assert last in list;
    var rest := entries - multiset(list);
    assert entries + multiset{entry} - multiset(r) == rest + multiset{last};
    forall x | x in r
      ensures x.latencyMs >= last.latencyMs
    {
      assert x in multiset(r);
      if x != entry {
        assert x in multiset(list);
        var i :| 0 <= i < |list| && list[i] == x;
      }
    }
  }

  // ----- All workers -----

  function Concat(lists: seq<seq<Slow>>): seq<Slow> {
    if lists == [] then [] else Concat(lists[..|lists| - 1]) + lists[|lists| - 1]
  }

  ghost function Union(all: seq<multiset<Slow>>): multiset<Slow> {
    if all == [] then multiset{} else Union(all[..|all| - 1]) + all[|all| - 1]
  }

  /** Concatenate the workers' lists, sort, cut. */
  method MergeTopSlow(lists: seq<seq<Slow>>) returns (top: seq<Slow>)
    ensures IsTop(top, multiset(Concat(lists)))
    ensures forall all :: |all| == |lists| && (forall w :: 0 <= w < |lists| ==> IsTop(lists[w], all[w])) ==> IsTop(top, Union(all))
  {
    var joined: seq<Slow> := [];
    for w := 0 to |lists|
      invariant joined == Concat(lists[..w])
    {
      joined := joined + lists[w];
      assert lists[..w + 1][..w] == lists[..w];
    }
    assert lists[..|lists|] == lists;
    var sorted := Sort(joined);
    assert |multiset(sorted)| == |sorted|;
    top := if |sorted| > LIMIT then sorted[..LIMIT] else sorted;
    assert sorted == top + sorted[|top|..];
    CutIsTop(top, sorted[|top|..]);
    forall all | |all| == |lists| && (forall w :: 0 <= w < |lists| ==> IsTop(lists[w], all[w]))
      ensures IsTop(top, Union(all))
    {
      TopOfTops(lists, all, top);
    }
  }

  lemma CutInOrder(top: seq<Slow>, rest: seq<Slow>)
    requires Descending(top + rest)
    ensures Descending(top) && forall x, y :: x in top && y in rest ==> x.latencyMs >= y.latencyMs
  {
    var both := top + rest;
    assert forall i :: 0 <= i < |top| ==> both[i] == top[i];
    assert forall j :: 0 <= j < |rest| ==> both[|top| + j] == rest[j];
  }

  lemma CutIsTop(top: seq<Slow>, rest: seq<Slow>)
    requires Descending(top + rest) && |top| == Least(LIMIT, |top| + |rest|)
    ensures IsTop(top, multiset(top + rest))
  {
    CutInOrder(top, rest);
    hide Descending;
    var both := multiset(top) + multiset(rest);
    assert multiset(top + rest) == both && both - multiset(top) == multiset(rest);
    assert |multiset(top)| == |top| && |multiset(rest)| == |rest|;
  }

  lemma {:induction false} ConcatWithin(lists: seq<seq<Slow>>, all: seq<multiset<Slow>>)
    requires |all| == |lists| && forall w :: 0 <= w < |lists| ==> multiset(lists[w]) <= all[w]
    ensures multiset(Concat(lists)) <= Union(all)
  {
    if lists != [] {
      var n := |lists| - 1;
      ConcatWithin(lists[..n], all[..n]);
    }
  }

  lemma {:induction false} PartOfConcat(lists: seq<seq<Slow>>, w: nat)
    requires w < |lists|
    ensures multiset(lists[w]) <= multiset(Concat(lists))
  {
    var n := |lists| - 1;
    if w < n {
      PartOfConcat(lists[..n], w);
      assert lists[..n][w] == lists[w];
    }
  }

  /** An entry missing from the concatenation was left out by some worker. */
  lemma {:induction false} LeftOutBy(lists: seq<seq<Slow>>, all: seq<multiset<Slow>>, y: Slow) returns (w: nat)
    requires |all| == |lists| && forall w :: 0 <= w < |lists| ==> multiset(lists[w]) <= all[w]
    requires y in Union(all) - multiset(Concat(lists))
    ensures w < |lists| && y in all[w] - multiset(lists[w])
  {
    var n := |lists| - 1;
    if y in all[n] - multiset(lists[n]) {
      w := n;
    } else {
      assert multiset(Concat(lists))[y] == multiset(Concat(lists[..n]))[y] + multiset(lists[n])[y];
      w := LeftOutBy(lists[..n], all[..n], y);
    }
  }

  /** The top of the workers' tops is the top of everything. */
  lemma TopOfTops(lists: seq<seq<Slow>>, all: seq<multiset<Slow>>, top: seq<Slow>)
    requires |all| == |lists| && forall w :: 0 <= w < |lists| ==> IsTop(lists[w], all[w])
    requires IsTop(top, multiset(Concat(lists)))
    ensures IsTop(top, Union(all))
  {
    ConcatWithin(lists, all);
    var c, u := multiset(Concat(lists)), Union(all);
    SubSize(c, u);
    forall y | y in u - c
      ensures |top| == LIMIT && forall x :: x in top ==> x.latencyMs >= y.latencyMs
    {
      var w := LeftOutBy(lists, all, y);
      PartOfConcat(lists, w);
      FullWorker(lists[w], all[w], y);
      SubSize(multiset(lists[w]), c);
      assert |multiset(lists[w])| == |lists[w]|;
      forall x | x in top
        ensures x.latencyMs >= y.latencyMs
      {
        Overtaken(lists[w], c, top, x, y);
      }
    }
    if u - c == multiset{} {
      assert u == c;
    } else {
      var y :| y in u - c;
      assert |top| == LIMIT;
      forall x, z: Slow | x in top && z in u - multiset(top)
        ensures x.latencyMs >= z.latencyMs
      {
        if z !in c - multiset(top) {
          assert z in u - c;
        }
      }
    }
  }

  /** A worker that left an entry out has a full list, all at least as slow. */
  lemma FullWorker(list: seq<Slow>, entries: multiset<Slow>, y: Slow)
    requires IsTop(list, entries) && y in entries - multiset(list)
    ensures |list| == LIMIT && forall z :: z in list ==> z.latencyMs >= y.latencyMs
  {
    assert |multiset(list)| == |list|;
    assert multiset(list) != entries;
    SubSize(multiset(list), entries);
  }

  /** A full list of entries slower than x would push x out of the top. */
  lemma Overtaken(list: seq<Slow>, c: multiset<Slow>, top: seq<Slow>, x: Slow, y: Slow)
    requires IsTop(top, c) && multiset(list) <= c && |list| == LIMIT && x in top
    requires forall z :: z in list ==> z.latencyMs >= y.latencyMs
    ensures x.latencyMs >= y.latencyMs
  {
    if x.latencyMs < y.latencyMs {
      forall z: Slow | z in multiset(list)
        ensures multiset(list)[z] <= multiset(top)[z]
      {
        assert z in list;
        assert z !in c - multiset(top);
      }
      assert multiset(list) + multiset{x} <= multiset(top) by {
        assert x !in list;
      }
      assert |multiset(list)| == |list| && |multiset(top)| == |top|;
      SubSize(multiset(list) + multiset{x}, multiset(top));
    }
  }

  /** The latencies of a top list are determined by the entries alone. */
  lemma TopLatenciesUnique(a: seq<Slow>, b: seq<Slow>, entries: multiset<Slow>, k: nat)
    requires IsTop(a, entries) && IsTop(b, entries) && k < |a|
    ensures |a| == |b| && a[k].latencyMs == b[k].latencyMs
  {
    NotFaster(a, b, entries, k);
    NotFaster(b, a, entries, k);
  }

  lemma Halves(s: seq<Slow>, k: nat, z: Slow)
    requires k <= |s|
    ensures multiset(s)[z] == multiset(s[..k])[z] + multiset(s[k..])[z]
  {
    assert s == s[..k] + s[k..];
  }

  /** Entries slower than b[k] are all in b before k. */
  lemma SlowerIsBefore(b: seq<Slow>, entries: multiset<Slow>, k: nat, z: Slow)
    requires IsTop(b, entries) && k < |b| && z.latencyMs > b[k].latencyMs
    ensures entries[z] <= multiset(b[..k])[z]
  {
    assert b[k] in b && z !in entries - multiset(b);
    assert Descending(b);
    Halves(b, k, z);
    hide IsTop;
    var tail := b[k..];
    assert forall j :: 0 <= j < |tail| ==> tail[j] == b[k + j];
    assert z !in tail;
    assert z !in multiset(tail);
  }

  lemma FrontIsSlow(a: seq<Slow>, k: nat, z: Slow)
    requires Descending(a) && k < |a| && z in a[..k + 1]
    ensures z.latencyMs >= a[k].latencyMs
  {
    var i :| 0 <= i <= k && a[..k + 1][i] == z;
    assert a[i] == z;
  }

  lemma InFront(a: seq<Slow>, entries: multiset<Slow>, k: nat, z: Slow)
    requires IsTop(a, entries) && k < |a| && z in a[..k + 1]
    ensures z.latencyMs >= a[k].latencyMs && multiset(a[..k + 1])[z] <= entries[z]
  {
    assert Descending(a) && multiset(a)[z] <= entries[z];
    hide IsTop, Descending;
    Halves(a, k + 1, z);
    FrontIsSlow(a, k, z);
  }

  lemma FrontWithin(a: seq<Slow>, b: seq<Slow>, entries: multiset<Slow>, k: nat)
    requires IsTop(a, entries) && IsTop(b, entries) && k < |a| && k < |b|
    requires a[k].latencyMs > b[k].latencyMs
    ensures multiset(a[..k + 1]) <= multiset(b[..k])
  {
    hide IsTop;
    forall z: Slow
      ensures multiset(a[..k + 1])[z] <= multiset(b[..k])[z]
    {
      if z in multiset(a[..k + 1]) {
        InFront(a, entries, k, z);
        SlowerIsBefore(b, entries, k, z);
      }
    }
  }

  lemma NoRoom(front: seq<Slow>, before: seq<Slow>)
    requires multiset(front) <= multiset(before)
    ensures |front| <= |before|
  {
    SubSize(multiset(front), multiset(before));
    assert |multiset(front)| == |front| && |multiset(before)| == |before|;
  }

  lemma NotFaster(a: seq<Slow>, b: seq<Slow>, entries: multiset<Slow>, k: nat)
    requires IsTop(a, entries) && IsTop(b, entries) && k < |a|
    ensures k < |b| && a[k].latencyMs <= b[k].latencyMs
  {
    assert |a| == |b|;
    hide IsTop;
    if a[k].latencyMs > b[k].latencyMs {
      FrontWithin(a, b, entries, k);
      NoRoom(a[..k + 1], b[..k]);
    }
  }
}
