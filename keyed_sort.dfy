/**
 * `Array.prototype.sort` with the comparator of capabilities/helpers/TestRunCfg.ts
 * (lines 34-40): it orders by an integer key and returns 0 for equal keys.
 * The sort is stable, so its result is determined: ordered by key, and for
 * each key the files that carry it keep their listing order.
 */
module KeyedSort {

  /** A fixture file name with the integer its comparator reads from it. */
  datatype Keyed = Keyed(key: nat, file: string)

  ghost predicate SortedByKey(xs: seq<Keyed>) {
    forall i, j :: 0 <= i < j < |xs| ==> xs[i].key <= xs[j].key
  }

  /** The entries of `xs` that carry key `k`, in their order in `xs`. */
  function WithKey(xs: seq<Keyed>, k: nat): (r: seq<Keyed>)
    ensures forall x :: x in r ==> x in xs && x.key == k
  {
    if xs == [] then []
    else
      var init := WithKey(xs[..|xs| - 1], k);
      if xs[|xs| - 1].key == k then init + [xs[|xs| - 1]] else init
  }

  lemma {:induction false} InWithKey(xs: seq<Keyed>, x: Keyed)
    requires x in xs
    ensures x in WithKey(xs, x.key)
  {
    if xs[|xs| - 1] != x {
      assert x in xs[..|xs| - 1] by { assert xs == xs[..|xs| - 1] + [xs[|xs| - 1]]; }
      InWithKey(xs[..|xs| - 1], x);
    }
  }

  lemma WithKeySnoc(ys: seq<Keyed>, x: Keyed, k: nat)
    ensures WithKey(ys + [x], k) == WithKey(ys, k) + (if x.key == k then [x] else [])
  {
    assert (ys + [x])[..|ys|] == ys;
  }

  /** Places `x` after every entry whose key is not larger: the comparator's 0 keeps `x` behind equal keys. */
  function Insert(ys: seq<Keyed>, x: Keyed): seq<Keyed> {
    if ys == [] || ys[|ys| - 1].key <= x.key then ys + [x]
    else Insert(ys[..|ys| - 1], x) + [ys[|ys| - 1]]
  }

  lemma {:induction false} InsertPermutes(ys: seq<Keyed>, x: Keyed)
    ensures multiset(Insert(ys, x)) == multiset(ys) + multiset{x}
  {
    if !(ys == [] || ys[|ys| - 1].key <= x.key) {
      assert ys == ys[..|ys| - 1] + [ys[|ys| - 1]];
      InsertPermutes(ys[..|ys| - 1], x);
    }
  }

  lemma {:induction false} InsertSorted(ys: seq<Keyed>, x: Keyed)
    requires SortedByKey(ys)
    ensures SortedByKey(Insert(ys, x))
  {
    if ys == [] || ys[|ys| - 1].key <= x.key {
      SortedSnoc(ys, x);
    } else {
      var init, last := ys[..|ys| - 1], ys[|ys| - 1];
      InsertSorted(init, x);
      InsertPermutes(init, x);
      var r' := Insert(init, x);
      forall e | e in r' ensures e.key <= last.key {
        assert e in multiset(r');
        if e != x {
          assert e in init;
        }
      }
      assert r'[|r'| - 1] in r';
      SortedSnoc(r', last);
    }
  }

  /** Appending an entry whose key is at least every key keeps a sequence sorted. */
  lemma SortedSnoc(ys: seq<Keyed>, y: Keyed)
    requires SortedByKey(ys)
    requires ys == [] || ys[|ys| - 1].key <= y.key
    ensures SortedByKey(ys + [y])
  {
    var r := ys + [y];
    forall i, j | 0 <= i < j < |r| ensures r[i].key <= r[j].key {
      assert r[i] == ys[i];
      if j == |ys| {
        assert ys[i].key <= ys[|ys| - 1].key;
      } else {
        assert r[j] == ys[j];
      }
    }
  }

  lemma {:induction false} InsertKeepsKeyOrder(ys: seq<Keyed>, x: Keyed, k: nat)
    ensures WithKey(Insert(ys, x), k) == WithKey(ys, k) + (if x.key == k then [x] else [])
  {
    if ys == [] || ys[|ys| - 1].key <= x.key {
      WithKeySnoc(ys, x, k);
    } else {
      var init, last := ys[..|ys| - 1], ys[|ys| - 1];
      var tail := if last.key == k then [last] else [];
      var added := if x.key == k then [x] else [];
      var r, w := Insert(init, x), WithKey(init, k);
      assert Insert(ys, x) == r + [last];
      WithKeySnoc(r, last, k);
      InsertKeepsKeyOrder(init, x, k);
      SplitLast(ys);
      WithKeySnoc(init, last, k);
      SwapEmpty(w, added, tail);
    }
  }

  /** Of two parts one of which is empty, the order does not matter. */
  lemma SwapEmpty(a: seq<Keyed>, b: seq<Keyed>, c: seq<Keyed>)
    requires b == [] || c == []
    ensures a + b + c == a + c + b
  {
    if b == [] {
      assert a + b == a && a + c + b == a + c;
    } else {
      assert a + c == a && a + b + c == a + b;
    }
  }

  lemma SplitLast(ys: seq<Keyed>)
    requires ys != []
    ensures ys == ys[..|ys| - 1] + [ys[|ys| - 1]]
  {
  }

  /** Insertion sort, one listed file at a time. */
  function SortByKey(xs: seq<Keyed>): (r: seq<Keyed>)
    ensures SortedByKey(r)
    ensures multiset(r) == multiset(xs)
    ensures forall k :: WithKey(r, k) == WithKey(xs, k)
  {
    if xs == [] then []
    else
      var init, last := xs[..|xs| - 1], xs[|xs| - 1];
      assert xs == init + [last];
      var sorted := SortByKey(init);
      InsertSorted(sorted, last);
      InsertPermutes(sorted, last);
      forall k ensures WithKey(Insert(sorted, last), k) == WithKey(xs, k) {
        InsertKeepsKeyOrder(sorted, last, k);
        WithKeySnoc(init, last, k);
      }
      Insert(sorted, last)
  }

  /** Sequences with the same entries per key hold the same entries. */
  lemma SameEntries(a: seq<Keyed>, b: seq<Keyed>, x: Keyed)
    requires forall k :: WithKey(a, k) == WithKey(b, k)
    requires x in a
    ensures x in b
  {
    InWithKey(a, x);
    assert x in WithKey(b, x.key);
  }

  /** The last entry of a sorted sequence carries its largest key, and the rest stays sorted. */
  lemma SortedLast(a: seq<Keyed>)
    requires SortedByKey(a) && a != []
    ensures SortedByKey(a[..|a| - 1])
    ensures forall e :: e in a ==> e.key <= a[|a| - 1].key
  {
  }

  lemma CancelLast(s: seq<Keyed>, t: seq<Keyed>, x: Keyed, y: Keyed)
    requires s + [x] == t + [y]
    ensures s == t && x == y
  {
    assert (s + [x])[..|s|] == s && (t + [y])[..|t|] == t;
  }

  /**
   * Two sequences sorted by key with the same entries per key, in the same
   * order, are equal: whatever stable sort the engine runs, it returns
   * SortByKey's result.
   */
  lemma {:induction false} StableSortUnique(a: seq<Keyed>, b: seq<Keyed>)
    requires SortedByKey(a) && SortedByKey(b)
    requires forall k :: WithKey(a, k) == WithKey(b, k)
    ensures a == b
    decreases |a| + |b|
  {
    if a == [] {
      if b != [] {
        SameEntries(b, a, b[0]);
      }
    } else if b == [] {
      SameEntries(a, b, a[0]);
    } else {
      var a', x := a[..|a| - 1], a[|a| - 1];
      var b', y := b[..|b| - 1], b[|b| - 1];
      assert a == a' + [x] && b == b' + [y];
      SortedLast(a);
      SortedLast(b);
      SameEntries(b, a, y);
      SameEntries(a, b, x);
      assert x.key == y.key;
      WithKeySnoc(a', x, x.key);
      WithKeySnoc(b', y, x.key);
      CancelLast(WithKey(a', x.key), WithKey(b', x.key), x, y);
      forall k ensures WithKey(a', k) == WithKey(b', k) {
        WithKeySnoc(a', x, k);
        WithKeySnoc(b', y, k);
        if k == x.key {
          CancelLast(WithKey(a', k), WithKey(b', k), x, y);
        }
      }
      StableSortUnique(a', b');
    }
  }

  lemma SortSnoc(xs: seq<Keyed>, x: Keyed)
    ensures SortByKey(xs + [x]) == Insert(SortByKey(xs), x)
  {
    assert (xs + [x])[..|xs|] == xs;
  }

  lemma SortFive(a: Keyed, b: Keyed, c: Keyed, d: Keyed, e: Keyed)
    ensures SortByKey([a, b, c, d, e]) == Insert(Insert(Insert(Insert([a], b), c), d), e)
  {
    assert [a] == [] + [a] && [a, b] == [a] + [b] && [a, b, c] == [a, b] + [c];
    assert [a, b, c, d] == [a, b, c] + [d] && [a, b, c, d, e] == [a, b, c, d] + [e];
    calc {
      SortByKey([a, b, c, d, e]);
      { SortSnoc([a, b, c, d], e); }
      Insert(SortByKey([a, b, c, d]), e);
      { SortSnoc([a, b, c], d); }
      Insert(Insert(SortByKey([a, b, c]), d), e);
      { SortSnoc([a, b], c); }
      Insert(Insert(Insert(SortByKey([a, b]), c), d), e);
      { SortSnoc([a], b); }
      Insert(Insert(Insert(Insert(SortByKey([a]), b), c), d), e);
      { SortSnoc([], a); }
      Insert(Insert(Insert(Insert([a], b), c), d), e);
    }
  }

  /** The insertions SortByKey performs for the listing order of IndexOrderExample. */
  lemma InsertSteps(a: Keyed, b: Keyed, c: Keyed, d: Keyed, e: Keyed)
    requires a.key == 0 && b.key == 8675309 && c.key == 9 && d.key == 8 && e.key == 1009
    ensures Insert(Insert(Insert(Insert([a], b), c), d), e) == [a, d, c, e, b]
  {
    assert Insert([a], b) == [a, b];
    assert [a, b][..1] == [a];
    assert Insert([a, b], c) == [a, c, b];
    assert [a, c, b][..2] == [a, c] && [a, c][..1] == [a];
    assert Insert([a, c], d) == [a, d, c];
    assert Insert([a, c, b], d) == [a, d, c, b];
    assert [a, d, c, e, b][..4] == [a, d, c, e];
    assert [a, d, c, b][..3] == [a, d, c];
    assert Insert([a, d, c, b], e) == [a, d, c, e, b];
  }

  /** The listing order 0, 8675309, 09, 8, 1009 sorts to 0, 8, 09, 1009, 8675309. */
  lemma IndexOrderExample()
    ensures SortByKey([Keyed(0, "t.0"), Keyed(8675309, "t.8675309"), Keyed(9, "t.09"), Keyed(8, "t.8"), Keyed(1009, "t.1009")])
         == [Keyed(0, "t.0"), Keyed(8, "t.8"), Keyed(9, "t.09"), Keyed(1009, "t.1009"), Keyed(8675309, "t.8675309")]
  {
    var a, b, c, d, e := Keyed(0, "t.0"), Keyed(8675309, "t.8675309"), Keyed(9, "t.09"), Keyed(8, "t.8"), Keyed(1009, "t.1009");
    SortFive(a, b, c, d, e);
    InsertSteps(a, b, c, d, e);
  }
}
