/** Stable sorting by a three-way comparator, and why its result is unique. */
module StableSort {
  import opened Sequences

  datatype Ordering = Less | Equal | Greater

  /** What a comparator must be for a sort to have a meaning: the two argument orders
      agree, and "not greater" is transitive. */
  ghost predicate TotalPreorder<T(!new)>(cmp: (T, T) -> Ordering)
  {
    && (forall a, b :: cmp(a, b) == Less <==> cmp(b, a) == Greater)
    && (forall a, b, c :: cmp(a, b) != Greater && cmp(b, c) != Greater ==> cmp(a, c) != Greater)
  }

  /** The elements that tie with `x`. */
  function TiesWith<T>(cmp: (T, T) -> Ordering, x: T): T -> bool
  {
    y => cmp(x, y) == Equal
  }

  ghost predicate Sorted<T>(cmp: (T, T) -> Ordering, s: seq<T>)
  {
    forall i, j :: 0 <= i < j < |s| ==> cmp(s[i], s[j]) != Greater
  }

  /** Every class of ties is listed in the same order by both sequences. */
  ghost predicate SameTies<T(!new)>(cmp: (T, T) -> Ordering, s: seq<T>, r: seq<T>)
  {
    forall x :: Filter(TiesWith(cmp, x), s) == Filter(TiesWith(cmp, x), r)
  }

  /** `r` is what a stable sort of `s` may return. */
  ghost predicate IsStableSortOf<T(!new)>(cmp: (T, T) -> Ordering, s: seq<T>, r: seq<T>)
  {
    Sorted(cmp, r) && SameTies(cmp, s, r)
  }

  function Insert<T>(cmp: (T, T) -> Ordering, x: T, s: seq<T>): (r: seq<T>)
    ensures multiset(r) == multiset(s) + multiset{x}
  {
    if s == [] then [x]
    else if cmp(x, s[0]) != Greater then [x] + s
    else
      assert s == [s[0]] + s[1..];
      [s[0]] + Insert(cmp, x, s[1..])
  }

  /** A reference stable sort. */
  function Sort<T>(cmp: (T, T) -> Ordering, s: seq<T>): (r: seq<T>)
    ensures multiset(r) == multiset(s)
  {
    if s == [] then []
    else
      assert s == [s[0]] + s[1..];
      Insert(cmp, s[0], Sort(cmp, s[1..]))
  }

  lemma InsertSorted<T(!new)>(cmp: (T, T) -> Ordering, x: T, s: seq<T>)
    requires TotalPreorder(cmp) && Sorted(cmp, s)
    ensures Sorted(cmp, Insert(cmp, x, s))
  {
    if s != [] && cmp(x, s[0]) == Greater {
      InsertSorted(cmp, x, s[1..]);
      var r := Insert(cmp, x, s[1..]);
      forall j | 0 <= j < |r| ensures cmp(s[0], r[j]) != Greater {
        assert r[j] in multiset(r);
        assert r[j] == x || r[j] in s[1..];
      }
    }
  }

  lemma InsertTies<T(!new)>(cmp: (T, T) -> Ordering, x: T, s: seq<T>, y: T)
    requires TotalPreorder(cmp) && Sorted(cmp, s)
    ensures Filter(TiesWith(cmp, y), Insert(cmp, x, s)) == Filter(TiesWith(cmp, y), [x] + s)
  {
    var p := TiesWith(cmp, y);
    if s != [] && cmp(x, s[0]) == Greater {
      InsertTies(cmp, x, s[1..], y);
      assert !(p(x) && p(s[0]));
      hide TotalPreorder, Sorted;
      FilterAppend(p, [x], s[1..]);
      FilterAppend(p, [x], s);
      FilterAppend(p, [s[0]], Insert(cmp, x, s[1..]));
      FilterAppend(p, [s[0]], s[1..]);
      assert s == [s[0]] + s[1..];
    }
  }

  /** The reference sort meets the specification. */
  lemma {:induction false} SortIsStable<T(!new)>(cmp: (T, T) -> Ordering, s: seq<T>)
    requires TotalPreorder(cmp)
    ensures IsStableSortOf(cmp, s, Sort(cmp, s))
  {
    if s != [] {
      SortIsStable(cmp, s[1..]);
      var t := Sort(cmp, s[1..]);
      InsertSorted(cmp, s[0], t);
      forall y ensures Filter(TiesWith(cmp, y), s) == Filter(TiesWith(cmp, y), Sort(cmp, s)) {
        InsertTies(cmp, s[0], t, y);
        FilterAppend(TiesWith(cmp, y), [s[0]], t);
        FilterAppend(TiesWith(cmp, y), [s[0]], s[1..]);
        assert s == [s[0]] + s[1..];
      }
    }
  }

  lemma SortedHeadsTie<T(!new)>(cmp: (T, T) -> Ordering, r: seq<T>, q: seq<T>)
    requires TotalPreorder(cmp) && Sorted(cmp, r) && SameTies(cmp, r, q)
    requires r != []
    ensures q != [] && cmp(q[0], r[0]) != Less
    ensures Sorted(cmp, q) ==> cmp(q[0], r[0]) != Greater
  {
    var p := TiesWith(cmp, r[0]);
    assert cmp(r[0], r[0]) == Equal;
    assert r[0] in Filter(p, r);
    assert r[0] in Filter(p, q);
    var h := q[0];
    assert cmp(h, h) == Equal;
    assert h in Filter(TiesWith(cmp, h), q);
    assert h in Filter(TiesWith(cmp, h), r);
  }

  /** Two sorted sequences with the same ties are the same sequence. */
  lemma {:induction false} SortedUnique<T(!new)>(cmp: (T, T) -> Ordering, r: seq<T>, q: seq<T>)
    requires TotalPreorder(cmp)
    requires Sorted(cmp, r) && Sorted(cmp, q) && SameTies(cmp, r, q)
    ensures r == q
    decreases |r|
  {
    if r == [] {
      if q != [] {
        SortedHeadsTie(cmp, q, r);
      }
    } else {
      SortedHeadsTie(cmp, r, q);
      var p := TiesWith(cmp, r[0]);
      assert Filter(p, r)[0] == r[0] && Filter(p, q)[0] == q[0];
      assert r[0] == q[0];
      forall x ensures Filter(TiesWith(cmp, x), r[1..]) == Filter(TiesWith(cmp, x), q[1..]) {
        var t := TiesWith(cmp, x);
        assert Filter(t, r) == Filter(t, q);
        if t(r[0]) {
          assert Filter(t, r[1..]) == Filter(t, r)[1..] && Filter(t, q[1..]) == Filter(t, q)[1..];
        }
      }
      SortedUnique(cmp, r[1..], q[1..]);
      assert r == [r[0]] + r[1..] && q == [q[0]] + q[1..];
    }
  }

  /** Whatever stable sort is used, its result is the one of `Sort`. */
  lemma StableSortUnique<T(!new)>(cmp: (T, T) -> Ordering, s: seq<T>, r: seq<T>)
    requires TotalPreorder(cmp) && IsStableSortOf(cmp, s, r)
    ensures r == Sort(cmp, s)
  {
    SortIsStable(cmp, s);
    forall x ensures Filter(TiesWith(cmp, x), r) == Filter(TiesWith(cmp, x), Sort(cmp, s)) {
      assert Filter(TiesWith(cmp, x), s) == Filter(TiesWith(cmp, x), r);
    }
    SortedUnique(cmp, r, Sort(cmp, s));
  }

  lemma FilterSorted<T(!new)>(cmp: (T, T) -> Ordering, p: T -> bool, s: seq<T>)
    requires Sorted(cmp, s)
    ensures Sorted(cmp, Filter(p, s))
  {
    if s != [] {
      FilterSorted(cmp, p, s[1..]);
      var t := Filter(p, s[1..]);
      forall j | 0 <= j < |t| ensures cmp(s[0], t[j]) != Greater {
        assert t[j] in s[1..];
      }
    }
  }

  /** Selecting from the sorted sequence is sorting the selection. */
  lemma SortThenFilter<T(!new)>(cmp: (T, T) -> Ordering, p: T -> bool, s: seq<T>)
    requires TotalPreorder(cmp)
    ensures Filter(p, Sort(cmp, s)) == Sort(cmp, Filter(p, s))
  {
    SortIsStable(cmp, s);
    FilterSorted(cmp, p, Sort(cmp, s));
    forall x ensures Filter(TiesWith(cmp, x), Filter(p, s)) == Filter(TiesWith(cmp, x), Filter(p, Sort(cmp, s))) {
      FilterCommutes(TiesWith(cmp, x), p, s);
      FilterCommutes(TiesWith(cmp, x), p, Sort(cmp, s));
      assert Filter(TiesWith(cmp, x), s) == Filter(TiesWith(cmp, x), Sort(cmp, s));
    }
    StableSortUnique(cmp, Filter(p, s), Filter(p, Sort(cmp, s)));
  }
}
