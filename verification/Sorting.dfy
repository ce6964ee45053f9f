/** Python's `sorted` (a stable sort, here by insertion, over any comparison), its slices, and repetition-free
 * sequences.
 */
module Sorting {

  ghost predicate TotalOrder<T(!new)>(leq: (T, T) -> bool) {
    && (forall x, y :: leq(x, y) || leq(y, x))
    && (forall x, y, z :: leq(x, y) && leq(y, z) ==> leq(x, z))
  }

  predicate SortedBy<T>(xs: seq<T>, leq: (T, T) -> bool) {
    forall i, j | 0 <= i < j < |xs| :: leq(xs[i], xs[j])
  }

  function Insert<T>(x: T, xs: seq<T>, leq: (T, T) -> bool): seq<T> {
    if xs == [] || leq(x, xs[0]) then [x] + xs else [xs[0]] + Insert(x, xs[1..], leq)
  }

  function Sort<T>(xs: seq<T>, leq: (T, T) -> bool): seq<T> {
    if xs == [] then [] else Insert(xs[0], Sort(xs[1..], leq), leq)
  }

  lemma {:induction false} InsertContents<T>(x: T, xs: seq<T>, leq: (T, T) -> bool)
    ensures multiset(Insert(x, xs, leq)) == multiset{x} + multiset(xs)
    ensures |Insert(x, xs, leq)| == |xs| + 1
  {
    if !(xs == [] || leq(x, xs[0])) {
      InsertContents(x, xs[1..], leq);
      assert xs == [xs[0]] + xs[1..];
    }
  }

  lemma {:induction false} SortContents<T>(xs: seq<T>, leq: (T, T) -> bool)
    ensures multiset(Sort(xs, leq)) == multiset(xs)
    ensures |Sort(xs, leq)| == |xs|
  {
    if xs != [] {
      SortContents(xs[1..], leq);
      InsertContents(xs[0], Sort(xs[1..], leq), leq);
      assert xs == [xs[0]] + xs[1..];
    }
  }

  lemma SameMembers<T>(xs: seq<T>, ys: seq<T>)
    requires multiset(xs) == multiset(ys)
    ensures |xs| == |ys|
    ensures forall x :: x in xs <==> x in ys
  {
    assert |xs| == |multiset(xs)| == |multiset(ys)| == |ys|;
    forall x
      ensures x in xs <==> x in ys
    {
      assert x in xs <==> x in multiset(xs);
      assert x in ys <==> x in multiset(ys);
    }
  }

  lemma {:induction false} InsertSorted<T(!new)>(x: T, xs: seq<T>, leq: (T, T) -> bool)
    requires TotalOrder(leq) && SortedBy(xs, leq)
    ensures SortedBy(Insert(x, xs, leq), leq)
  {
    if xs == [] || leq(x, xs[0]) {
    } else {
      InsertSorted(x, xs[1..], leq);
      var rest := Insert(x, xs[1..], leq);
      InsertContents(x, xs[1..], leq);
      SameMembers(rest, [x] + xs[1..]);
      forall j | 0 <= j < |rest|
        ensures leq(xs[0], rest[j])
      {
        assert rest[j] in rest;
        assert rest[j] in [x] + xs[1..];
      }
    }
  }

  lemma {:induction false} SortSorted<T(!new)>(xs: seq<T>, leq: (T, T) -> bool)
    requires TotalOrder(leq)
    ensures SortedBy(Sort(xs, leq), leq)
  {
    if xs != [] {
      SortSorted(xs[1..], leq);
      InsertSorted(xs[0], Sort(xs[1..], leq), leq);
    }
  }

  /** Everything a caller of `sorted` relies on, in one step. */
  lemma SortIsSortedPermutation<T(!new)>(xs: seq<T>, leq: (T, T) -> bool)
    requires TotalOrder(leq)
    ensures SortedBy(Sort(xs, leq), leq)
    ensures multiset(Sort(xs, leq)) == multiset(xs)
    ensures |Sort(xs, leq)| == |xs|
    ensures forall x :: x in Sort(xs, leq) <==> x in xs
  {
    SortSorted(xs, leq);
    SortContents(xs, leq);
    SameMembers(Sort(xs, leq), xs);
  }

  /** When ties in the order are impossible between distinct members, the sorted arrangement is unique. */
  lemma {:induction false} SortedArrangementUnique<T(!new)>(xs: seq<T>, ys: seq<T>, leq: (T, T) -> bool)
    requires SortedBy(xs, leq) && SortedBy(ys, leq)
    requires multiset(xs) == multiset(ys)
    requires forall x, y | x in xs && y in xs && leq(x, y) && leq(y, x) :: x == y
    ensures xs == ys
  {
    SameMembers(xs, ys);
    if xs != [] {
      HeadsAgree(xs, ys, leq);
      SameTails(xs, ys);
      assert forall x | x in xs[1..] :: x in xs;
      SortedArrangementUnique(xs[1..], ys[1..], leq);
    }
  }

  lemma HeadsAgree<T(!new)>(xs: seq<T>, ys: seq<T>, leq: (T, T) -> bool)
    requires SortedBy(xs, leq) && SortedBy(ys, leq) && xs != [] && ys != []
    requires forall x :: x in xs <==> x in ys
    requires forall x, y | x in xs && y in xs && leq(x, y) && leq(y, x) :: x == y
    ensures xs[0] == ys[0]
  {
    assert ys[0] in xs && xs[0] in ys;
    var i :| 0 <= i < |xs| && xs[i] == ys[0];
    var j :| 0 <= j < |ys| && ys[j] == xs[0];
    assert i == 0 || leq(xs[0], ys[0]);
    assert j == 0 || leq(ys[0], xs[0]);
  }

  lemma SameTails<T>(xs: seq<T>, ys: seq<T>)
    requires multiset(xs) == multiset(ys) && xs != [] && ys != [] && xs[0] == ys[0]
    ensures multiset(xs[1..]) == multiset(ys[1..])
  {
    assert xs == [xs[0]] + xs[1..] && ys == [ys[0]] + ys[1..];
    assert multiset(xs[1..]) == multiset(xs) - multiset{xs[0]};
    assert multiset(ys[1..]) == multiset(ys) - multiset{ys[0]};
  }

  function Map<S, T>(f: S -> T, xs: seq<S>): seq<T> {
    seq(|xs|, i requires 0 <= i < |xs| => f(xs[i]))
  }

  /** An order-preserving relabelling commutes with sorting, stability included. */
  lemma {:induction false} SortMap<S(!new), T>(f: S -> T, xs: seq<S>, leq: (S, S) -> bool, leq': (T, T) -> bool)
    requires forall x, y :: leq'(f(x), f(y)) == leq(x, y)
    ensures Sort(Map(f, xs), leq') == Map(f, Sort(xs, leq))
  {
    if xs == [] {
      assert Map(f, xs) == [];
      assert Map(f, Sort(xs, leq)) == [];
    } else {
      SortMap(f, xs[1..], leq, leq');
      assert Map(f, xs)[1..] == Map(f, xs[1..]);
      InsertMap(f, xs[0], Sort(xs[1..], leq), leq, leq');
    }
  }

  lemma {:induction false} InsertMap<S(!new), T>(f: S -> T, x: S, xs: seq<S>, leq: (S, S) -> bool, leq': (T, T) -> bool)
    requires forall x, y :: leq'(f(x), f(y)) == leq(x, y)
    ensures Insert(f(x), Map(f, xs), leq') == Map(f, Insert(x, xs, leq))
  {
    if xs == [] || leq(x, xs[0]) {
      assert [f(x)] + Map(f, xs) == Map(f, [x] + xs);
    } else {
      InsertMap(f, x, xs[1..], leq, leq');
      assert Map(f, xs)[1..] == Map(f, xs[1..]);
      assert [f(xs[0])] + Map(f, Insert(x, xs[1..], leq)) == Map(f, [xs[0]] + Insert(x, xs[1..], leq));
    }
  }

  function RealLeq(x: real, y: real): bool { x <= y }

  function SortReals(xs: seq<real>): (ys: seq<real>)
    ensures SortedBy(ys, RealLeq)
    ensures multiset(ys) == multiset(xs)
    ensures |ys| == |xs|
    ensures forall x :: x in ys <==> x in xs
  {
    SortIsSortedPermutation(xs, RealLeq);
    Sort(xs, RealLeq)
  }

  ghost predicate Dominates(xs: seq<real>, ys: seq<real>) {
    |xs| == |ys| && forall i | 0 <= i < |xs| :: xs[i] >= ys[i]
  }

  lemma InsertHead(xs: seq<real>)
    requires xs != [] && SortedBy(xs, RealLeq)
    ensures Insert(xs[0], xs[1..], RealLeq) == xs && SortedBy(xs[1..], RealLeq)
  {
    assert |xs| > 1 ==> RealLeq(xs[0], xs[1]);
  }

  lemma ConsDominates(x: real, y: real, xs: seq<real>, ys: seq<real>)
    requires x >= y && Dominates(xs, ys)
    ensures Dominates([x] + xs, [y] + ys)
  {
  }

  lemma {:induction false} InsertDominates(x: real, y: real, xs: seq<real>, ys: seq<real>)
    requires x >= y && Dominates(xs, ys)
    requires SortedBy(xs, RealLeq) && SortedBy(ys, RealLeq)
    ensures Dominates(Insert(x, xs, RealLeq), Insert(y, ys, RealLeq))
    decreases |xs|
  {
    if xs != [] {
      var xs', ys' := xs[1..], ys[1..];
      InsertHead(xs);
      InsertHead(ys);
      if x <= xs[0] && y <= ys[0] {
        ConsDominates(x, y, xs, ys);
      } else if x <= xs[0] {
        InsertDominates(xs[0], y, xs', ys');
        ConsDominates(x, ys[0], xs, Insert(y, ys', RealLeq));
      } else if y <= ys[0] {
        InsertDominates(x, ys[0], xs', ys');
        ConsDominates(xs[0], y, Insert(x, xs', RealLeq), ys);
      } else {
        InsertDominates(x, y, xs', ys');
        ConsDominates(xs[0], ys[0], Insert(x, xs', RealLeq), Insert(y, ys', RealLeq));
      }
    }
  }

  /** Sorting both sides keeps a position-by-position dominance. */
  lemma {:induction false} SortDominates(xs: seq<real>, ys: seq<real>)
    requires Dominates(xs, ys)
    ensures Dominates(SortReals(xs), SortReals(ys))
  {
    if xs != [] {
      SortDominates(xs[1..], ys[1..]);
      InsertDominates(xs[0], ys[0], SortReals(xs[1..]), SortReals(ys[1..]));
    }
  }

  /** Python's `xs[:limit]`. */
  function Take<T>(xs: seq<T>, limit: int): seq<T> {
    if limit < 0 then (if |xs| + limit <= 0 then [] else xs[..|xs| + limit])
    else if limit >= |xs| then xs else xs[..limit]
  }

  lemma TakeIsPrefix<T>(xs: seq<T>, limit: int)
    ensures Take(xs, limit) <= xs
    ensures limit >= 0 ==> |Take(xs, limit)| == if limit < |xs| then limit else |xs|
  {
  }

  lemma TakeMap<S, T>(f: S -> T, xs: seq<S>, limit: int)
    ensures Take(Map(f, xs), limit) == Map(f, Take(xs, limit))
  {
  }

  // Sequences without repetition.

  predicate Distinct<T(==)>(s: seq<T>) { forall i, j | 0 <= i < j < |s| :: s[i] != s[j] }

  lemma DistinctSnoc<T>(xs: seq<T>, x: T)
    ensures Distinct(xs + [x]) <==> Distinct(xs) && x !in xs
  {
    var all := xs + [x];
    assert forall i | 0 <= i < |xs| :: all[i] == xs[i];
    assert all[|xs|] == x;
  }

  lemma {:induction false} DistinctCounts<T>(s: seq<T>)
    ensures Distinct(s) <==> forall x :: multiset(s)[x] <= 1
  {
    if s != [] {
      var rest := s[1..];
      assert s == [s[0]] + rest;
      DistinctCounts(rest);
      assert Distinct(s) <==> s[0] !in rest && Distinct(rest) by {
        if Distinct(s) {
          forall j | 0 <= j < |rest|
            ensures rest[j] != s[0]
          {
            assert rest[j] == s[j + 1];
          }
        }
      }
      assert multiset(s) == multiset{s[0]} + multiset(rest);
      assert s[0] in rest <==> multiset(rest)[s[0]] > 0;
      if forall x :: multiset(s)[x] <= 1 {
        assert multiset(s)[s[0]] == 1 + multiset(rest)[s[0]];
        assert forall x :: multiset(rest)[x] <= multiset(s)[x];
      } 
      if s[0] !in rest && forall x :: multiset(rest)[x] <= 1 {
        forall x
          ensures multiset(s)[x] <= 1
        {
          assert x == s[0] ==> multiset(rest)[x] == 0;
        }
      }
    }
  }

  lemma RearrangedDistinct<T>(xs: seq<T>, ys: seq<T>)
    requires Distinct(xs) && multiset(xs) == multiset(ys)
    ensures Distinct(ys)
  {
    DistinctCounts(xs);
    DistinctCounts(ys);
  }

  lemma SameDistinctMembers<T>(xs: seq<T>, ys: seq<T>)
    requires Distinct(xs) && Distinct(ys) && forall x :: x in xs <==> x in ys
    ensures multiset(xs) == multiset(ys)
  {
    DistinctCounts(xs);
    DistinctCounts(ys);
    forall x
      ensures multiset(xs)[x] == multiset(ys)[x]
    {
      assert x in multiset(xs) <==> x in xs;
      assert x in multiset(ys) <==> x in ys;
    }
  }

  lemma RemoveOne<T>(v: seq<T>, w: seq<T>, i: nat)
    requires v != [] && multiset(v) == multiset(w) && i < |w| && w[i] == v[0]
    ensures multiset(v[1..]) == multiset(w[..i] + w[i + 1..])
    ensures w == w[..i] + ([v[0]] + w[i + 1..]) && v == [v[0]] + v[1..]
  {
    var a, x, b := w[..i], v[0], w[i + 1..];
    assert v == [x] + v[1..] && w == a + ([x] + b);
    MovedToFront(a, x, b);
    SameTails(v, [x] + (a + b));
    assert ([x] + (a + b))[1..] == a + b;
  }

  lemma MovedToFront<T>(a: seq<T>, x: T, b: seq<T>)
    ensures multiset([x] + (a + b)) == multiset(a + ([x] + b))
  {
  }

  /** Relabelling carries permutations to permutations. */
  lemma {:induction false} MapPermutes<S, T>(f: S -> T, xs: seq<S>, ys: seq<S>)
    requires multiset(xs) == multiset(ys)
    ensures multiset(Map(f, xs)) == multiset(Map(f, ys))
    decreases |xs|
  {
    SameMembers(xs, ys);
    if xs != [] {
      assert xs[0] in ys;
      var i :| 0 <= i < |ys| && ys[i] == xs[0];
      var x, front, back := xs[0], ys[..i], ys[i + 1..];
      RemoveOne(xs, ys, i);
      MapPermutes(f, xs[1..], front + back);
      assert Map(f, xs) == [f(x)] + Map(f, xs[1..]);
      assert Map(f, ys) == Map(f, front) + ([f(x)] + Map(f, back));
      assert Map(f, front + back) == Map(f, front) + Map(f, back);
      MovedToFront(Map(f, front), f(x), Map(f, back));
    }
  }
}
