/** Strict orders, and sorting by one.
    The program sorts with std::sort; `Sort` stands for it, and
    `SortedPermutationUnique` says that for a total order every sorting
    algorithm gives the same list. */
module Order {

  /** Names three elements whose order is to be looked at: the laws below are
      only brought up for such triples. */
  predicate Triple<T>(a: T, b: T, c: T) { true }

  ghost predicate StrictTotal<T(!new)>(less: (T, T) -> bool) {
    forall a, b, c {:trigger Triple(a, b, c)} ::
      && !less(a, a)
      && (less(a, b) && less(b, c) ==> less(a, c))
      && (a == b || less(a, b) || less(b, a))
  }

  /** What std::sort demands of a comparator. */
  ghost predicate StrictWeak<T(!new)>(less: (T, T) -> bool) {
    forall a, b, c {:trigger Triple(a, b, c)} ::
      && !less(a, a)
      && (less(a, b) && less(b, c) ==> less(a, c))
      && (!less(a, b) && !less(b, c) ==> !less(a, c))
  }

  lemma {:induction false} Laws<T(!new)>(less: (T, T) -> bool, a: T, b: T, c: T)
    requires StrictTotal(less)
    ensures !less(a, a)
    ensures less(a, b) && less(b, c) ==> less(a, c)
    ensures a == b || less(a, b) || less(b, a)
    ensures !(less(a, b) && less(b, a))
  {
    assert Triple(a, b, c) && Triple(a, b, a);
  }

  lemma {:induction false} WeakLaws<T(!new)>(less: (T, T) -> bool, a: T, b: T, c: T)
    requires StrictWeak(less)
    ensures !less(a, a)
    ensures less(a, b) && less(b, c) ==> less(a, c)
    ensures !less(a, b) && !less(b, c) ==> !less(a, c)
    ensures !(less(a, b) && less(b, a))
  {
    assert Triple(a, b, c) && Triple(a, b, a);
  }

  lemma {:induction false} TotalIsWeak<T(!new)>(less: (T, T) -> bool)
    requires StrictTotal(less)
    ensures StrictWeak(less)
  {
    forall a, b, c
      ensures !less(a, a)
      ensures less(a, b) && less(b, c) ==> less(a, c)
      ensures !less(a, b) && !less(b, c) ==> !less(a, c)
    {
      Laws(less, a, b, c);
      Laws(less, b, c, c);
      Laws(less, c, b, a);
      Laws(less, a, c, c);
    }
  }

  /** No element comes before an earlier one. */
  ghost predicate SortedBy<T>(less: (T, T) -> bool, s: seq<T>) {
    forall i, j :: 0 <= i < j < |s| ==> !less(s[j], s[i])
  }

  function Insert<T>(less: (T, T) -> bool, x: T, s: seq<T>): (r: seq<T>)
    ensures multiset(r) == multiset(s) + multiset{x}
    ensures |r| == |s| + 1
  {
    if s == [] then [x]
    else if less(x, s[0]) then
      assert [x] + s == [x] + s[..];
      [x] + s
    else
      assert s == [s[0]] + s[1..];
      [s[0]] + Insert(less, x, s[1..])
  }

  function Sort<T>(less: (T, T) -> bool, s: seq<T>): (r: seq<T>)
    ensures multiset(r) == multiset(s)
    ensures |r| == |s|
  {
    if s == [] then []
    else
      assert s == s[..|s| - 1] + [s[|s| - 1]];
      Insert(less, s[|s| - 1], Sort(less, s[..|s| - 1]))
  }

  lemma {:induction false} SameElements<T>(a: seq<T>, b: seq<T>, x: T)
    requires multiset(a) == multiset(b)
    ensures x in a <==> x in b
  {
    assert x in a <==> x in multiset(a);
    assert x in b <==> x in multiset(b);
  }

  lemma {:induction false} InsertElements<T>(less: (T, T) -> bool, x: T, s: seq<T>, y: T)
    requires y in Insert(less, x, s)
    ensures y == x || y in s
  {
    assert y in multiset(Insert(less, x, s));
  }

  lemma {:induction false} InsertSorted<T(!new)>(less: (T, T) -> bool, x: T, s: seq<T>)
    requires StrictWeak(less)
    requires SortedBy(less, s)
    ensures SortedBy(less, Insert(less, x, s))
  {
    if s == [] {
    } else if less(x, s[0]) {
      forall j | 0 <= j < |s|
        ensures !less(s[j], x)
      {
        WeakLaws(less, s[j], x, s[0]);
      }
    } else {
      InsertSorted(less, x, s[1..]);
      var rest := Insert(less, x, s[1..]);
      forall j | 0 <= j < |rest|
        ensures !less(rest[j], s[0])
      {
        InsertElements(less, x, s[1..], rest[j]);
      }
    }
  }

  lemma {:induction false} SortSorted<T(!new)>(less: (T, T) -> bool, s: seq<T>)
    requires StrictWeak(less)
    ensures SortedBy(less, Sort(less, s))
  {
    if s == [] {
    } else {
      SortSorted(less, s[..|s| - 1]);
      InsertSorted(less, s[|s| - 1], Sort(less, s[..|s| - 1]));
    }
  }

  lemma {:induction false} DropFirst<T>(s: seq<T>)
    requires s != []
    ensures multiset(s[1..]) == multiset(s) - multiset{s[0]}
  {
    assert s == [s[0]] + s[1..];
  }

  lemma {:induction false} SameFirst<T(!new)>(less: (T, T) -> bool, a: seq<T>, b: seq<T>)
    requires StrictTotal(less)
    requires SortedBy(less, a) && SortedBy(less, b)
    requires multiset(a) == multiset(b) && a != [] && b != []
    ensures a[0] == b[0]
  {
    SameElements(a, b, a[0]);
    SameElements(a, b, b[0]);
    Laws(less, a[0], b[0], b[0]);
  }

  /** Under a total order a multiset has one sorted listing. */
  lemma {:induction false} SortedPermutationUnique<T(!new)>(less: (T, T) -> bool, a: seq<T>, b: seq<T>)
    requires StrictTotal(less)
    requires SortedBy(less, a) && SortedBy(less, b)
    requires multiset(a) == multiset(b)
    ensures a == b
  {
    assert |a| == |multiset(a)| == |b|;
    if a != [] {
      SameFirst(less, a, b);
      DropFirst(a);
      DropFirst(b);
      SortedPermutationUnique(less, a[1..], b[1..]);
      assert a == [a[0]] + a[1..] && b == [b[0]] + b[1..];
    }
  }

  // ----- Lists without repetition -----

  predicate NoRepeats<T(==)>(s: seq<T>) {
    forall i, j :: 0 <= i < j < |s| ==> s[i] != s[j]
  }

  lemma {:induction false} TwiceCounts<T>(s: seq<T>, i: nat, j: nat)
    requires i < j < |s| && s[i] == s[j]
    ensures multiset(s)[s[i]] >= 2
  {
    assert s == s[..j] + [s[j]] + s[j + 1..];
    assert s[i] in s[..j];
    assert s[i] in multiset(s[..j]);
  }

  lemma {:induction false} OnceCounts<T>(s: seq<T>, x: T)
    requires NoRepeats(s)
    ensures multiset(s)[x] <= 1
  {
    if s != [] {
      var rest := s[..|s| - 1];
      OnceCounts(rest, x);
      assert s == rest + [s[|s| - 1]];
      if s[|s| - 1] == x {
        assert x !in rest;
        assert x !in multiset(rest);
      }
    }
  }

  lemma {:induction false} PermutationNoRepeats<T>(s: seq<T>, r: seq<T>)
    requires NoRepeats(s) && multiset(r) == multiset(s)
    ensures NoRepeats(r)
  {
    forall i, j | 0 <= i < j < |r|
      ensures r[i] != r[j]
    {
      if r[i] == r[j] {
        TwiceCounts(r, i, j);
        OnceCounts(s, r[i]);
        assert false;
      }
    }
  }

  /** Strictly ascending: every element comes before all later ones. */
  ghost predicate Strict<T>(less: (T, T) -> bool, s: seq<T>) {
    forall i, j :: 0 <= i < j < |s| ==> less(s[i], s[j])
  }

  /** Strictly ascending lists with the same elements are the same list; `less`
      need only never hold both ways. */
  lemma {:induction false} StrictUnique<T(!new)>(less: (T, T) -> bool, a: seq<T>, b: seq<T>)
    requires Strict(less, a) && Strict(less, b)
    requires forall x :: x in a <==> x in b
    requires forall x, y :: x in a && y in a ==> !(less(x, y) && less(y, x))
    ensures a == b
    decreases |a|
  {
    FirstIn(b);
    if a == [] {
    } else {
      assert a[0] in b;
      assert b[0] in a;
      var j :| 0 <= j < |b| && b[j] == a[0];
      var i :| 0 <= i < |a| && a[i] == b[0];
      assert a[0] == b[0];
      TailElements(less, a);
      TailElements(less, b);
      StrictUnique(less, a[1..], b[1..]);
      assert a == [a[0]] + a[1..] && b == [b[0]] + b[1..];
    }
  }

  lemma {:induction false} FirstIn<T>(s: seq<T>)
    ensures s == [] || s[0] in s
  {
  }

  lemma {:induction false} TailElements<T(!new)>(less: (T, T) -> bool, a: seq<T>)
    requires Strict(less, a) && a != []
    requires forall x, y :: x in a && y in a ==> !(less(x, y) && less(y, x))
    ensures Strict(less, a[1..])
    ensures forall x :: x in a[1..] <==> x in a && x != a[0]
  {
    forall x
      ensures x in a[1..] <==> x in a && x != a[0]
    {
      if x in a[1..] {
        var i :| 0 <= i < |a| - 1 && a[1..][i] == x;
        assert a[i + 1] == x && less(a[0], a[i + 1]);
      }
      if x in a && x != a[0] {
        var i :| 0 <= i < |a| && a[i] == x;
        assert a[1..][i - 1] == x;
      }
    }
  }

  lemma {:induction false} SubsetSize<T>(a: set<T>, b: set<T>)
    requires a <= b
    ensures |a| <= |b|
    ensures |a| == |b| ==> a == b
  {
    assert b == a + (b - a);
    assert |b| == |a| + |b - a|;
    if |a| == |b| {
      assert b - a == {};
    }
  }
}
