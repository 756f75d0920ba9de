/**
 How Python orders paths. Strings are ordered; lists are ordered by their first difference, and so are tuples; but
 two things of different kinds, or two rails, cannot be compared.
 */
module PathOrder {
  import opened Paths

  /** The order of the strings that stand for atoms. */
  type Before = (Path, Path) -> bool

  /** All that is known of that order: different strings come one before the other, in one order only. */
  ghost predicate OrdersAtoms(before: Before) {
    && (forall p: Path, q: Path :: before(p, q) ==> !before(q, p))
    && (forall p: Path, q: Path :: p.Atom? && q.Atom? && p != q ==> before(p, q) || before(q, p))
    && (forall p: Path, q: Path, r: Path :: before(p, q) && before(q, r) ==> before(p, r))
  }

  /** Comparing them raises nothing. */
  predicate Comparable(p: Path, q: Path)
    decreases p
  {
    match (p, q)
    case (Atom(_, _), Atom(_, _)) => true
    case (Series(a), Series(b)) => ListsComparable(a, b)
    case (Parallel(a), Parallel(b)) => ListsComparable(a, b)
    case _ => false
  }

  /** Equal members are passed over; the first two that differ must be comparable. */
  predicate ListsComparable(a: seq<Path>, b: seq<Path>)
    decreases a
  {
    if a == [] || b == [] then true
    else if a[0] == b[0] then ListsComparable(a[1..], b[1..])
    else Comparable(a[0], b[0])
  }

  function KindOf(p: Path): nat {
    match p
    case Rail => 0
    case Atom(_, _) => 1
    case Series(_) => 2
    case Parallel(_) => 3
  }

  /** The answer of the comparison where there is one; elsewhere different kinds are put in some order. */
  predicate Less(p: Path, q: Path, before: Before)
    decreases p
  {
    match (p, q)
    case (Atom(_, _), Atom(_, _)) => before(p, q)
    case (Series(a), Series(b)) => ListLess(a, b, before)
    case (Parallel(a), Parallel(b)) => ListLess(a, b, before)
    case _ => KindOf(p) < KindOf(q)
  }

  predicate ListLess(a: seq<Path>, b: seq<Path>, before: Before)
    decreases a
  {
    if a == [] || b == [] then b != [] && a == []
    else if a[0] == b[0] then ListLess(a[1..], b[1..], before)
    else Less(a[0], b[0], before)
  }

  // ----- A total order

  lemma {:induction false} LessTotal(p: Path, q: Path, before: Before)
    requires OrdersAtoms(before)
    ensures p != q ==> Less(p, q, before) || Less(q, p, before)
    ensures Less(p, q, before) ==> p != q && !Less(q, p, before)
    decreases p
  {
    match (p, q)
    case (Series(a), Series(b)) => ListLessTotal(a, b, before);
    case (Parallel(a), Parallel(b)) => ListLessTotal(a, b, before);
    case _ =>
  }

  lemma {:induction false} ListLessTotal(a: seq<Path>, b: seq<Path>, before: Before)
    requires OrdersAtoms(before)
    ensures a != b ==> ListLess(a, b, before) || ListLess(b, a, before)
    ensures ListLess(a, b, before) ==> a != b && !ListLess(b, a, before)
    decreases a
  {
    if a != [] && b != [] {
      if a[0] == b[0] {
        ListLessTotal(a[1..], b[1..], before);
        assert a == [a[0]] + a[1..] && b == [b[0]] + b[1..];
      } else {
        LessTotal(a[0], b[0], before);
      }
    }
  }

  lemma {:induction false} LessTransitive(p: Path, q: Path, r: Path, before: Before)
    requires OrdersAtoms(before) && Less(p, q, before) && Less(q, r, before)
    ensures Less(p, r, before)
    ensures Comparable(p, q) && Comparable(q, r) ==> Comparable(p, r)
    decreases p
  {
    match (p, q, r)
    case (Series(a), Series(b), Series(c)) => ListLessTransitive(a, b, c, before);
    case (Parallel(a), Parallel(b), Parallel(c)) => ListLessTransitive(a, b, c, before);
    case _ =>
  }

  lemma {:induction false} ListLessTransitive(a: seq<Path>, b: seq<Path>, c: seq<Path>, before: Before)
    requires OrdersAtoms(before) && ListLess(a, b, before) && ListLess(b, c, before)
    ensures ListLess(a, c, before)
    ensures ListsComparable(a, b) && ListsComparable(b, c) ==> ListsComparable(a, c)
    decreases a
  {
    if a != [] {
      if a[0] == b[0] {
        if b[0] == c[0] {
          ListLessTransitive(a[1..], b[1..], c[1..], before);
        }
      } else if b[0] != c[0] {
        LessTransitive(a[0], b[0], c[0], before);
        LessTotal(a[0], b[0], before);
      }
    }
  }

  /** Only rails cannot be compared with themselves. */
  lemma {:induction false} SelfComparable(p: Path)
    ensures Comparable(p, p) <==> !p.Rail?
    decreases p
  {
    match p
    case Series(a) => ListSelfComparable(a);
    case Parallel(a) => ListSelfComparable(a);
    case _ =>
  }

  lemma {:induction false} ListSelfComparable(a: seq<Path>)
    ensures ListsComparable(a, a)
    decreases a
  {
    if a != [] {
      ListSelfComparable(a[1..]);
    }
  }

  lemma {:induction false} ComparableSymmetric(p: Path, q: Path)
    ensures Comparable(p, q) <==> Comparable(q, p)
    decreases p
  {
    match (p, q)
    case (Series(a), Series(b)) => ListsComparableSymmetric(a, b);
    case (Parallel(a), Parallel(b)) => ListsComparableSymmetric(a, b);
    case _ =>
  }

  lemma {:induction false} ListsComparableSymmetric(a: seq<Path>, b: seq<Path>)
    ensures ListsComparable(a, b) <==> ListsComparable(b, a)
    decreases a
  {
    if a != [] && b != [] {
      if a[0] == b[0] {
        ListsComparableSymmetric(a[1..], b[1..]);
      } else {
        ComparableSymmetric(a[0], b[0]);
      }
    }
  }

  /** No two of the paths raise anything when compared. */
  predicate AllComparable(ps: seq<Path>) {
    forall i, j :: 0 <= i < j < |ps| ==> Comparable(ps[i], ps[j])
  }

  /** Different paths can be compared, and there is at most one rail. */
  lemma AllComparableWhen(ps: seq<Path>)
    ensures AllComparable(ps) <==>
            (forall p, q :: p in ps && q in ps && p != q ==> Comparable(p, q)) && multiset(ps)[Rail] <= 1
  {
    if AllComparable(ps) {
      forall p, q | p in ps && q in ps && p != q
        ensures Comparable(p, q)
      {
        var i :| 0 <= i < |ps| && ps[i] == p;
        var j :| 0 <= j < |ps| && ps[j] == q;
        ComparableSymmetric(p, q);
      }
      OneRail(ps);
    }
    if (forall p, q :: p in ps && q in ps && p != q ==> Comparable(p, q)) && multiset(ps)[Rail] <= 1 {
      forall i, j | 0 <= i < j < |ps|
        ensures Comparable(ps[i], ps[j])
      {
        SelfComparable(ps[i]);
        TwoRails(ps, i, j);
      }
    }
  }

  lemma TwoRails(ps: seq<Path>, i: nat, j: nat)
    requires i < j < |ps|
    ensures ps[i] == ps[j] == Rail ==> multiset(ps)[Rail] > 1
  {
    assert ps == ps[..j] + ps[j..];
    assert ps[i] in ps[..j] && ps[j] in ps[j..];
  }

  lemma {:induction false} OneRail(ps: seq<Path>)
    requires AllComparable(ps)
    ensures multiset(ps)[Rail] <= 1
  {
    if i :| 0 <= i < |ps| && ps[i] == Rail {
      assert ps == ps[..i] + [Rail] + ps[i + 1..];
      assert Rail !in ps[..i] && Rail !in ps[i + 1..];
    } else {
      assert Rail !in ps;
    }
  }

  lemma ComparablePermute(a: seq<Path>, b: seq<Path>)
    requires multiset(a) == multiset(b)
    ensures AllComparable(a) <==> AllComparable(b)
  {
    AllComparableWhen(a);
    AllComparableWhen(b);
    assert forall p :: p in a <==> p in multiset(a);
    assert forall p :: p in b <==> p in multiset(b);
  }

  // ----- Sorting

  function Insert(p: Path, sorted: seq<Path>, before: Before): (r: seq<Path>)
    ensures multiset(r) == multiset{p} + multiset(sorted)
  {
    if sorted == [] || !Less(sorted[0], p, before) then
      assert [p] + sorted == [p] + sorted; [p] + sorted
    else
      var rest := Insert(p, sorted[1..], before);
      assert sorted == [sorted[0]] + sorted[1..];
      [sorted[0]] + rest
  }

  function Sorted(ps: seq<Path>, before: Before): (r: seq<Path>)
    ensures multiset(r) == multiset(ps)
  {
    if ps == [] then []
    else
      assert ps == [ps[0]] + ps[1..];
      Insert(ps[0], Sorted(ps[1..], before), before)
  }

  ghost predicate Ascending(ps: seq<Path>, before: Before) {
    forall i, j :: 0 <= i < j < |ps| ==> !Less(ps[j], ps[i], before)
  }

  lemma {:induction false} InsertAscends(p: Path, sorted: seq<Path>, before: Before)
    requires OrdersAtoms(before) && Ascending(sorted, before)
    ensures Ascending(Insert(p, sorted, before), before)
  {
    if sorted == [] {
      return;
    }
    if Less(sorted[0], p, before) {
      InsertAscends(p, sorted[1..], before);
      var rest := Insert(p, sorted[1..], before);
      forall j | 0 <= j < |rest|
        ensures !Less(rest[j], sorted[0], before)
      {
        assert rest[j] in multiset(rest);
        LessTotal(sorted[0], p, before);
        if rest[j] != p {
          assert rest[j] in sorted[1..];
        }
      }
    } else {
      forall j | 0 <= j < |sorted|
        ensures !Less(sorted[j], p, before)
      {
        NotLessTransitive(sorted[j], sorted[0], p, before);
      }
    }
  }

  lemma NotLessTransitive(p: Path, q: Path, r: Path, before: Before)
    requires OrdersAtoms(before) && (p == q || !Less(p, q, before)) && !Less(q, r, before)
    ensures !Less(p, r, before)
  {
    LessTotal(p, q, before);
    LessTotal(q, r, before);
    LessTotal(p, r, before);
    if p != q && q != r && Less(p, r, before) {
      LessTransitive(q, p, r, before);
    }
  }

  lemma {:induction false} SortedAscends(ps: seq<Path>, before: Before)
    requires OrdersAtoms(before)
    ensures Ascending(Sorted(ps, before), before)
  {
    if ps != [] {
      SortedAscends(ps[1..], before);
      InsertAscends(ps[0], Sorted(ps[1..], before), before);
    }
  }

  /** There is only one way to put paths in order. */
  lemma {:induction false} AscendingUnique(a: seq<Path>, b: seq<Path>, before: Before)
    requires OrdersAtoms(before) && Ascending(a, before) && Ascending(b, before) && multiset(a) == multiset(b)
    ensures a == b
    decreases |a|
  {
    assert |multiset(a)| == |a| && |multiset(b)| == |b|;
    if a == [] {
      return;
    }
    assert b[0] in multiset(b) && a[0] in multiset(a);
    FirstOf(a, b[0], before);
    FirstOf(b, a[0], before);
    LessTotal(a[0], b[0], before);
    RestOf(a);
    RestOf(b);
    AscendingUnique(a[1..], b[1..], before);
    assert a == [a[0]] + a[1..] && b == [b[0]] + b[1..];
  }

  lemma FirstOf(a: seq<Path>, p: Path, before: Before)
    requires Ascending(a, before) && a != [] && (p in multiset(a) || p == a[0])
    ensures p == a[0] || !Less(p, a[0], before)
  {
    var i :| 0 <= i < |a| && a[i] == p;
  }

  lemma RestOf(a: seq<Path>)
    requires a != []
    ensures multiset(a[1..]) == multiset(a) - multiset{a[0]}
  {
    assert a == [a[0]] + a[1..];
  }
}
