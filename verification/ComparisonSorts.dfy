/**
 Sorting by comparisons. A sort asks which of two elements comes first, and what it asks next depends on the answers
 so far; when a comparison raises, so does the sort. Whatever the sort, it raises on a list of paths exactly when two
 of them cannot be compared: before it could leave that question out, it would have to know the answer.
 */
module ComparisonSorts {
  import opened Results
  import opened Paths
  import opened PathOrder

  /** What a sort does with a list of some length: it asks about two positions, or gives the positions in order. */
  datatype Sorting = Done(order: seq<nat>) | Ask(i: nat, j: nat, yes: Sorting, no: Sorting)

  /** Elements of the list are asked about, two at a time. */
  predicate Proper(t: Sorting, n: nat) {
    match t
    case Done(_) => true
    case Ask(i, j, yes, no) => i < n && j < n && i != j && Proper(yes, n) && Proper(no, n)
  }

  /** What the sort does when every question is answered. */
  function Run(t: Sorting, comesFirst: (nat, nat) -> bool): seq<nat> {
    match t
    case Done(order) => order
    case Ask(i, j, yes, no) => if comesFirst(i, j) then Run(yes, comesFirst) else Run(no, comesFirst)
  }

  ghost predicate WeakOrder(comesFirst: (nat, nat) -> bool, n: nat) {
    && (forall i: nat, j: nat :: i < n && j < n && comesFirst(i, j) ==> !comesFirst(j, i))
    && (forall i: nat, j: nat, k: nat ::
          i < n && j < n && k < n && comesFirst(i, k) ==> comesFirst(i, j) || comesFirst(j, k))
  }

  function Positions(n: nat): seq<nat> {
    seq(n, i requires 0 <= i < n => i)
  }

  /** The positions, each once, none of them after one that should come after it. */
  ghost predicate InOrder(order: seq<nat>, comesFirst: (nat, nat) -> bool, n: nat) {
    && multiset(order) == multiset(Positions(n))
    && forall a, b :: 0 <= a < b < |order| ==> !comesFirst(order[b], order[a])
  }

  /** It is a sort: it puts everything in order that can be put in order. */
  ghost predicate Sorts(t: Sorting, n: nat) {
    Proper(t, n) && forall comesFirst :: WeakOrder(comesFirst, n) ==> InOrder(Run(t, comesFirst), comesFirst, n)
  }

  /** The sort on a list of paths, which raises when it compares what cannot be compared. */
  function RunOn(t: Sorting, ps: seq<Path>, before: Before): Option<seq<nat>>
    requires Proper(t, |ps|)
  {
    match t
    case Done(order) => Some(order)
    case Ask(i, j, yes, no) =>
      if !Comparable(ps[i], ps[j]) then None
      else if Less(ps[i], ps[j], before) then RunOn(yes, ps, before)
      else RunOn(no, ps, before)
  }

  function PathAt(ps: seq<Path>, i: nat): Path {
    if i < |ps| then ps[i] else Rail
  }

  /** The paths at the positions. */
  function At(ps: seq<Path>, order: seq<nat>): seq<Path> {
    seq(|order|, k requires 0 <= k < |order| => PathAt(ps, order[k]))
  }

  // ----- Orders by a key

  function ByKey(key: seq<Path>, before: Before): (nat, nat) -> bool {
    (i: nat, j: nat) => i < |key| && j < |key| && Less(key[i], key[j], before)
  }

  lemma KeysOrder(key: seq<Path>, before: Before)
    requires OrdersAtoms(before)
    ensures WeakOrder(ByKey(key, before), |key|)
  {
    forall i: nat, j: nat | i < |key| && j < |key| && ByKey(key, before)(i, j)
      ensures !ByKey(key, before)(j, i)
    {
      LessTotal(key[i], key[j], before);
    }
    forall i: nat, j: nat, k: nat | i < |key| && j < |key| && k < |key| && ByKey(key, before)(i, k)
      ensures ByKey(key, before)(i, j) || ByKey(key, before)(j, k)
    {
      LessTotal(key[i], key[j], before);
      if key[i] != key[j] && Less(key[j], key[i], before) {
        LessTransitive(key[j], key[i], key[k], before);
      }
    }
  }

  /** The keys are ordered as the paths are, wherever these can be compared. */
  ghost predicate Agrees(key: seq<Path>, ps: seq<Path>, before: Before) {
    && |key| == |ps|
    && forall i, j :: 0 <= i < |ps| && 0 <= j < |ps| && i != j && Comparable(ps[i], ps[j]) ==>
         Less(key[i], key[j], before) == Less(ps[i], ps[j], before)
  }

  lemma {:induction false} RunsAlike(t: Sorting, key: seq<Path>, ps: seq<Path>, before: Before)
    requires Proper(t, |ps|) && Agrees(key, ps, before) && RunOn(t, ps, before).Some?
    ensures Run(t, ByKey(key, before)) == RunOn(t, ps, before).value
  {
    match t
    case Done(_) =>
    case Ask(i, j, yes, no) =>
      RunsAlike(if Less(ps[i], ps[j], before) then yes else no, key, ps, before);
  }

  lemma {:induction false} AllAnswered(t: Sorting, ps: seq<Path>, before: Before)
    requires Proper(t, |ps|) && AllComparable(ps)
    ensures RunOn(t, ps, before).Some?
  {
    match t
    case Done(_) =>
    case Ask(i, j, yes, no) =>
      ComparableSymmetric(ps[i], ps[j]);
      AllAnswered(if Less(ps[i], ps[j], before) then yes else no, ps, before);
  }

  // ----- A question that cannot be left out

  /** The same result is not in order for two orders that place two elements differently. */
  lemma NotBoth(order: seq<nat>, comesFirst: (nat, nat) -> bool, other: (nat, nat) -> bool, n: nat, a: nat, c: nat)
    requires InOrder(order, comesFirst, n) && InOrder(order, other, n)
    requires a < n && c < n && comesFirst(a, c) && other(c, a)
    ensures a == c
  {
    PositionIn(n, a);
    PositionIn(n, c);
    assert a in multiset(order) && c in multiset(order);
    var x :| 0 <= x < |order| && order[x] == a;
    var y :| 0 <= y < |order| && order[y] == c;
  }

  lemma PositionIn(n: nat, i: nat)
    requires i < n
    ensures i in Positions(n)
  {
    assert Positions(n)[i] == i;
  }

  /** A sort that raises nothing cannot tell two orders apart that agree wherever paths can be compared. */
  lemma Undecided(t: Sorting, ps: seq<Path>, before: Before, key: seq<Path>, other: seq<Path>, a: nat, c: nat)
    requires OrdersAtoms(before) && Sorts(t, |ps|) && a < |ps| && c < |ps|
    requires Agrees(key, ps, before) && Agrees(other, ps, before)
    requires Less(key[a], key[c], before) && Less(other[c], other[a], before)
    ensures RunOn(t, ps, before).None?
  {
    if RunOn(t, ps, before).Some? {
      var order := RunOn(t, ps, before).value;
      RunsAlike(t, key, ps, before);
      RunsAlike(t, other, ps, before);
      KeysOrder(key, before);
      KeysOrder(other, before);
      NotBoth(order, ByKey(key, before), ByKey(other, before), |ps|, a, c);
    }
  }

  /** Nothing can be compared with a rail, so it could come anywhere. */
  lemma RailsUndecided(t: Sorting, ps: seq<Path>, before: Before, a: nat, c: nat)
    requires OrdersAtoms(before) && Sorts(t, |ps|) && a < c < |ps| && ps[a] == ps[c] == Rail
    ensures RunOn(t, ps, before).None?
  {
    Undecided(t, ps, before, ps[c := Series([])], ps[a := Series([])], a, c);
  }

  /** The paths of the list that come between two others. */
  ghost function Between(ps: seq<Path>, u: Path, v: Path, before: Before): set<Path> {
    set w | w in ps && Less(u, w, before) && Less(w, v, before)
  }

  /** Of two paths that cannot be compared, with others between them, there are two with none between them. */
  lemma {:induction false} Neighbours(ps: seq<Path>, u: Path, v: Path, before: Before) returns (u': Path, v': Path)
    requires OrdersAtoms(before) && u in ps && v in ps && Less(u, v, before) && !Comparable(u, v)
    ensures u' in ps && v' in ps && Less(u', v', before) && !Comparable(u', v') && Between(ps, u', v', before) == {}
    decreases Between(ps, u, v, before)
  {
    if Between(ps, u, v, before) == {} {
      return u, v;
    }
    var w :| w in Between(ps, u, v, before);
    LessTransitive(u, w, v, before);
    NarrowerLeft(ps, u, w, v, before);
    NarrowerRight(ps, u, w, v, before);
    if !Comparable(u, w) {
      u', v' := Neighbours(ps, u, w, before);
    } else {
      u', v' := Neighbours(ps, w, v, before);
    }
  }

  lemma NarrowerLeft(ps: seq<Path>, u: Path, w: Path, v: Path, before: Before)
    requires OrdersAtoms(before) && w in Between(ps, u, v, before)
    ensures Between(ps, u, w, before) < Between(ps, u, v, before)
  {
    forall x | x in Between(ps, u, w, before)
      ensures x in Between(ps, u, v, before)
    {
      LessTransitive(x, w, v, before);
    }
    LessTotal(w, w, before);
    assert w !in Between(ps, u, w, before);
  }

  lemma NarrowerRight(ps: seq<Path>, u: Path, w: Path, v: Path, before: Before)
    requires OrdersAtoms(before) && w in Between(ps, u, v, before)
    ensures Between(ps, w, v, before) < Between(ps, u, v, before)
  {
    forall x | x in Between(ps, w, v, before)
      ensures x in Between(ps, u, v, before)
    {
      LessTransitive(u, w, x, before);
    }
    LessTotal(w, w, before);
    assert w !in Between(ps, w, v, before);
  }

  function Swap(p: Path, u: Path, v: Path): Path {
    if p == u then v else if p == v then u else p
  }

  function SwapAll(ps: seq<Path>, u: Path, v: Path): seq<Path> {
    seq(|ps|, i requires 0 <= i < |ps| => Swap(ps[i], u, v))
  }

  /** What comes before one of two neighbours comes before the other as well. */
  lemma BesideBoth(ps: seq<Path>, u: Path, v: Path, x: Path, before: Before)
    requires OrdersAtoms(before) && x in ps && Less(u, v, before) && Between(ps, u, v, before) == {} && x != u && x != v
    ensures Less(u, x, before) == Less(v, x, before) && Less(x, u, before) == Less(x, v, before)
  {
    LessTotal(u, x, before);
    LessTotal(v, x, before);
    assert x !in Between(ps, u, v, before);
    if Less(v, x, before) {
      LessTransitive(u, v, x, before);
    } else {
      LessTotal(x, v, before);
    }
  }

  /** Two neighbours that cannot be compared can change places. */
  lemma SwapAgrees(ps: seq<Path>, u: Path, v: Path, before: Before)
    requires OrdersAtoms(before) && Less(u, v, before) && Between(ps, u, v, before) == {} && !Comparable(u, v)
    ensures Agrees(SwapAll(ps, u, v), ps, before)
  {
    ComparableSymmetric(u, v);
    LessTotal(u, u, before);
    LessTotal(v, v, before);
    forall i, j | 0 <= i < |ps| && 0 <= j < |ps| && Comparable(ps[i], ps[j])
      ensures Less(Swap(ps[i], u, v), Swap(ps[j], u, v), before) == Less(ps[i], ps[j], before)
    {
      if ps[i] != u && ps[i] != v {
        BesideBoth(ps, u, v, ps[i], before);
      }
      if ps[j] != u && ps[j] != v {
        BesideBoth(ps, u, v, ps[j], before);
      }
    }
  }

  lemma DifferentUndecided(t: Sorting, ps: seq<Path>, before: Before, p: Path, q: Path)
    requires OrdersAtoms(before) && Sorts(t, |ps|) && p in ps && q in ps && p != q && !Comparable(p, q)
    ensures RunOn(t, ps, before).None?
  {
    LessTotal(p, q, before);
    ComparableSymmetric(p, q);
    var low, high := if Less(p, q, before) then p else q, if Less(p, q, before) then q else p;
    var u, v := Neighbours(ps, low, high, before);
    var a :| 0 <= a < |ps| && ps[a] == u;
    var c :| 0 <= c < |ps| && ps[c] == v;
    LessTotal(u, v, before);
    SwapAgrees(ps, u, v, before);
    Undecided(t, ps, before, ps, SwapAll(ps, u, v), a, c);
  }

  // ----- What every sort does

  lemma {:induction false} AtPermute(ps: seq<Path>, a: seq<nat>, b: seq<nat>)
    requires multiset(a) == multiset(b)
    ensures multiset(At(ps, a)) == multiset(At(ps, b))
    decreases |a|
  {
    assert |multiset(a)| == |a| && |multiset(b)| == |b|;
    if a == [] {
      return;
    }
    var k := Found(b, a[0], multiset(a));
    TakenOut(ps, a, 0);
    TakenOut(ps, b, k);
    AtPermute(ps, Without(a, 0), Without(b, k));
  }

  function Without(s: seq<nat>, k: nat): (r: seq<nat>)
    requires k < |s|
    ensures |r| == |s| - 1
  {
    s[..k] + s[k + 1..]
  }

  lemma Found(b: seq<nat>, i: nat, all: multiset<nat>) returns (k: nat)
    requires multiset(b) == all && i in all
    ensures k < |b| && b[k] == i
  {
    assert i in b;
    k :| k < |b| && b[k] == i;
  }

  lemma TakenOut(ps: seq<Path>, s: seq<nat>, k: nat)
    requires k < |s|
    ensures multiset(Without(s, k)) == multiset(s) - multiset{s[k]}
    ensures multiset(At(ps, s)) == multiset(At(ps, Without(s, k))) + multiset{PathAt(ps, s[k])}
  {
    assert s == s[..k] + [s[k]] + s[k + 1..];
    var front, back := At(ps, s)[..k], At(ps, s)[k + 1..];
    assert At(ps, s) == front + [PathAt(ps, s[k])] + back;
    assert At(ps, Without(s, k)) == front + back;
  }

  /** Every sort raises exactly when two of the paths cannot be compared, and gives the sorted paths otherwise. */
  lemma EverySort(t: Sorting, ps: seq<Path>, before: Before)
    requires OrdersAtoms(before) && Sorts(t, |ps|)
    ensures RunOn(t, ps, before).None? <==> !AllComparable(ps)
    ensures AllComparable(ps) ==> At(ps, RunOn(t, ps, before).value) == Sorted(ps, before)
  {
    if AllComparable(ps) {
      AllAnswered(t, ps, before);
      InSortedOrder(t, ps, before);
    } else {
      var a, c :| 0 <= a < c < |ps| && !Comparable(ps[a], ps[c]);
      if ps[a] == ps[c] {
        SelfComparable(ps[a]);
        RailsUndecided(t, ps, before, a, c);
      } else {
        DifferentUndecided(t, ps, before, ps[a], ps[c]);
      }
    }
  }

  lemma InSortedOrder(t: Sorting, ps: seq<Path>, before: Before)
    requires OrdersAtoms(before) && Sorts(t, |ps|) && RunOn(t, ps, before).Some?
    ensures At(ps, RunOn(t, ps, before).value) == Sorted(ps, before)
  {
    var order := RunOn(t, ps, before).value;
    RunsAlike(t, ps, ps, before);
    KeysOrder(ps, before);
    OrderSorts(order, ps, before);
  }

  lemma OrderSorts(order: seq<nat>, ps: seq<Path>, before: Before)
    requires OrdersAtoms(before) && InOrder(order, ByKey(ps, before), |ps|)
    ensures At(ps, order) == Sorted(ps, before)
  {
    AtAll(ps, order);
    OrderAscends(order, ps, before);
    SortedAscends(ps, before);
    AscendingUnique(At(ps, order), Sorted(ps, before), before);
  }

  lemma AtAll(ps: seq<Path>, order: seq<nat>)
    requires multiset(order) == multiset(Positions(|ps|))
    ensures multiset(At(ps, order)) == multiset(ps)
  {
    AtPermute(ps, order, Positions(|ps|));
    assert At(ps, Positions(|ps|)) == ps;
  }

  lemma OrderAscends(order: seq<nat>, ps: seq<Path>, before: Before)
    requires InOrder(order, ByKey(ps, before), |ps|)
    ensures Ascending(At(ps, order), before)
  {
    forall a, b | 0 <= a < b < |order|
      ensures !Less(At(ps, order)[b], At(ps, order)[a], before)
    {
      assert order[a] in multiset(order) && order[b] in multiset(order);
      assert order[a] in Positions(|ps|) && order[b] in Positions(|ps|);
      assert !ByKey(ps, before)(order[b], order[a]);
    }
  }

  // ----- Insertion is such a sort

  /** Inserts element `m` behind the first `k` of those already in order, then the elements after it. */
  function Insertion(m: nat, sorted: seq<nat>, k: nat, n: nat): Sorting
    requires m <= n && |sorted| == m && k <= m
    decreases n - m, m - k
  {
    if m == n then Done(sorted)
    else if k == m then Insertion(m + 1, Place(m, sorted, m), 0, n)
    else Ask(m, sorted[k], Insertion(m + 1, Place(m, sorted, k), 0, n), Insertion(m, sorted, k + 1, n))
  }

  lemma {:induction false} InsertionOrders(m: nat, sorted: seq<nat>, k: nat, n: nat, comesFirst: (nat, nat) -> bool)
    requires m <= n && |sorted| == m && k <= m && WeakOrder(comesFirst, n) && InOrder(sorted, comesFirst, m)
    requires m < n ==> forall x :: 0 <= x < k ==> !comesFirst(m, sorted[x])
    ensures InOrder(Run(Insertion(m, sorted, k, n), comesFirst), comesFirst, n)
    decreases n - m, m - k
  {
    if m < n {
      if k == m || comesFirst(m, sorted[k]) {
        PlacedInOrder(m, sorted, k, n, comesFirst);
        InsertionOrders(m + 1, Place(m, sorted, k), 0, n, comesFirst);
      } else {
        InsertionOrders(m, sorted, k + 1, n, comesFirst);
      }
    }
  }

  function Place(m: nat, sorted: seq<nat>, k: nat): (r: seq<nat>)
    requires k <= |sorted|
    ensures |r| == |sorted| + 1
    ensures forall x :: 0 <= x < |r| ==> r[x] == if x < k then sorted[x] else if x == k then m else sorted[x - 1]
    ensures forall i :: i in r ==> i == m || i in sorted
  {
    sorted[..k] + [m] + sorted[k..]
  }

  lemma PlacedInOrder(m: nat, sorted: seq<nat>, k: nat, n: nat, comesFirst: (nat, nat) -> bool)
    requires m < n && |sorted| == m && k <= m && WeakOrder(comesFirst, n) && InOrder(sorted, comesFirst, m)
    requires forall x :: 0 <= x < k ==> !comesFirst(m, sorted[x])
    requires k == m || comesFirst(m, sorted[k])
    ensures InOrder(Place(m, sorted, k), comesFirst, m + 1)
  {
    PlacedPositions(m, sorted, k);
    PositionsBelow(sorted, m);
    forall y | k <= y < m
      ensures !comesFirst(sorted[y], m)
    {
      assert sorted[y] in sorted && sorted[k] in sorted;
      NotBefore(m, sorted[y], sorted[k], n, comesFirst);
    }
  }

  lemma PlacedPositions(m: nat, sorted: seq<nat>, k: nat)
    requires multiset(sorted) == multiset(Positions(m)) && k <= |sorted|
    ensures multiset(Place(m, sorted, k)) == multiset(Positions(m + 1))
  {
    assert sorted == sorted[..k] + sorted[k..];
    assert Positions(m + 1) == Positions(m) + [m];
  }

  /** What does not come before the first element behind `m` does not come before `m`. */
  lemma NotBefore(m: nat, i: nat, first: nat, n: nat, comesFirst: (nat, nat) -> bool)
    requires WeakOrder(comesFirst, n) && m < n && i < n && first < n
    requires comesFirst(m, first) && (i == first || !comesFirst(i, first))
    ensures !comesFirst(i, m)
  {
    assert comesFirst(i, m) ==> comesFirst(i, first) || comesFirst(first, m);
  }

  lemma PositionsBelow(sorted: seq<nat>, m: nat)
    requires multiset(sorted) == multiset(Positions(m))
    ensures forall i :: i in sorted ==> i < m
  {
    forall i | i in sorted
      ensures i < m
    {
      assert i in multiset(Positions(m));
    }
  }

  lemma {:induction false} InsertionProper(m: nat, sorted: seq<nat>, k: nat, n: nat)
    requires m <= n && |sorted| == m && k <= m && forall i :: i in sorted ==> i < m
    ensures Proper(Insertion(m, sorted, k, n), n)
    decreases n - m, m - k
  {
    if m < n {
      InsertionProper(m + 1, Place(m, sorted, k), 0, n);
      if k < m {
        assert sorted[k] in sorted;
        InsertionProper(m, sorted, k + 1, n);
      }
    }
  }

  lemma InsertionSorts(n: nat)
    ensures Sorts(Insertion(0, [], 0, n), n)
  {
    InsertionProper(0, [], 0, n);
    forall comesFirst | WeakOrder(comesFirst, n)
      ensures InOrder(Run(Insertion(0, [], 0, n), comesFirst), comesFirst, n)
    {
      InsertionOrders(0, [], 0, n, comesFirst);
    }
  }
}
