/**
 FactorizePaths: paths that end in the same element are merged into one path ending in that element. What is left
 is sorted, which raises an exception when two of the paths cannot be compared.
 */
module Factorization {
  import opened Sequences
  import opened Results
  import opened StText
  import opened Paths
  import opened PathOrder

  /** Paths to merge, under their common last element: the part before it, and the path's position. */
  type Groups = map<Path, seq<(seq<Path>, nat)>>

  function Leaves(p: Path): nat {
    match p
    case Rail => 1
    case Atom(_, _) => 1
    case Series(items) => AllLeaves(items)
    case Parallel(alts) => AllLeaves(alts)
  }

  function AllLeaves(ps: seq<Path>): nat
    decreases ps
  {
    if ps == [] then 0 else Leaves(ps[0]) + AllLeaves(ps[1..])
  }

  predicate Long(p: Path) {
    p.Series? && |p.items| > 1
  }

  function Tail(p: Path): Path
    requires Long(p)
  {
    p.items[|p.items| - 1]
  }

  /** No two lists of more than one element end in the same element. */
  ghost predicate DistinctTails(ps: multiset<Path>) {
    && (forall p :: p in ps && Long(p) ==> ps[p] == 1)
    && (forall p, q :: p in ps && q in ps && Long(p) && Long(q) && Tail(p) == Tail(q) ==> p == q)
  }

  /** Termination: the number of list elements at the top level. */
  function Width(ps: seq<Path>): nat {
    if ps == [] then 0 else (if ps[0].Series? then |ps[0].items| else 0) + Width(ps[1..])
  }

  // ----- The result, as a function

  lemma {:induction false} WidthConcat(a: seq<Path>, b: seq<Path>)
    ensures Width(a + b) == Width(a) + Width(b)
  {
    if a == [] {
      assert a + b == b;
    } else {
      assert (a + b)[1..] == a[1..] + b;
      WidthConcat(a[1..], b);
    }
  }

  lemma WidthLast(ps: seq<Path>, p: Path)
    ensures Width(ps + [p]) == Width(ps) + if p.Series? then |p.items| else 0
  {
    WidthConcat(ps, [p]);
  }

  /** The paths that end in the element, without it. */
  function Members(paths: seq<Path>, key: Path): (r: seq<Path>)
    ensures Width(r) + |r| <= Width(paths)
  {
    if paths == [] then []
    else
      var front, p := paths[..|paths| - 1], paths[|paths| - 1];
      var r := Members(front, key);
      assert paths == front + [p];
      WidthLast(front, p);
      if Long(p) && Tail(p) == key then
        WidthLast(r, Series(p.items[..|p.items| - 1]));
        r + [Series(p.items[..|p.items| - 1])]
      else r
  }

  /** The elements that some list of more than one element ends in, in the order in which they appear. */
  function KeysOf(paths: seq<Path>): seq<Path> {
    if paths == [] then []
    else
      var keys, p := KeysOf(paths[..|paths| - 1]), paths[|paths| - 1];
      if Long(p) && Tail(p) !in keys then keys + [Tail(p)] else keys
  }

  function Others(paths: seq<Path>): seq<Path> {
    if paths == [] then []
    else
      var p := paths[|paths| - 1];
      Others(paths[..|paths| - 1]) + if p.Series? then [] else [p]
  }

  /** A list that is not merged with others. */
  predicate Single(paths: seq<Path>, p: Path) {
    p.Series? && (Long(p) ==> |Members(paths, Tail(p))| == 1)
  }

  function SinglePositions(paths: seq<Path>, n: nat): seq<nat>
    requires n <= |paths|
  {
    if n == 0 then []
    else SinglePositions(paths, n - 1) + if Single(paths, paths[n - 1]) then [n - 1] else []
  }

  function At(paths: seq<Path>, index: seq<nat>): seq<Path>
    requires forall i :: i in index ==> i < |paths|
  {
    seq(|index|, k requires 0 <= k < |index| => assert index[k] in index; paths[index[k]])
  }

  /** The lists that are not merged with others. */
  function Singles(paths: seq<Path>): seq<Path> {
    SinglesAt(paths);
    At(paths, SinglePositions(paths, |paths|))
  }

  lemma SinglesAt(paths: seq<Path>)
    ensures forall i :: i in SinglePositions(paths, |paths|) ==> i < |paths|
  {
    SinglesBelow(paths, |paths|);
  }

  lemma {:induction false} SinglesBelow(paths: seq<Path>, n: nat)
    requires n <= |paths|
    ensures forall i: nat :: i in SinglePositions(paths, n) <==> i < n && Single(paths, paths[i])
    ensures Increasing(SinglePositions(paths, n))
  {
    if n > 0 {
      SinglesBelow(paths, n - 1);
      var front := SinglePositions(paths, n - 1);
      assert forall i :: 0 <= i < |front| ==> front[i] in front;
      assert Increasing(front + [n - 1]);
    }
  }

  predicate Increasing(index: seq<nat>) {
    forall i, j :: 0 <= i < j < |index| ==> index[i] < index[j]
  }

  function Merged(common: seq<Path>, key: Path): Path {
    if |common| > 1 then Series([Parallel(common), key]) else Series(common + [key])
  }

  /** The path that takes the place of those that end in the element, if there are several. */
  function MergedGroup(paths: seq<Path>, key: Path, before: Before): seq<Path>
    decreases Width(paths), 0
  {
    var members := Members(paths, key);
    if |members| > 1 then [Merged(Factorized(members, before), key)] else []
  }

  function AllMerged(paths: seq<Path>, keys: seq<Path>, before: Before): seq<Path>
    decreases Width(paths), 1, |keys|
  {
    if keys == [] then []
    else
      AllMerged(paths, keys[..|keys| - 1], before) + MergedGroup(paths, keys[|keys| - 1], before)
  }

  /** What is sorted in the end. */
  function Unsorted(paths: seq<Path>, before: Before): seq<Path>
    decreases Width(paths), 2
  {
    Others(paths) + AllMerged(paths, KeysOf(paths), before) + Singles(paths)
  }

  function Factorized(paths: seq<Path>, before: Before): seq<Path>
    decreases Width(paths), 3
  {
    Sorted(Unsorted(paths, before), before)
  }

  /** Neither the sort of the paths left nor one for the members of a group raises anything. */
  ghost predicate Sortable(paths: seq<Path>, before: Before)
    decreases Width(paths)
  {
    && (forall key :: key in KeysOf(paths) && |Members(paths, key)| > 1 ==> Sortable(Members(paths, key), before))
    && AllComparable(Unsorted(paths, before))
  }

  // ----- The groups

  /** The recursive call's argument: the members of a group without their common last element. */
  function Prefixes(es: seq<(seq<Path>, nat)>): seq<Path> {
    seq(|es|, i requires 0 <= i < |es| => Series(es[i].0))
  }

  /** The members of a group as they were. */
  function Whole(es: seq<(seq<Path>, nat)>, key: Path): seq<Path> {
    seq(|es|, i requires 0 <= i < |es| => Series(es[i].0 + [key]))
  }

  // ----- Facts about concatenation and permutation

  lemma {:induction false} LeavesConcat(a: seq<Path>, b: seq<Path>)
    ensures AllLeaves(a + b) == AllLeaves(a) + AllLeaves(b)
  {
    if a == [] {
      assert a + b == b;
    } else {
      assert (a + b)[1..] == a[1..] + b;
      LeavesConcat(a[1..], b);
    }
  }

  function Without(s: seq<Path>, k: nat): (r: seq<Path>)
    requires k < |s|
    ensures |r| == |s| - 1
  {
    s[..k] + s[k + 1..]
  }

  lemma TakeOut(s: seq<Path>, k: nat)
    requires k < |s|
    ensures multiset(Without(s, k)) == multiset(s) - multiset{s[k]}
  {
    assert s == s[..k] + [s[k]] + s[k + 1..];
  }

  lemma TakeOutLeaves(s: seq<Path>, k: nat)
    requires k < |s|
    ensures AllLeaves(s) == Leaves(s[k]) + AllLeaves(Without(s, k))
  {
    SplitAt(s, k);
    MiddleLeaves(s[..k], s[k], s[k + 1..]);
  }

  lemma SplitAt(s: seq<Path>, k: nat)
    requires k < |s|
    ensures s == s[..k] + ([s[k]] + s[k + 1..])
  {
  }

  lemma MiddleLeaves(front: seq<Path>, p: Path, back: seq<Path>)
    ensures AllLeaves(front + ([p] + back)) == Leaves(p) + AllLeaves(front + back)
  {
    LeavesConcat(front, [p] + back);
    FirstLeaves(p, back);
    LeavesConcat(front, back);
  }

  lemma FirstLeaves(p: Path, ps: seq<Path>)
    ensures AllLeaves([p] + ps) == Leaves(p) + AllLeaves(ps)
  {
    assert ([p] + ps)[1..] == ps;
  }

  lemma {:induction false} LeavesPermute(a: seq<Path>, b: seq<Path>)
    requires multiset(a) == multiset(b)
    ensures AllLeaves(a) == AllLeaves(b)
    decreases |a|
  {
    assert |multiset(a)| == |a| && |multiset(b)| == |b|;
    if a == [] {
      return;
    }
    assert a[0] in multiset(b);
    var k :| 0 <= k < |b| && b[k] == a[0];
    TakeOut(a, 0);
    TakeOut(b, k);
    LeavesPermute(Without(a, 0), Without(b, k));
    TakeOutLeaves(a, 0);
    TakeOutLeaves(b, k);
  }

  lemma AnyConcat(a: seq<Path>, b: seq<Path>, s: Store)
    ensures AnyTrue(a + b, s) == (AnyTrue(a, s) || AnyTrue(b, s))
  {
    assert forall q :: q in a + b <==> q in a || q in b;
  }

  lemma AnyPermute(a: seq<Path>, b: seq<Path>)
    requires multiset(a) == multiset(b)
    ensures forall s: Store :: AnyTrue(a, s) == AnyTrue(b, s)
    ensures forall q :: q in a <==> q in b
  {
    assert forall q :: q in a <==> q in multiset(a);
    assert forall q :: q in b <==> q in multiset(b);
  }

  /** Taking the common last element out of every path of a group and putting it back behind their OR. */
  lemma {:induction false} GroupMeaning(es: seq<(seq<Path>, nat)>, key: Path, s: Store)
    requires forall e :: e in es ==> e.0 != []
    ensures AnyTrue(Whole(es, key), s) == (AnyTrue(Prefixes(es), s) && Truth(Meaning(key, s)))
  {
    var w, p := Whole(es, key), Prefixes(es);
    forall i | 0 <= i < |es|
      ensures Truth(Meaning(w[i], s)) == (Truth(Meaning(p[i], s)) && Truth(Meaning(key, s)))
    {
      assert es[i] in es;
      SeriesTruth(es[i].0, s);
      SeriesTruth(es[i].0 + [key], s);
      assert forall q :: q in es[i].0 + [key] <==> q in es[i].0 || q == key;
    }
    if AnyTrue(w, s) {
      var q :| q in w && Truth(Meaning(q, s));
      var i :| 0 <= i < |w| && w[i] == q;
      assert p[i] in p;
    }
    if AnyTrue(p, s) && Truth(Meaning(key, s)) {
      var q :| q in p && Truth(Meaning(q, s));
      var i :| 0 <= i < |p| && p[i] == q;
      assert w[i] in w;
    }
  }

  lemma {:induction false} GroupLeaves(es: seq<(seq<Path>, nat)>, key: Path)
    ensures AllLeaves(Prefixes(es)) + (if es == [] then 0 else Leaves(key)) <= AllLeaves(Whole(es, key))
  {
    if es != [] {
      GroupLeaves(es[1..], key);
      assert Whole(es, key)[1..] == Whole(es[1..], key);
      assert Prefixes(es)[1..] == Prefixes(es[1..]);
      LeavesConcat(es[0].0, [key]);
    }
  }

  lemma {:induction false} GroupWidth(es: seq<(seq<Path>, nat)>, key: Path)
    ensures Width(Whole(es, key)) == Width(Prefixes(es)) + |es|
  {
    if es != [] {
      GroupWidth(es[1..], key);
      assert Whole(es, key)[1..] == Whole(es[1..], key);
      assert Prefixes(es)[1..] == Prefixes(es[1..]);
    }
  }

  // ----- The table of groups

  ghost predicate Grouped(paths: seq<Path>, n: nat, groups: Groups)
    requires n <= |paths|
  {
    && (forall key :: key in groups ==> IsGroup(paths, n, key, groups[key]))
    && (forall i :: 0 <= i < n && Long(paths[i]) ==>
          Tail(paths[i]) in groups && exists e: (seq<Path>, nat) :: e in groups[Tail(paths[i])] && e.1 == i)
  }

  ghost predicate IsGroup(paths: seq<Path>, n: nat, key: Path, es: seq<(seq<Path>, nat)>)
    requires n <= |paths|
  {
    && es != []
    && (forall e :: e in es ==> e.1 < n && e.0 != [] && paths[e.1] == Series(e.0 + [key]))
    && (forall i, j :: 0 <= i < j < |es| ==> es[i].1 < es[j].1)
  }

  function AddToGroup(groups: Groups, items: seq<Path>, num: nat): Groups
    requires |items| > 1
  {
    var key := items[|items| - 1];
    groups[key := (if key in groups then groups[key] else []) + [(items[..|items| - 1], num)]]
  }

  /** The path joins the group of its last element. */
  lemma GroupGrows(paths: seq<Path>, n: nat, groups: Groups)
    requires n < |paths| && Long(paths[n]) && Grouped(paths, n, groups)
    ensures var items := paths[n].items;
            var key, more := items[|items| - 1], AddToGroup(groups, items, n);
            IsGroup(paths, n + 1, key, more[key])
            && forall e :: e in more[key] <==>
                e in (if key in groups then groups[key] else []) || e == (items[..|items| - 1], n)
  {
    var items := paths[n].items;
    var key := items[|items| - 1];
    assert items == items[..|items| - 1] + [key];
    var es := if key in groups then groups[key] else [];
    assert forall i :: 0 <= i < |es| ==> es[i] in es;
  }

  lemma GroupStep(paths: seq<Path>, n: nat, groups: Groups)
    requires n < |paths| && Grouped(paths, n, groups)
    ensures Long(paths[n]) ==> Grouped(paths, n + 1, AddToGroup(groups, paths[n].items, n))
    ensures !Long(paths[n]) ==> Grouped(paths, n + 1, groups)
  {
    if Long(paths[n]) {
      var items := paths[n].items;
      var key := items[|items| - 1];
      var more := AddToGroup(groups, items, n);
      GroupGrows(paths, n, groups);
      forall i | 0 <= i < n + 1 && Long(paths[i])
        ensures Tail(paths[i]) in more && exists e: (seq<Path>, nat) :: e in more[Tail(paths[i])] && e.1 == i
      {
        if i == n {
          assert (items[..|items| - 1], n) in more[key];
        }
      }
    }
  }

  lemma {:induction false} GroupFits(paths: seq<Path>, n: nat, key: Path, es: seq<(seq<Path>, nat)>)
    requires n <= |paths| && IsGroup(paths, n, key, es)
    ensures Width(Whole(es, key)) <= Width(paths[..n])
    decreases |es|
  {
    var last := es[|es| - 1];
    var before := es[..|es| - 1];
    var m := last.1;
    assert last in es;
    assert paths[..n] == paths[..m] + [paths[m]] + paths[m + 1..n];
    WidthConcat(paths[..m] + [paths[m]], paths[m + 1..n]);
    WidthConcat(paths[..m], [paths[m]]);
    assert Whole(es, key) == Whole(before, key) + [paths[m]];
    WidthConcat(Whole(before, key), [paths[m]]);
    if before != [] {
      assert forall i :: 0 <= i < |before| ==> before[i].1 < m;
      GroupFits(paths, m, key, before);
    }
  }

  // ----- Removing positions from the list of paths still to be copied

  ghost predicate Positions(paths: seq<Path>, index: seq<nat>) {
    && (forall i :: i in index ==> i < |paths|)
    && Increasing(index)
  }

  function Removed(index: seq<nat>, num: nat): seq<nat>
    requires num in index
  {
    if index[0] == num then index[1..] else [index[0]] + Removed(index[1..], num)
  }

  lemma {:induction false} RemovedPosition(paths: seq<Path>, index: seq<nat>, num: nat)
    requires Positions(paths, index) && num in index
    ensures Positions(paths, Removed(index, num))
    ensures forall i :: i in Removed(index, num) <==> i in index && i != num
    ensures multiset(At(paths, index)) == multiset{paths[num]} + multiset(At(paths, Removed(index, num)))
  {
    RemovedIncreasing(index, num);
    RemovedAt(paths, index, num);
  }

  lemma {:induction false} RemovedIncreasing(index: seq<nat>, num: nat)
    requires Increasing(index) && num in index
    ensures Increasing(Removed(index, num))
    ensures forall i :: i in Removed(index, num) <==> i in index && i != num
  {
    var first, tail := index[0], index[1..];
    FirstIsLeast(index);
    if first != num {
      RemovedIncreasing(tail, num);
      FirstPut(first, Removed(tail, num));
    }
  }

  lemma FirstIsLeast(index: seq<nat>)
    requires Increasing(index) && index != []
    ensures Increasing(index[1..]) && forall i :: i in index[1..] ==> index[0] < i
    ensures forall i :: i in index <==> i == index[0] || i in index[1..]
  {
    assert index == [index[0]] + index[1..];
  }

  lemma FirstPut(first: nat, rest: seq<nat>)
    requires Increasing(rest) && forall i :: i in rest ==> first < i
    ensures Increasing([first] + rest) && forall i :: i in [first] + rest <==> i == first || i in rest
  {
    assert forall k :: 0 <= k < |rest| ==> rest[k] in rest;
  }

  lemma {:induction false} RemovedAt(paths: seq<Path>, index: seq<nat>, num: nat)
    requires (forall i :: i in index ==> i < |paths|) && num in index
    ensures forall i :: i in Removed(index, num) ==> i in index
    ensures multiset(At(paths, index)) == multiset{paths[num]} + multiset(At(paths, Removed(index, num)))
  {
    var tail := index[1..];
    assert index == [index[0]] + tail && index[0] in index && forall i :: i in tail ==> i in index;
    assert At(paths, index) == [paths[index[0]]] + At(paths, tail);
    if index[0] != num {
      RemovedAt(paths, tail, num);
      var rest := Removed(tail, num);
      assert At(paths, [index[0]] + rest) == [paths[index[0]]] + At(paths, rest);
    }
  }

  /** The first `m` members of a group have been removed from the positions in `index`. */
  ghost predicate Removing(paths: seq<Path>, index: seq<nat>, left: seq<nat>, key: Path,
                           es: seq<(seq<Path>, nat)>, m: nat)
    requires Positions(paths, index) && m <= |es|
  {
    && Positions(paths, left)
    && (forall i :: i in left <==> i in index && forall e :: e in es[..m] ==> e.1 != i)
    && multiset(At(paths, index)) == multiset(Whole(es[..m], key)) + multiset(At(paths, left))
  }

  lemma MemberRemoved(paths: seq<Path>, index: seq<nat>, left: seq<nat>, key: Path,
                      es: seq<(seq<Path>, nat)>, m: nat)
    requires IsGroup(paths, |paths|, key, es) && Positions(paths, index)
    requires m < |es| && es[m].1 in index && Removing(paths, index, left, key, es, m)
    ensures es[m].1 in left
    ensures Removing(paths, index, Removed(left, es[m].1), key, es, m + 1)
  {
    MemberLeft(index, left, es, m);
    RemovedPosition(paths, left, es[m].1);
    MemberLast(es, m);
    MemberMoved(paths, left, key, es, m);
    var left' := Removed(left, es[m].1);
    assert multiset(At(paths, index)) == multiset(Whole(es[..m + 1], key)) + multiset(At(paths, left'));
  }

  lemma MemberLast(es: seq<(seq<Path>, nat)>, m: nat)
    requires m < |es|
    ensures forall e :: e in es[..m + 1] <==> e in es[..m] || e == es[m]
  {
    assert es[..m + 1] == es[..m] + [es[m]];
  }

  /** The next member has not been removed yet. */
  lemma MemberLeft(index: seq<nat>, left: seq<nat>, es: seq<(seq<Path>, nat)>, m: nat)
    requires m < |es| && es[m].1 in index && (forall i, j :: 0 <= i < j < |es| ==> es[i].1 != es[j].1)
    requires forall i :: i in left <==> i in index && forall e :: e in es[..m] ==> e.1 != i
    ensures es[m].1 in left
  {
  }

  lemma MemberMoved(paths: seq<Path>, left: seq<nat>, key: Path, es: seq<(seq<Path>, nat)>, m: nat)
    requires IsGroup(paths, |paths|, key, es) && m < |es|
    ensures multiset(Whole(es[..m + 1], key)) == multiset(Whole(es[..m], key)) + multiset{paths[es[m].1]}
  {
    assert es[m] in es;
    assert es[..m + 1] == es[..m] + [es[m]];
    assert Whole(es[..m + 1], key) == Whole(es[..m], key) + [paths[es[m].1]];
  }

  method RemoveMembers(paths: seq<Path>, index: seq<nat>, key: Path, es: seq<(seq<Path>, nat)>)
    returns (left: seq<nat>)
    requires IsGroup(paths, |paths|, key, es) && Positions(paths, index)
    requires forall e :: e in es ==> e.1 in index
    ensures Removing(paths, index, left, key, es, |es|)
  {
    left := index;
    for m := 0 to |es|
      invariant Removing(paths, index, left, key, es, m)
    {
      assert es[m] in es;
      MemberRemoved(paths, index, left, key, es, m);
      left := Removed(left, es[m].1);
    }
  }

  // ----- The merged path of a group

  lemma MergedPath(common: seq<Path>, es: seq<(seq<Path>, nat)>, key: Path)
    requires common != [] && es != [] && forall e :: e in es ==> e.0 != []
    requires forall s: Store :: AnyTrue(common, s) == AnyTrue(Prefixes(es), s)
    requires AllLeaves(common) <= AllLeaves(Prefixes(es))
    ensures Long(Merged(common, key)) && Tail(Merged(common, key)) == key
    ensures forall s: Store :: AnyTrue([Merged(common, key)], s) == AnyTrue(Whole(es, key), s)
    ensures AllLeaves([Merged(common, key)]) <= AllLeaves(Whole(es, key))
  {
    var merged := Merged(common, key);
    forall s: Store
      ensures AnyTrue([merged], s) == AnyTrue(Whole(es, key), s)
    {
      GroupMeaning(es, key, s);
      SeriesTruth(merged.items, s);
      ParallelTruth(common, s);
      assert merged in [merged];
      if |common| > 1 {
        assert forall q :: q in [Parallel(common), key] <==> q == Parallel(common) || q == key;
      } else {
        assert common == [common[0]];
        assert forall q :: q in common + [key] <==> q == common[0] || q == key;
      }
    }
    GroupLeaves(es, key);
    LeavesConcat(common, [key]);
    assert AllLeaves([Parallel(common), key]) == AllLeaves(common) + Leaves(key) by {
      LeavesConcat([Parallel(common)], [key]);
      assert [Parallel(common), key] == [Parallel(common)] + [key];
    }
  }

  // ----- Merging group by group

  /** Which positions are still to be copied, and which suffixes the factorized paths already use. */
  ghost predicate Shape(paths: seq<Path>, groups: Groups, keys: set<Path>, factorized: seq<Path>, index: seq<nat>) {
    && Grouped(paths, |paths|, groups) && keys <= groups.Keys
    && Positions(paths, index)
    && (forall i :: 0 <= i < |paths| && Long(paths[i]) ==>
          (i in index <==> Tail(paths[i]) in keys || |groups[Tail(paths[i])]| == 1))
    && (forall i :: 0 <= i < |paths| && !Long(paths[i]) ==> (i in index <==> paths[i].Series?))
    && (forall p :: p in factorized && Long(p) ==> Tail(p) in groups.Keys - keys && |groups[Tail(p)]| > 1)
    && DistinctTails(multiset(factorized))
  }

  /** What the factorized paths and the ones still to be copied denote together. */
  ghost predicate Content(paths: seq<Path>, all: seq<Path>) {
    && (forall s: Store :: AnyTrue(all, s) == AnyTrue(paths, s))
    && AllLeaves(all) <= AllLeaves(paths)
    && (DistinctTails(multiset(paths)) ==> multiset(all) == multiset(paths))
    && (AllDisjoinable(paths) ==> AllDisjoinable(all))
    && (paths != [] ==> all != [])
    && (|paths| > 1 && |all| == 1 ==> Long(all[0]))
  }

  lemma TwiceIn(s: seq<Path>, i: nat, j: nat)
    requires i < j < |s| && s[i] == s[j]
    ensures multiset(s)[s[i]] > 1
  {
    assert s == s[..j] + s[j..];
    assert s[i] in s[..j] && s[j] in s[j..];
  }

  lemma {:induction false} OnceIn(s: seq<Path>, p: Path)
    requires p in s && forall i, j :: 0 <= i < j < |s| ==> s[i] != p || s[j] != p
    ensures multiset(s)[p] == 1
  {
    var i :| 0 <= i < |s| && s[i] == p;
    assert s == s[..i] + [p] + s[i + 1..];
    assert p !in s[..i] && p !in s[i + 1..];
  }

  /** A group of two or more paths contradicts distinct tails. */
  lemma BigGroup(paths: seq<Path>, key: Path, es: seq<(seq<Path>, nat)>)
    requires IsGroup(paths, |paths|, key, es) && |es| > 1
    ensures !DistinctTails(multiset(paths))
  {
    var i, j := es[0].1, es[1].1;
    assert es[0] in es && es[1] in es;
    assert paths[i] in multiset(paths) && paths[j] in multiset(paths);
    if paths[i] == paths[j] {
      TwiceIn(paths, i, j);
    }
  }

  lemma MergeShape(paths: seq<Path>, groups: Groups, keys: set<Path>, factorized: seq<Path>, index: seq<nat>,
                   key: Path, common: seq<Path>, left: seq<nat>)
    requires Shape(paths, groups, keys, factorized, index) && key in keys && |groups[key]| > 1
    requires common != [] && Removing(paths, index, left, key, groups[key], |groups[key]|)
    ensures Shape(paths, groups, keys - {key}, factorized + [Merged(common, key)], left)
  {
    var merged := Merged(common, key);
    assert Tail(merged) == key;
    assert groups[key][..|groups[key]|] == groups[key];
    forall i | 0 <= i < |paths| && Long(paths[i])
      ensures i in left <==> Tail(paths[i]) in keys - {key} || |groups[Tail(paths[i])]| == 1
    {
      assert IsGroup(paths, |paths|, key, groups[key]);
      if Tail(paths[i]) == key {
        var e: (seq<Path>, nat) :| e in groups[key] && e.1 == i;
      }
    }
    assert multiset(factorized + [merged]) == multiset(factorized) + multiset{merged};
    assert forall p :: p in multiset(factorized) <==> p in factorized;
  }

  lemma AnyBetween(a: seq<Path>, b: seq<Path>, c: seq<Path>, s: Store)
    ensures AnyTrue(a + b + c, s) == (AnyTrue(a, s) || AnyTrue(b, s) || AnyTrue(c, s))
  {
    AnyConcat(a + b, c, s);
    AnyConcat(a, b, s);
  }

  lemma LeavesBetween(a: seq<Path>, b: seq<Path>, c: seq<Path>)
    ensures AllLeaves(a + b + c) == AllLeaves(a) + AllLeaves(b) + AllLeaves(c)
  {
    LeavesConcat(a + b, c);
    LeavesConcat(a, b);
  }

  lemma MergeContent(paths: seq<Path>, factorized: seq<Path>, index: seq<nat>, key: Path,
                     es: seq<(seq<Path>, nat)>, common: seq<Path>, left: seq<nat>)
    requires Positions(paths, index) && Removing(paths, index, left, key, es, |es|)
    requires Content(paths, factorized + At(paths, index))
    requires IsGroup(paths, |paths|, key, es) && |es| > 1 && common != []
    requires forall s: Store :: AnyTrue(common, s) == AnyTrue(Prefixes(es), s)
    requires AllLeaves(common) <= AllLeaves(Prefixes(es))
    requires AllDisjoinable(Prefixes(es)) ==> AllDisjoinable(common)
    requires |common| == 1 ==> Long(common[0])
    ensures Content(paths, factorized + [Merged(common, key)] + At(paths, left))
  {
    SpreadContent(paths, factorized, index, key, es, left);
    MergedPath(common, es, key);
    BigGroup(paths, key, es);
    if AllDisjoinable(paths) {
      MergedDisjoinable(paths, es, key, common);
    }
    ReplacedContent(paths, factorized, Whole(es, key), Merged(common, key), At(paths, left));
  }

  /** The members of the group can be put together. */
  lemma SpreadContent(paths: seq<Path>, factorized: seq<Path>, index: seq<nat>, key: Path,
                      es: seq<(seq<Path>, nat)>, left: seq<nat>)
    requires Positions(paths, index) && Removing(paths, index, left, key, es, |es|)
    requires Content(paths, factorized + At(paths, index))
    ensures Content(paths, factorized + Whole(es, key) + At(paths, left))
  {
    assert es[..|es|] == es;
    ContentPermute(paths, factorized + At(paths, index), factorized + Whole(es, key) + At(paths, left));
  }

  /** One path can take the place of several. */
  lemma ReplacedContent(paths: seq<Path>, front: seq<Path>, these: seq<Path>, merged: Path, back: seq<Path>)
    requires Content(paths, front + these + back) && !DistinctTails(multiset(paths)) && Long(merged)
    requires forall s: Store :: AnyTrue([merged], s) == AnyTrue(these, s)
    requires AllLeaves([merged]) <= AllLeaves(these)
    requires AllDisjoinable(paths) ==> Disjoinable(merged)
    ensures Content(paths, front + [merged] + back)
  {
    ReplacedMeaning(front, these, [merged], back);
    LeavesBetween(front, these, back);
    LeavesBetween(front, [merged], back);
    assert forall q :: q in front + [merged] + back ==> q in front + these + back || q == merged;
    assert (front + [merged] + back)[|front|] == merged;
  }

  /** What is put in the place of some paths may have their meaning. */
  lemma ReplacedMeaning(front: seq<Path>, these: seq<Path>, those: seq<Path>, back: seq<Path>)
    requires forall s: Store :: AnyTrue(those, s) == AnyTrue(these, s)
    ensures forall s: Store :: AnyTrue(front + those + back, s) == AnyTrue(front + these + back, s)
  {
    forall s: Store
      ensures AnyTrue(front + those + back, s) == AnyTrue(front + these + back, s)
    {
      AnyBetween(front, these, back, s);
      AnyBetween(front, those, back, s);
    }
  }

  lemma MergedDisjoinable(paths: seq<Path>, es: seq<(seq<Path>, nat)>, key: Path, common: seq<Path>)
    requires IsGroup(paths, |paths|, key, es) && AllDisjoinable(paths) && common != []
    requires AllDisjoinable(Prefixes(es)) ==> AllDisjoinable(common)
    requires |common| == 1 ==> Long(common[0])
    ensures Disjoinable(Merged(common, key))
  {
    forall i | 0 <= i < |es|
      ensures Disjoinable(Series(es[i].0)) && Conjoinable(key)
    {
      assert es[i] in es;
      PrefixConjoinable(es[i].0, key);
    }
    assert Conjoinable(key) by { assert Disjoinable(Series(es[0].0)); }
    assert AllDisjoinable(Prefixes(es));
    if |common| > 1 {
      assert Conjoinable(Parallel(common));
    } else {
      assert common[0] in common && Disjoinable(common[0]) && Conjoinable(common[0]);
      assert common + [key] == [common[0], key];
    }
  }

  /** The elements of a list of more than one are factors. */
  lemma PrefixConjoinable(items: seq<Path>, key: Path)
    requires items != [] && Disjoinable(Series(items + [key]))
    ensures Conjoinable(Series(items)) && Disjoinable(Series(items)) && Conjoinable(key)
  {
    assert forall q :: q in items + [key] <==> q in items || q == key;
    ConjoinableIsDisjoinable(Series(items));
  }

  /** When every group was looked at, at most one path per suffix is left. */
  lemma FinalTails(paths: seq<Path>, groups: Groups, factorized: seq<Path>, index: seq<nat>)
    requires Shape(paths, groups, {}, factorized, index)
    ensures DistinctTails(multiset(factorized + At(paths, index)))
  {
    var copied := At(paths, index);
    var all := factorized + copied;
    assert multiset(all) == multiset(factorized) + multiset(copied);
    assert forall p :: p in multiset(factorized) <==> p in factorized;
    assert forall p :: p in multiset(copied) <==> p in copied;
    CopiedTails(paths, groups, index);
  }

  lemma CopiedTails(paths: seq<Path>, groups: Groups, index: seq<nat>)
    requires Grouped(paths, |paths|, groups) && Positions(paths, index)
    requires forall i :: 0 <= i < |paths| && Long(paths[i]) ==> (i in index <==> |groups[Tail(paths[i])]| == 1)
    ensures var copied := At(paths, index);
            && (forall p, q :: p in copied && q in copied && Long(p) && Long(q) && Tail(p) == Tail(q) ==>
                  p == q && Tail(p) in groups && |groups[Tail(p)]| == 1)
            && (forall p :: p in copied && Long(p) ==> multiset(copied)[p] == 1)
  {
    var copied := At(paths, index);
    forall p, q | p in copied && q in copied && Long(p) && Long(q) && Tail(p) == Tail(q)
      ensures p == q && Tail(p) in groups && |groups[Tail(p)]| == 1
    {
      var k :| 0 <= k < |copied| && copied[k] == p;
      var l :| 0 <= l < |copied| && copied[l] == q;
      SameGroup(paths, groups, index, k, l);
    }
    forall p | p in copied && Long(p)
      ensures multiset(copied)[p] == 1
    {
      CopiedOnce(paths, groups, index, p);
    }
  }

  lemma CopiedOnce(paths: seq<Path>, groups: Groups, index: seq<nat>, p: Path)
    requires Grouped(paths, |paths|, groups) && Positions(paths, index)
    requires forall i :: 0 <= i < |paths| && Long(paths[i]) ==> (i in index <==> |groups[Tail(paths[i])]| == 1)
    requires p in At(paths, index) && Long(p)
    ensures multiset(At(paths, index))[p] == 1
  {
    var copied := At(paths, index);
    forall k, l | 0 <= k < l < |copied|
      ensures copied[k] != p || copied[l] != p
    {
      if copied[k] == p && copied[l] == p {
        SameGroup(paths, groups, index, k, l);
      }
    }
    OnceIn(copied, p);
  }

  lemma SameGroup(paths: seq<Path>, groups: Groups, index: seq<nat>, k: nat, l: nat)
    requires Grouped(paths, |paths|, groups) && Positions(paths, index)
    requires k < |index| && l < |index| && index[k] in index && index[l] in index
    requires forall i :: 0 <= i < |paths| && Long(paths[i]) ==> (i in index <==> |groups[Tail(paths[i])]| == 1)
    requires var p, q := paths[index[k]], paths[index[l]]; Long(p) && Long(q) && Tail(p) == Tail(q)
    ensures k == l && |groups[Tail(paths[index[k]])]| == 1
  {
    var i, j := index[k], index[l];
    assert i in index && j in index;
    var es := groups[Tail(paths[i])];
    var e: (seq<Path>, nat) :| e in es && e.1 == i;
    var f: (seq<Path>, nat) :| f in es && f.1 == j;
    assert es == [es[0]];
  }

  /** Two paths that the sort compares in vain. */
  datatype SortFault = CannotCompare(p: Path, q: Path)

  /** The sort at the end. Every sort that compares elements raises in the same cases and gives the same result. */
  method Reorder(ps: seq<Path>, before: Before) returns (r: Result<seq<Path>, SortFault>)
    ensures r.Err? <==> !AllComparable(ps)
    ensures r.Err? ==> r.error.p in ps && r.error.q in ps && !Comparable(r.error.p, r.error.q)
    ensures r.Ok? ==> r.value == Sorted(ps, before)
  {
    if i, j :| 0 <= i < j < |ps| && !Comparable(ps[i], ps[j]) {
      return Err(CannotCompare(ps[i], ps[j]));
    }
    return Ok(Sorted(ps, before));
  }

  // ----- The table holds the members

  function MembersIn(groups: Groups, key: Path): seq<Path> {
    if key in groups then Prefixes(groups[key]) else []
  }

  /** The groups, in the order in which they were begun, hold the members of their elements. */
  ghost predicate Tabled(paths: seq<Path>, groups: Groups, order: seq<Path>) {
    && order == KeysOf(paths) && (forall key :: key in groups <==> key in order)
    && (forall i, j :: 0 <= i < j < |order| ==> order[i] != order[j])
    && forall key :: MembersIn(groups, key) == Members(paths, key)
  }

  lemma TableGrows(paths: seq<Path>, groups: Groups, order: seq<Path>, p: Path)
    requires Tabled(paths, groups, order)
    ensures !Long(p) ==> Tabled(paths + [p], groups, order)
    ensures Long(p) ==> Tabled(paths + [p], AddToGroup(groups, p.items, |paths|),
                               if Tail(p) in groups then order else order + [Tail(p)])
  {
    KeysGrow(paths, order, p);
    AllMembersGrow(paths, groups, p);
    if Long(p) && Tail(p) !in groups {
      OrderGrows(order, Tail(p));
    }
  }

  lemma OrderGrows(order: seq<Path>, key: Path)
    requires key !in order && forall i, j :: 0 <= i < j < |order| ==> order[i] != order[j]
    ensures var more := order + [key]; forall i, j :: 0 <= i < j < |more| ==> more[i] != more[j]
    ensures forall k :: k in order + [key] <==> k in order || k == key
  {
  }

  lemma AllMembersGrow(paths: seq<Path>, groups: Groups, p: Path)
    requires forall key :: MembersIn(groups, key) == Members(paths, key)
    ensures var more := if Long(p) then AddToGroup(groups, p.items, |paths|) else groups;
            forall key :: MembersIn(more, key) == Members(paths + [p], key)
  {
    forall key
      ensures MembersIn(if Long(p) then AddToGroup(groups, p.items, |paths|) else groups, key)
           == Members(paths + [p], key)
    {
      MembersGrow(paths, groups, p, key);
    }
  }

  lemma KeysGrow(paths: seq<Path>, order: seq<Path>, p: Path)
    requires order == KeysOf(paths)
    ensures KeysOf(paths + [p]) == if Long(p) && Tail(p) !in order then order + [Tail(p)] else order
  {
    assert (paths + [p])[..|paths|] == paths;
  }

  lemma MembersGrow(paths: seq<Path>, groups: Groups, p: Path, key: Path)
    requires MembersIn(groups, key) == Members(paths, key)
    ensures MembersIn(if Long(p) then AddToGroup(groups, p.items, |paths|) else groups, key)
           == Members(paths + [p], key)
  {
    assert (paths + [p])[..|paths|] == paths;
    if Long(p) && Tail(p) == key {
      PrefixAdded(groups, p, |paths|);
    }
  }

  lemma PrefixAdded(groups: Groups, p: Path, num: nat)
    requires Long(p)
    ensures MembersIn(AddToGroup(groups, p.items, num), Tail(p))
         == MembersIn(groups, Tail(p)) + [Series(p.items[..|p.items| - 1])]
  {
    var es := if Tail(p) in groups then groups[Tail(p)] else [];
    var items := p.items[..|p.items| - 1];
    assert Prefixes(es) == MembersIn(groups, Tail(p));
    assert Prefixes(es + [(items, num)]) == Prefixes(es) + [Series(items)];
  }

  /** Positions in ascending order are determined by which they are. */
  lemma {:induction false} SamePositions(a: seq<nat>, b: seq<nat>)
    requires Increasing(a) && Increasing(b) && forall i :: i in a <==> i in b
    ensures a == b
    decreases |a|
  {
    assert b != [] ==> b[0] in b;
    if a == [] {
      return;
    }
    assert a[0] in b;
    var m, n := |a| - 1, |b| - 1;
    assert a[m] in b && b[n] in a;
    assert a[m] == b[n];
    LastApart(a);
    LastApart(b);
    forall i
      ensures i in a[..m] <==> i in b[..n]
    {
      assert i in a <==> i in b;
    }
    SamePositions(a[..m], b[..n]);
    assert a == a[..m] + [a[m]] && b == b[..n] + [b[n]];
  }

  lemma LastApart(a: seq<nat>)
    requires a != [] && Increasing(a)
    ensures Increasing(a[..|a| - 1]) && forall i :: i in a[..|a| - 1] <==> i in a && i != a[|a| - 1]
  {
    assert a == a[..|a| - 1] + [a[|a| - 1]];
  }

  /** When every group was looked at, the paths still to be copied are those that are not merged. */
  lemma LeftAreSingles(paths: seq<Path>, groups: Groups, order: seq<Path>, factorized: seq<Path>, index: seq<nat>)
    requires Shape(paths, groups, {}, factorized, index) && Tabled(paths, groups, order)
    ensures At(paths, index) == Singles(paths)
  {
    SinglesBelow(paths, |paths|);
    forall i: nat | i < |paths|
      ensures i in index <==> Single(paths, paths[i])
    {
      if Long(paths[i]) {
        assert MembersIn(groups, Tail(paths[i])) == Members(paths, Tail(paths[i]));
      }
    }
    SamePositions(index, SinglePositions(paths, |paths|));
  }

  /** The first `num` paths were sorted: lists into groups, everything else into the result at once. */
  ghost predicate Collecting(paths: seq<Path>, num: nat, groups: Groups, factorized: seq<Path>, index: seq<nat>)
    requires num <= |paths|
  {
    && Grouped(paths, num, groups) && Positions(paths, index)
    && (forall i: nat :: i in index <==> i < |paths| && (i >= num || paths[i].Series?))
    && (forall p :: p in factorized ==> !p.Series?)
    && multiset(factorized) + multiset(At(paths, index)) == multiset(paths)
  }

  lemma CollectStart(paths: seq<Path>, index: seq<nat>)
    requires |index| == |paths| && forall i :: 0 <= i < |paths| ==> index[i] == i
    ensures Collecting(paths, 0, map[], [], index)
  {
    forall i: nat
      ensures i in index <==> i < |paths|
    {
      assert i < |paths| ==> index[i] == i;
    }
    assert At(paths, index) == paths;
  }

  lemma CollectOther(paths: seq<Path>, num: nat, groups: Groups, factorized: seq<Path>, index: seq<nat>)
    requires num < |paths| && Collecting(paths, num, groups, factorized, index) && !paths[num].Series?
    ensures Collecting(paths, num + 1, groups, factorized + [paths[num]], Removed(index, num))
  {
    GroupStep(paths, num, groups);
    RemovedPosition(paths, index, num);
  }

  method Collect(paths: seq<Path>) returns (groups: Groups, order: seq<Path>, factorized: seq<Path>, index: seq<nat>)
    ensures Shape(paths, groups, groups.Keys, factorized, index)
    ensures Content(paths, factorized + At(paths, index))
    ensures Tabled(paths, groups, order) && factorized == Others(paths)
  {
    groups, order := map[], [];
    index := seq(|paths|, i requires 0 <= i < |paths| => i);
    factorized := [];
    CollectStart(paths, index);
    for num := 0 to |paths|
      invariant Collecting(paths, num, groups, factorized, index)
      invariant Tabled(paths[..num], groups, order) && factorized == Others(paths[..num])
    {
      groups, order, factorized, index := CollectPath(paths, num, groups, order, factorized, index);
    }
    assert paths[..|paths|] == paths;
    CollectDone(paths, groups, factorized, index);
  }

  lemma CollectDone(paths: seq<Path>, groups: Groups, factorized: seq<Path>, index: seq<nat>)
    requires Collecting(paths, |paths|, groups, factorized, index)
    ensures Shape(paths, groups, groups.Keys, factorized, index) && Content(paths, factorized + At(paths, index))
  {
    StartContent(paths, factorized + At(paths, index));
  }

  /** One turn of the loop over the paths. */
  method CollectPath(paths: seq<Path>, num: nat, groups: Groups, order: seq<Path>, factorized: seq<Path>,
          index: seq<nat>)
    returns (groups': Groups, order': seq<Path>, factorized': seq<Path>, index': seq<nat>)
    requires num < |paths| && Collecting(paths, num, groups, factorized, index)
    requires Tabled(paths[..num], groups, order) && factorized == Others(paths[..num])
    ensures Collecting(paths, num + 1, groups', factorized', index')
    ensures Tabled(paths[..num + 1], groups', order') && factorized' == Others(paths[..num + 1])
  {
    groups', order', factorized', index' := groups, order, factorized, index;
    var p := paths[num];
    assert paths[..num + 1] == paths[..num] + [p];
    TableGrows(paths[..num], groups, order, p);
    OthersGrow(paths[..num], p);
    if p.Series? {
      GroupStep(paths, num, groups);
      if |p.items| > 1 {
        order' := if Tail(p) in groups then order else order + [Tail(p)];
        groups' := AddToGroup(groups, p.items, num);
      }
    } else {
      CollectOther(paths, num, groups, factorized, index);
      factorized' := factorized + [p];
      index' := Removed(index, num);
    }
  }

  lemma OthersGrow(paths: seq<Path>, p: Path)
    ensures Others(paths + [p]) == Others(paths) + if p.Series? then [] else [p]
  {
    assert (paths + [p])[..|paths|] == paths;
  }

  /** Copies the paths that were not merged. */
  method CopyRemaining(paths: seq<Path>, index: seq<nat>, factorized: seq<Path>) returns (all: seq<Path>)
    requires Positions(paths, index)
    ensures all == factorized + At(paths, index)
  {
    all := factorized;
    for k := 0 to |index|
      invariant all == factorized + At(paths, index)[..k]
    {
      assert index[k] in index;
      all := all + [paths[index[k]]];
    }
  }

  lemma GroupSmaller(paths: seq<Path>, groups: Groups, key: Path)
    requires Grouped(paths, |paths|, groups) && key in groups
    ensures Width(Prefixes(groups[key])) < Width(paths)
  {
    var es := groups[key];
    assert IsGroup(paths, |paths|, key, es);
    assert paths[..|paths|] == paths;
    GroupFits(paths, |paths|, key, es);
    GroupWidth(es, key);
  }

  /**
   Merges the paths of a connection list. The result is true in the same stores, has no more leaves, and
   its lists end in pairwise distinct elements; a list of paths that already do so is only reordered, so
   factorizing twice changes nothing but the order. It fails exactly when one of the sorts does.
   */
  method FactorizePaths(paths: seq<Path>, before: Before) returns (r: Result<seq<Path>, SortFault>)
    ensures r.Err? <==> !Sortable(paths, before)
    ensures r.Ok? ==> r.value == Factorized(paths, before) && Content(paths, r.value)
    ensures r.Ok? ==> DistinctTails(multiset(r.value))
    decreases Width(paths), 3
  {
    var groups, order, factorized, index := Collect(paths);
    SortableWhen(paths, before);
    var next :- FactorizeGroups(paths, groups, order, factorized, index, before);
    r := SortRest(paths, groups, order, next.0, next.1, before);
  }

  /** The loop over the groups. */
  method FactorizeGroups(paths: seq<Path>, groups: Groups, order: seq<Path>, start: seq<Path>, startIndex: seq<nat>,
          before: Before)
    returns (r: Result<(seq<Path>, seq<nat>), SortFault>)
    requires Tabled(paths, groups, order) && Progress(paths, groups, groups.Keys, start, startIndex)
    requires start == Others(paths)
    ensures r.Err? <==> !GroupsSortable(paths, order, before)
    ensures r.Ok? ==> Progress(paths, groups, {}, r.value.0, r.value.1)
    ensures r.Ok? ==> r.value.0 == MergedSoFar(paths, order, before)
    decreases Width(paths), 2
  {
    var factorized, index := start, startIndex;
    AllLater(paths, groups, order);
    NothingMerged(paths, order, before);
    for k := 0 to |order|
      invariant Progress(paths, groups, Later(order, k), factorized, index)
      invariant factorized == MergedSoFar(paths, order[..k], before)
      invariant GroupsSortable(paths, order[..k], before)
    {
      var next :- FactorizeTurn(paths, groups, order, k, factorized, index, before);
      factorized, index := next.0, next.1;
    }
    assert order[..|order|] == order;
    return Ok((factorized, index));
  }

  /** What holds between two turns of the loop over the groups. */
  ghost predicate Progress(paths: seq<Path>, groups: Groups, keys: set<Path>, factorized: seq<Path>, index: seq<nat>) {
    Shape(paths, groups, keys, factorized, index) && Content(paths, factorized + At(paths, index))
  }

  /** One turn of that loop. */
  method FactorizeTurn(paths: seq<Path>, groups: Groups, order: seq<Path>, k: nat, factorized: seq<Path>,
          index: seq<nat>, before: Before)
    returns (r: Result<(seq<Path>, seq<nat>), SortFault>)
    requires k < |order| && Tabled(paths, groups, order)
    requires Progress(paths, groups, Later(order, k), factorized, index)
    requires factorized == MergedSoFar(paths, order[..k], before) && GroupsSortable(paths, order[..k], before)
    ensures r.Err? ==> !GroupsSortable(paths, order, before)
    ensures r.Ok? ==> Progress(paths, groups, Later(order, k + 1), r.value.0, r.value.1)
    ensures r.Ok? ==> r.value.0 == MergedSoFar(paths, order[..k + 1], before)
    ensures r.Ok? ==> GroupsSortable(paths, order[..k + 1], before)
    decreases Width(paths), 1
  {
    NextKey(paths, groups, order, k);
    NextMerged(paths, order, k, before);
    NextSortable(paths, order, k, before);
    r := FactorizeGroup(paths, groups, Later(order, k), order[k], factorized, index, before);
  }

  /** A group of several paths is factorized and merged. */
  method FactorizeGroup(paths: seq<Path>, groups: Groups, ghost keys: set<Path>, key: Path, factorized: seq<Path>,
          index: seq<nat>, before: Before)
    returns (r: Result<(seq<Path>, seq<nat>), SortFault>)
    requires Progress(paths, groups, keys, factorized, index) && key in keys
    requires Prefixes(groups[key]) == Members(paths, key) != []
    ensures r.Err? <==> !GroupsSortable(paths, [key], before)
    ensures r.Ok? ==> Progress(paths, groups, keys - {key}, r.value.0, r.value.1)
    ensures r.Ok? ==> r.value.0 == factorized + MergedGroup(paths, key, before)
    decreases Width(paths), 0
  {
    OneGroup(paths, key, before);
    if |groups[key]| == 1 {
      LoneGroup(paths, groups, keys, factorized, index, key);
      return Ok((factorized, index));
    }
    GroupSmaller(paths, groups, key);
    var common :- FactorizePaths(Prefixes(groups[key]), before);
    var factorized', left := MergeGroup(paths, groups, keys, factorized, index, key, common);
    return Ok((factorized', left));
  }

  lemma OneGroup(paths: seq<Path>, key: Path, before: Before)
    ensures GroupsSortable(paths, [key], before) <==>
            (|Members(paths, key)| > 1 ==> Sortable(Members(paths, key), before))
    ensures MergedGroup(paths, key, before)
         == if |Members(paths, key)| > 1 then [Merged(Factorized(Members(paths, key), before), key)] else []
  {
  }

  /** A group of one path is left where it is. */
  lemma LoneGroup(paths: seq<Path>, groups: Groups, keys: set<Path>, factorized: seq<Path>, index: seq<nat>, key: Path)
    requires Shape(paths, groups, keys, factorized, index) && key in keys && |groups[key]| == 1
    ensures Shape(paths, groups, keys - {key}, factorized, index)
  {
  }

  /** The elements from the `k`-th on. */
  ghost function Later(order: seq<Path>, k: nat): set<Path>
    requires k <= |order|
  {
    set i | k <= i < |order| :: order[i]
  }

  ghost predicate GroupsSortable(paths: seq<Path>, keys: seq<Path>, before: Before) {
    forall key :: key in keys && |Members(paths, key)| > 1 ==> Sortable(Members(paths, key), before)
  }

  function MergedSoFar(paths: seq<Path>, keys: seq<Path>, before: Before): seq<Path> {
    Others(paths) + AllMerged(paths, keys, before)
  }

  lemma AllLater(paths: seq<Path>, groups: Groups, order: seq<Path>)
    requires Tabled(paths, groups, order)
    ensures Later(order, 0) == groups.Keys && Later(order, |order|) == {}
  {
    assert forall key :: key in order <==> key in Later(order, 0);
  }

  lemma SortableWhen(paths: seq<Path>, before: Before)
    ensures Sortable(paths, before) <==>
            GroupsSortable(paths, KeysOf(paths), before) && AllComparable(Unsorted(paths, before))
  {
  }

  lemma NothingMerged(paths: seq<Path>, order: seq<Path>, before: Before)
    ensures order[..0] == [] && MergedSoFar(paths, [], before) == Others(paths) && GroupsSortable(paths, [], before)
  {
    assert AllMerged(paths, [], before) == [];
    assert Others(paths) + [] == Others(paths);
  }

  /** What the next turn of the loop has to add. */
  lemma NextKey(paths: seq<Path>, groups: Groups, order: seq<Path>, k: nat)
    requires Tabled(paths, groups, order) && k < |order|
    ensures order[k] in groups && order[k] in Later(order, k) && order[k] in order
    ensures Later(order, k + 1) == Later(order, k) - {order[k]}
    ensures Prefixes(groups[order[k]]) == Members(paths, order[k])
    ensures Grouped(paths, |paths|, groups) ==> Members(paths, order[k]) != []
  {
    assert MembersIn(groups, order[k]) == Members(paths, order[k]);
    NextLater(order, k);
  }

  lemma NextLater(order: seq<Path>, k: nat)
    requires k < |order| && forall i, j :: 0 <= i < j < |order| ==> order[i] != order[j]
    ensures order[k] in Later(order, k) && Later(order, k + 1) == Later(order, k) - {order[k]}
  {
  }

  lemma NextMerged(paths: seq<Path>, order: seq<Path>, k: nat, before: Before)
    requires k < |order|
    ensures MergedSoFar(paths, order[..k + 1], before)
         == MergedSoFar(paths, order[..k], before) + MergedGroup(paths, order[k], before)
  {
    assert order[..k + 1][..k] == order[..k] && order[..k + 1][k] == order[k];
    Associative(Others(paths), AllMerged(paths, order[..k], before), MergedGroup(paths, order[k], before));
  }

  lemma NextSortable(paths: seq<Path>, order: seq<Path>, k: nat, before: Before)
    requires k < |order|
    ensures GroupsSortable(paths, order[..k + 1], before) <==>
            GroupsSortable(paths, order[..k], before) && GroupsSortable(paths, [order[k]], before)
    ensures GroupsSortable(paths, order, before) ==> GroupsSortable(paths, [order[k]], before)
  {
    assert order[..k + 1] == order[..k] + [order[k]];
    assert forall key :: key in order[..k + 1] <==> key in order[..k] || key == order[k];
  }

  /** Copies the paths that were not merged and sorts all. */
  method SortRest(paths: seq<Path>, ghost groups: Groups, ghost order: seq<Path>, factorized: seq<Path>,
          index: seq<nat>, before: Before)
    returns (r: Result<seq<Path>, SortFault>)
    requires Shape(paths, groups, {}, factorized, index) && Content(paths, factorized + At(paths, index))
    requires Tabled(paths, groups, order) && factorized == MergedSoFar(paths, order, before)
    ensures r.Err? <==> !AllComparable(Unsorted(paths, before))
    ensures r.Ok? ==> r.value == Factorized(paths, before) && Content(paths, r.value)
    ensures r.Ok? ==> DistinctTails(multiset(r.value))
  {
    FinalTails(paths, groups, factorized, index);
    LeftAreSingles(paths, groups, order, factorized, index);
    var all := CopyRemaining(paths, index, factorized);
    r := Reorder(all, before);
    if r.Ok? {
      ContentPermute(paths, all, r.value);
    }
  }

  method MergeGroup(paths: seq<Path>, groups: Groups, ghost keys: set<Path>, factorized: seq<Path>, index: seq<nat>,
                    key: Path, common: seq<Path>)
    returns (factorized': seq<Path>, left: seq<nat>)
    requires Shape(paths, groups, keys, factorized, index) && key in keys && |groups[key]| > 1
    requires Content(paths, factorized + At(paths, index))
    requires common != [] && AllLeaves(common) <= AllLeaves(Prefixes(groups[key]))
    requires forall s: Store :: AnyTrue(common, s) == AnyTrue(Prefixes(groups[key]), s)
    requires AllDisjoinable(Prefixes(groups[key])) ==> AllDisjoinable(common)
    requires |common| == 1 ==> Long(common[0])
    ensures factorized' == factorized + [Merged(common, key)]
    ensures Shape(paths, groups, keys - {key}, factorized', left)
    ensures Content(paths, factorized' + At(paths, left))
  {
    GroupPresent(paths, groups, keys, factorized, index, key);
    left := RemoveMembers(paths, index, key, groups[key]);
    MergeShape(paths, groups, keys, factorized, index, key, common, left);
    MergeContent(paths, factorized, index, key, groups[key], common, left);
    factorized' := factorized + [Merged(common, key)];
  }

  lemma ContentPermute(paths: seq<Path>, all: seq<Path>, r: seq<Path>)
    requires Content(paths, all) && multiset(r) == multiset(all)
    ensures Content(paths, r)
  {
    AnyPermute(r, all);
    LeavesPermute(r, all);
    assert |multiset(r)| == |r| && |multiset(all)| == |all|;
    if |r| == 1 {
      assert r[0] in all;
    }
  }

  lemma StartContent(paths: seq<Path>, all: seq<Path>)
    requires multiset(all) == multiset(paths)
    ensures Content(paths, all)
  {
    AnyPermute(all, paths);
    LeavesPermute(all, paths);
    assert |multiset(all)| == |all| && |multiset(paths)| == |paths|;
  }

  lemma GroupPresent(paths: seq<Path>, groups: Groups, keys: set<Path>, factorized: seq<Path>, index: seq<nat>,
          key: Path)
    requires Shape(paths, groups, keys, factorized, index) && key in keys
    ensures IsGroup(paths, |paths|, key, groups[key]) && forall e :: e in groups[key] ==> e.1 in index
  {
    assert IsGroup(paths, |paths|, key, groups[key]);
  }

  // ----- Paths that have no common ends

  lemma {:induction false} MemberOf(paths: seq<Path>, i: nat)
    requires i < |paths| && Long(paths[i])
    ensures Members(paths, Tail(paths[i])) != []
    decreases |paths|
  {
    var front := paths[..|paths| - 1];
    if i < |front| {
      MemberOf(front, i);
    }
  }

  lemma {:induction false} SomeMember(paths: seq<Path>, key: Path) returns (i: nat)
    requires Members(paths, key) != []
    ensures i < |paths| && Long(paths[i]) && Tail(paths[i]) == key
  {
    var p := paths[|paths| - 1];
    if Long(p) && Tail(p) == key {
      return |paths| - 1;
    }
    i := SomeMember(paths[..|paths| - 1], key);
  }

  lemma {:induction false} TwoMembers(paths: seq<Path>, key: Path) returns (i: nat, j: nat)
    requires |Members(paths, key)| > 1
    ensures i < j < |paths| && Long(paths[i]) && Long(paths[j]) && Tail(paths[i]) == Tail(paths[j]) == key
  {
    var front, p := paths[..|paths| - 1], paths[|paths| - 1];
    if Long(p) && Tail(p) == key {
      i := SomeMember(front, key);
      return i, |paths| - 1;
    }
    i, j := TwoMembers(front, key);
  }

  lemma NoGroups(paths: seq<Path>, key: Path)
    requires DistinctTails(multiset(paths))
    ensures |Members(paths, key)| <= 1
  {
    if |Members(paths, key)| > 1 {
      var i, j := TwoMembers(paths, key);
      assert paths[i] in multiset(paths) && paths[j] in multiset(paths);
      TwiceIn(paths, i, j);
    }
  }

  lemma {:induction false} NothingToMerge(paths: seq<Path>, keys: seq<Path>, before: Before)
    requires forall key :: |Members(paths, key)| <= 1
    ensures AllMerged(paths, keys, before) == []
    decreases |keys|
  {
    if keys != [] {
      NothingToMerge(paths, keys[..|keys| - 1], before);
    }
  }

  function SinglesUpTo(paths: seq<Path>, n: nat): seq<Path>
    requires n <= |paths|
  {
    SinglesBelow(paths, n);
    At(paths, SinglePositions(paths, n))
  }

  lemma SinglesOneMore(paths: seq<Path>, n: nat)
    requires 0 < n <= |paths|
    ensures SinglesUpTo(paths, n)
         == SinglesUpTo(paths, n - 1) + if Single(paths, paths[n - 1]) then [paths[n - 1]] else []
  {
    SinglesBelow(paths, n);
    SinglesBelow(paths, n - 1);
    var index := SinglePositions(paths, n - 1);
    if Single(paths, paths[n - 1]) {
      assert SinglePositions(paths, n) == index + [n - 1];
    } else {
      assert SinglePositions(paths, n) == index;
    }
  }

  /** When every list is single, the others and the singles are all paths. */
  lemma {:induction false} AllKept(paths: seq<Path>, n: nat)
    requires n <= |paths| && forall p :: p in paths && p.Series? ==> Single(paths, p)
    ensures multiset(Others(paths[..n])) + multiset(SinglesUpTo(paths, n)) == multiset(paths[..n])
    decreases n
  {
    if n == 0 {
      return;
    }
    var front, p := paths[..n - 1], paths[n - 1];
    AllKept(paths, n - 1);
    assert paths[..n] == front + [p];
    OneMoreOfOthers(front, p);
    OneMoreSingle(paths, n);
    OneMoreKept(Others(front), SinglesUpTo(paths, n - 1), front, p, Others(front + [p]), SinglesUpTo(paths, n));
  }

  lemma OneMoreOfOthers(front: seq<Path>, p: Path)
    ensures Others(front + [p]) == if p.Series? then Others(front) else Others(front) + [p]
  {
    OthersGrow(front, p);
    NothingAppended(Others(front));
  }

  lemma OneMoreSingle(paths: seq<Path>, n: nat)
    requires 0 < n <= |paths| && forall p :: p in paths && p.Series? ==> Single(paths, p)
    ensures SinglesUpTo(paths, n)
         == if paths[n - 1].Series? then SinglesUpTo(paths, n - 1) + [paths[n - 1]] else SinglesUpTo(paths, n - 1)
  {
    assert paths[n - 1] in paths;
    SinglesOneMore(paths, n);
    NothingAppended(SinglesUpTo(paths, n - 1));
  }

  lemma OneMoreKept(a: seq<Path>, b: seq<Path>, all: seq<Path>, p: Path, a': seq<Path>, b': seq<Path>)
    requires multiset(a) + multiset(b) == multiset(all)
    requires (a' == a + [p] && b' == b) || (a' == a && b' == b + [p])
    ensures multiset(a') + multiset(b') == multiset(all + [p])
  {
  }

  lemma AllSingle(paths: seq<Path>)
    requires DistinctTails(multiset(paths))
    ensures forall p :: p in paths && p.Series? ==> Single(paths, p)
  {
    forall p | p in paths && p.Series?
      ensures Single(paths, p)
    {
      var i :| 0 <= i < |paths| && paths[i] == p;
      if Long(p) {
        MemberOf(paths, i);
        NoGroups(paths, Tail(p));
      }
    }
  }

  lemma UnmergedKept(paths: seq<Path>, before: Before)
    requires DistinctTails(multiset(paths))
    ensures multiset(Unsorted(paths, before)) == multiset(paths)
  {
    forall key
      ensures |Members(paths, key)| <= 1
    {
      NoGroups(paths, key);
    }
    NothingToMerge(paths, KeysOf(paths), before);
    AllSingle(paths);
    AllKept(paths, |paths|);
    assert paths[..|paths|] == paths;
  }

  /** Paths no two of which end in the same element can be factorized if and only if they can be compared. */
  lemma UnmergedSortable(paths: seq<Path>, before: Before)
    requires DistinctTails(multiset(paths))
    ensures Sortable(paths, before) <==> AllComparable(paths)
  {
    UnmergedKept(paths, before);
    ComparablePermute(Unsorted(paths, before), paths);
    SortableWhen(paths, before);
    forall key
      ensures |Members(paths, key)| <= 1
    {
      NoGroups(paths, key);
    }
  }
}
