/**
 Wired ORs that the generator cannot factorize: where the paths of the sources are of different kinds, or a rail is
 among them, the final sort raises an exception.
 */
module Rungs {
  import opened Sequences
  import opened Results
  import opened StText
  import opened Paths
  import opened PathOrder
  import opened Factorization
  import opened Networks
  import opened Emission
  import opened PathTexts
  import opened PouGenerator

  // ----- What is left of each kind

  lemma {:induction false} OthersKept(paths: seq<Path>, p: Path)
    requires !p.Series?
    ensures multiset(Others(paths))[p] == multiset(paths)[p]
    decreases |paths|
  {
    if paths != [] {
      OthersKept(paths[..|paths| - 1], p);
      assert paths == paths[..|paths| - 1] + [paths[|paths| - 1]];
    }
  }

  lemma {:induction false} MemberOf(paths: seq<Path>, p: Path)
    requires p in paths && Long(p)
    ensures Members(paths, Tail(p)) != [] && Tail(p) in KeysOf(paths)
    decreases |paths|
  {
    var front, last := paths[..|paths| - 1], paths[|paths| - 1];
    if p != last {
      assert paths == front + [last];
      MemberOf(front, p);
    }
  }

  lemma {:induction false} GroupMerged(paths: seq<Path>, keys: seq<Path>, key: Path, before: Before)
    requires key in keys && |Members(paths, key)| > 1
    ensures exists q :: q in AllMerged(paths, keys, before) && q.Series?
    decreases |keys|
  {
    var front, last := keys[..|keys| - 1], keys[|keys| - 1];
    if key != last {
      assert keys == front + [last];
      GroupMerged(paths, front, key, before);
    } else {
      assert MergedGroup(paths, key, before)[0] in AllMerged(paths, keys, before);
    }
  }

  lemma SinglesHold(paths: seq<Path>, p: Path)
    requires p in paths && Single(paths, p)
    ensures p in Singles(paths)
  {
    var i :| 0 <= i < |paths| && paths[i] == p;
    var index := SinglePositions(paths, |paths|);
    SinglesBelow(paths, |paths|);
    SinglesAt(paths);
    var k :| 0 <= k < |index| && index[k] == i;
    assert Singles(paths)[k] == p;
  }

  /** A path that is no list is left as it is; of the lists, some list is left. */
  lemma KindKept(paths: seq<Path>, p: Path, before: Before) returns (q: Path)
    requires p in paths
    ensures q in Unsorted(paths, before) && KindOf(q) == KindOf(p)
  {
    if !p.Series? {
      OthersKept(paths, p);
      q := p;
    } else if Single(paths, p) {
      SinglesHold(paths, p);
      q := p;
    } else {
      MemberOf(paths, p);
      GroupMerged(paths, KeysOf(paths), Tail(p), before);
      q :| q in AllMerged(paths, KeysOf(paths), before) && q.Series?;
    }
  }

  // ----- Paths that cannot be factorized

  /** A list, a tuple, a string and a rail do not go together. */
  lemma KindsDiffer(paths: seq<Path>, p: Path, q: Path, before: Before)
    requires p in paths && q in paths && KindOf(p) != KindOf(q)
    ensures !Sortable(paths, before)
  {
    var p' := KindKept(paths, p, before);
    var q' := KindKept(paths, q, before);
    NotComparable(Unsorted(paths, before), p', q');
    Stops(paths, before);
  }

  lemma NotComparable(ps: seq<Path>, p: Path, q: Path)
    requires p in ps && q in ps && KindOf(p) != KindOf(q)
    ensures !AllComparable(ps)
  {
    AllComparableWhen(ps);
    assert !Comparable(p, q);
  }

  lemma Stops(paths: seq<Path>, before: Before)
    requires !AllComparable(Unsorted(paths, before))
    ensures !Sortable(paths, before)
  {
  }

  /** A rail does not go with anything, not even with another rail. */
  lemma RailAmong(paths: seq<Path>, before: Before)
    requires Rail in paths && |paths| > 1
    ensures !Sortable(paths, before)
  {
    if q :| q in paths && q != Rail {
      KindsDiffer(paths, Rail, q, before);
    } else {
      assert paths[0] in paths && paths[1] in paths;
      TwoRails(paths, 0, 1);
      RailsLeft(paths, before);
    }
  }

  lemma RailsLeft(paths: seq<Path>, before: Before)
    requires multiset(paths)[Rail] > 1
    ensures !Sortable(paths, before)
  {
    OthersKept(paths, Rail);
    AllComparableWhen(Unsorted(paths, before));
    Stops(paths, before);
  }

  /** A connection that a rail is wired to together with anything else stops the generator. */
  lemma RailInWiredOr(body: Body, rank: nat -> nat, before: Before, links: seq<Link>, bound: nat, l: Link)
    requires Ranked(body, rank) && Below(body, rank, links, bound)
    requires l in links && l.ref in body && body[l.ref].LeftRail? && |Live(body, links)| > 1
    ensures !Joinable(body, rank, before, links, bound)
  {
    var live, paths := Live(body, links), PathsOf(body, rank, before, links, bound);
    assert l in live;
    var i :| 0 <= i < |live| && live[i] == l;
    assert paths[i] == PathOf(body, rank, before, l);
    RailAmong(paths, before);
  }

  // ----- X := A OR C AND B

  /** A coil that is wired to contact A, and to contact C behind contact B; A and B are at the rail. */
  const RUNG: Body :=
    map[0 := LeftRail,
        1 := Contact("A", false, [Link(0, 0)]),
        2 := Contact("B", false, [Link(0, 0)]),
        3 := Contact("C", false, [Link(2, 0)]),
        4 := Coil("X", false, [Link(1, 0), Link(3, 0)])]

  function RungRank(id: nat): nat {
    id
  }

  lemma RungPaths(rank: nat -> nat, top: nat, before: Before)
    requires Layered(RUNG, rank, top)
    ensures Live(RUNG, RUNG[4].links) == RUNG[4].links
    ensures PathOf(RUNG, rank, before, Link(1, 0)).Atom? && PathOf(RUNG, rank, before, Link(3, 0)).Series?
  {
    AtRail(rank, top, before, 1);
    AtRail(rank, top, before, 2);
    var behind := [Link(2, 0)];
    assert Live(RUNG, behind) == behind;
    assert PathsOf(RUNG, rank, before, behind, rank(3)) == [PathOf(RUNG, rank, before, Link(2, 0))];
    assert RUNG[4].links[1..] == [Link(3, 0)] && Live(RUNG, [Link(3, 0)]) == [Link(3, 0)];
  }

  lemma AtRail(rank: nat -> nat, top: nat, before: Before, id: nat)
    requires Layered(RUNG, rank, top) && id in {1, 2}
    ensures PathOf(RUNG, rank, before, Link(id, 0)).Atom?
  {
    var links := [Link(0, 0)];
    assert Live(RUNG, links) == links;
    assert PathsOf(RUNG, rank, before, links, rank(id)) == [Rail];
  }

  /** The network is a sound one, and yet the generator raises an exception for it: a string beside a list. */
  lemma RungFails(before: Before)
    ensures Layered(RUNG, RungRank, 5) && Acyclic(RUNG, RungRank) && Sound(RUNG, RungRank) && SeparateNames(RUNG)
    ensures !BodyFine(RUNG, RungRank, 5, before)
  {
    RungSound();
    RungPaths(RungRank, 5, before);
    RungUnsortable(RungRank, 5, before);
    assert IsSink(RUNG, 4);
  }

  lemma RungSound()
    ensures Layered(RUNG, RungRank, 5) && Acyclic(RUNG, RungRank) && Sound(RUNG, RungRank) && SeparateNames(RUNG)
  {
    RungLayered();
    RungRegular();
    RungNames();
    assert forall id :: !IsBlock(RUNG, id);
  }

  lemma RungLayered()
    ensures Layered(RUNG, RungRank, 5) && Acyclic(RUNG, RungRank)
  {
    RungLinks();
  }

  lemma RungRegular()
    requires Ranked(RUNG, RungRank)
    ensures Regular(RUNG, RungRank)
  {
    RungLinks();
    forall id, l | id in RUNG && HasLink(RUNG[id], l)
      ensures SingleCoil(RUNG, l)
    {
    }
    forall id | id in RUNG && RUNG[id].Contact?
      ensures Behind(RUNG, RungRank, RUNG[id].links)
    {
      RungContacts(id);
    }
  }

  lemma RungContacts(id: nat)
    requires Ranked(RUNG, RungRank) && id in RUNG && RUNG[id].Contact?
    ensures Behind(RUNG, RungRank, RUNG[id].links)
  {
    var l := Link(if id == 3 then 2 else 0, 0);
    assert RUNG[id].links == [l] && Live(RUNG, [l]) == [l];
  }

  lemma RungNames()
    ensures SeparateNames(RUNG)
  {
    assert forall id :: IsSink(RUNG, id) ==> id == 4 && RUNG[id].name == "X";
  }

  lemma RungLinks()
    ensures forall id, l :: id in RUNG && HasLink(RUNG[id], l) ==> l.ref < id && l.ref < 4
  {
  }

  lemma RungUnsortable(rank: nat -> nat, top: nat, before: Before)
    requires Layered(RUNG, rank, top)
    ensures !Joinable(RUNG, rank, before, RUNG[4].links, top)
  {
    RungPaths(rank, top, before);
    var paths := PathsOf(RUNG, rank, before, RUNG[4].links, top);
    KindsDiffer(paths, paths[0], paths[1], before);
  }
}
