/**
 What the configuration tree does with the located variables of a program: every node is given exactly those
 under its own location, children in the order of their channels.
 */
module ConfigLocations {
  import opened Sequences
  import opened ConfigTree

  // ----- Children in order

  function InsertByChannel(c: ConfigTreeNode, sorted: seq<ConfigTreeNode>): seq<ConfigTreeNode>
    reads {c} + set n | n in sorted
  {
    if sorted == [] || c.channel <= sorted[0].channel then [c] + sorted
    else [sorted[0]] + InsertByChannel(c, sorted[1..])
  }

  function IECSortedChildren(children: seq<ConfigTreeNode>): (r: seq<ConfigTreeNode>)
    reads children
    ensures forall i :: 0 <= i < |r| ==> r[i] in children
  {
    if children == [] then []
    else
      var rest := IECSortedChildren(children[1..]);
      InsertedFrom(children[0], rest);
      InsertByChannel(children[0], rest)
  }

  lemma {:induction false} InsertedFrom(c: ConfigTreeNode, sorted: seq<ConfigTreeNode>)
    ensures forall i :: 0 <= i < |InsertByChannel(c, sorted)| ==>
              InsertByChannel(c, sorted)[i] == c || InsertByChannel(c, sorted)[i] in sorted
    decreases |sorted|
  {
    if sorted != [] && c.channel > sorted[0].channel {
      InsertedFrom(c, sorted[1..]);
    }
  }

  lemma {:induction false} InsertedAmong(c: ConfigTreeNode, sorted: seq<ConfigTreeNode>)
    ensures multiset(InsertByChannel(c, sorted)) == multiset(sorted) + multiset{c}
    decreases |sorted|
  {
    if sorted != [] && c.channel > sorted[0].channel {
      InsertedAmong(c, sorted[1..]);
      HeadAndTail(sorted);
    }
  }

  ghost predicate Ascending(s: seq<ConfigTreeNode>)
    reads s
  {
    forall i, j :: 0 <= i < j < |s| ==> s[i].channel <= s[j].channel
  }

  lemma {:induction false} InsertedAscending(c: ConfigTreeNode, sorted: seq<ConfigTreeNode>)
    requires Ascending(sorted)
    ensures Ascending(InsertByChannel(c, sorted))
    decreases |sorted|
  {
    if sorted != [] && c.channel > sorted[0].channel {
      InsertedAscending(c, sorted[1..]);
      InsertedFrom(c, sorted[1..]);
      var tail := InsertByChannel(c, sorted[1..]);
      forall j | 0 <= j < |tail|
        ensures sorted[0].channel <= tail[j].channel
      {
        assert tail[j] in tail;
      }
    }
  }

  lemma {:induction false} SortedAscending(children: seq<ConfigTreeNode>)
    ensures Ascending(IECSortedChildren(children))
    decreases |children|
  {
    if children == [] {
      return;
    }
    SortedAscending(children[1..]);
    InsertedAscending(children[0], IECSortedChildren(children[1..]));
  }

  lemma {:induction false} SortedSame(children: seq<ConfigTreeNode>)
    ensures multiset(IECSortedChildren(children)) == multiset(children)
    decreases |children|
  {
    if children == [] {
      return;
    }
    SortedSame(children[1..]);
    InsertedAmong(children[0], IECSortedChildren(children[1..]));
    HeadAndTail(children);
  }

  /** The sorted children are the children, each once, in the order of their channels. */
  lemma ChildrenSorted(children: seq<ConfigTreeNode>)
    ensures Ascending(IECSortedChildren(children)) && multiset(IECSortedChildren(children)) == multiset(children)
  {
    SortedAscending(children);
    SortedSame(children);
  }

  // ----- Located variables

  datatype Located<V> = Located(loc: seq<int>, variable: V)

  /** Those whose location starts with the given one. */
  function Under<V>(locations: seq<Located<V>>, at: seq<int>): seq<Located<V>> {
    if locations == [] then []
    else
      var n := |locations| - 1;
      Under(locations[..n], at) + if at <= locations[n].loc then [locations[n]] else []
  }

  lemma {:induction false} UnderAll<V>(locations: seq<Located<V>>)
    ensures Under(locations, []) == locations
    decreases |locations|
  {
    if locations != [] {
      UnderAll(locations[..|locations| - 1]);
    }
  }

  /** They are kept with their multiplicity, and in their order. */
  lemma {:induction false} UnderExact<V>(locations: seq<Located<V>>, at: seq<int>, v: Located<V>)
    ensures multiset(Under(locations, at))[v] == if at <= v.loc then multiset(locations)[v] else 0
    decreases |locations|
  {
    if locations != [] {
      var n := |locations| - 1;
      UnderExact(locations[..n], at, v);
      assert locations == locations[..n] + [locations[n]];
    }
  }

  lemma {:induction false} UnderConcat<V>(a: seq<Located<V>>, b: seq<Located<V>>, at: seq<int>)
    ensures Under(a + b, at) == Under(a, at) + Under(b, at)
    decreases |b|
  {
    if b == [] {
      assert a + b == a;
    } else {
      var n := |b| - 1;
      UnderConcat(a, b[..n], at);
      assert (a + b)[..|a + b| - 1] == a + b[..n];
    }
  }

  lemma PrefixOfPrefix(a: seq<int>, b: seq<int>, c: seq<int>)
    requires a <= b
    ensures b <= c ==> a <= c
  {
    if b <= c {
      assert a == b[..|a|] == c[..|a|];
    }
  }

  /** Filtering by a longer location after a shorter one is filtering by the longer one. */
  lemma {:induction false} UnderUnder<V>(locations: seq<Located<V>>, at: seq<int>, further: seq<int>)
    requires at <= further
    ensures Under(Under(locations, at), further) == Under(locations, further)
    decreases |locations|
  {
    if locations != [] {
      var n := |locations| - 1;
      UnderUnder(locations[..n], at, further);
      if at <= locations[n].loc {
        assert Under(locations, at)[..|Under(locations, at)| - 1] == Under(locations[..n], at);
      } else {
        assert !(further <= locations[n].loc) by {
          PrefixOfPrefix(at, further, locations[n].loc);
        }
        assert Under(locations, at) == Under(locations[..n], at);
      }
    }
  }

  type Given<V> = seq<(ConfigTreeNode, seq<Located<V>>)>

  /** A limit of the depths. */
  ghost predicate Bounded(nodes: set<ConfigTreeNode>, bound: nat) {
    forall m :: m in nodes ==> m.depth <= bound
  }

  /** The nodes at and below `n` with what they are given, in the order in which they generate their code. */
  ghost function GenerateC<V>(n: ConfigTreeNode, locations: seq<Located<V>>, root: ConfigTreeNode,
          nodes: set<ConfigTreeNode>, bound: nat): Given<V>
    requires Tree(root, nodes) && n in nodes && n.depth <= bound
    requires Bounded(nodes, bound)
    reads nodes, AllLines(nodes)
    decreases bound - n.depth, 1, 0
  {
    assert WellPlaced(n, root, nodes);
    [(n, locations)] + GenerateChildren(n, IECSortedChildren(n.children), locations, root, nodes, bound)
  }

  ghost function AllLines(nodes: set<ConfigTreeNode>): set<ConfigTreeNode> {
    set n, m | n in nodes && m in n.Line() :: m
  }

  ghost function GenerateChildren<V>(n: ConfigTreeNode, children: seq<ConfigTreeNode>, locations: seq<Located<V>>,
          root: ConfigTreeNode, nodes: set<ConfigTreeNode>, bound: nat): Given<V>
    requires Tree(root, nodes) && n in nodes && n.depth <= bound
    requires Bounded(nodes, bound)
    requires forall i :: 0 <= i < |children| ==> children[i] in n.children
    reads nodes, AllLines(nodes)
    decreases bound - n.depth, 0, |children|
  {
    if children == [] then []
    else
      var c := children[0];
      ChildLocation(n, c, root, nodes);
      assert WellPlaced(c, root, nodes);
      assert c.Line() <= AllLines(nodes);
      GenerateC(c, Under(locations, c.Location()), root, nodes, bound)
      + GenerateChildren(n, children[1..], locations, root, nodes, bound)
  }

  /** The node is given what lies under it. */
  ghost predicate GivenItsOwn<V>(given: Given<V>, all: seq<Located<V>>, nodes: set<ConfigTreeNode>)
    reads nodes, AllLines(nodes)
  {
    forall i :: 0 <= i < |given| ==> given[i].0 in nodes && Own(given[i].0, given[i].1, all, nodes)
  }

  ghost predicate Own<V>(n: ConfigTreeNode, locations: seq<Located<V>>, all: seq<Located<V>>,
          nodes: set<ConfigTreeNode>)
    requires n in nodes
    reads nodes, AllLines(nodes)
  {
    assert n.Line() <= AllLines(nodes);
    locations == Under(all, n.Location())
  }

  lemma {:induction false} GenerateGives<V>(n: ConfigTreeNode, all: seq<Located<V>>, root: ConfigTreeNode,
          nodes: set<ConfigTreeNode>, bound: nat)
    requires Tree(root, nodes) && n in nodes && n.depth <= bound
    requires Bounded(nodes, bound)
    ensures GivenItsOwn(GenerateC(n, Under(all, n.Location()), root, nodes, bound), all, nodes)
    decreases bound - n.depth, 1, 0
  {
    assert WellPlaced(n, root, nodes);
    ChildrenGive(n, IECSortedChildren(n.children), all, root, nodes, bound);
  }

  lemma {:induction false} ChildrenGive<V>(n: ConfigTreeNode, children: seq<ConfigTreeNode>, all: seq<Located<V>>,
          root: ConfigTreeNode, nodes: set<ConfigTreeNode>, bound: nat)
    requires Tree(root, nodes) && n in nodes && n.depth <= bound
    requires Bounded(nodes, bound)
    requires forall i :: 0 <= i < |children| ==> children[i] in n.children
    ensures GivenItsOwn(GenerateChildren(n, children, Under(all, n.Location()), root, nodes, bound), all, nodes)
    decreases bound - n.depth, 0, |children|
  {
    if children != [] {
      var c := children[0];
      ChildLocation(n, c, root, nodes);
      assert WellPlaced(c, root, nodes);
      UnderUnder(all, n.Location(), c.Location());
      GenerateGives(c, all, root, nodes, bound);
      ChildrenGive(n, children[1..], all, root, nodes, bound);
    }
  }

  ghost function Visited<V>(given: Given<V>): set<ConfigTreeNode> {
    set i | 0 <= i < |given| :: given[i].0
  }

  ghost predicate ChildrenVisited(visited: set<ConfigTreeNode>)
    reads visited
  {
    forall m :: m in visited ==> forall i :: 0 <= i < |m.children| ==> m.children[i] in visited
  }

  lemma VisitedConcat<V>(a: Given<V>, b: Given<V>)
    ensures Visited(a + b) == Visited(a) + Visited(b)
  {
    assert forall i :: 0 <= i < |a| ==> (a + b)[i] == a[i];
    assert forall i :: 0 <= i < |b| ==> (a + b)[|a| + i] == b[i];
  }

  lemma {:induction false} GenerateVisits<V>(n: ConfigTreeNode, locations: seq<Located<V>>, root: ConfigTreeNode,
          nodes: set<ConfigTreeNode>, bound: nat)
    requires Tree(root, nodes) && n in nodes && n.depth <= bound && Bounded(nodes, bound)
    ensures var visited := Visited(GenerateC(n, locations, root, nodes, bound));
            n in visited && ChildrenVisited(visited)
    decreases bound - n.depth, 1, 0
  {
    assert WellPlaced(n, root, nodes);
    var rest := GenerateChildren(n, IECSortedChildren(n.children), locations, root, nodes, bound);
    ChildrenVisit(n, IECSortedChildren(n.children), locations, root, nodes, bound);
    VisitedConcat([(n, locations)], rest);
    assert [(n, locations)][0].0 == n;
    assert n in Visited([(n, locations)]);
    ChildrenSorted(n.children);
    forall i | 0 <= i < |n.children|
      ensures n.children[i] in Visited(rest)
    {
      assert n.children[i] in multiset(n.children);
      assert n.children[i] in IECSortedChildren(n.children);
    }
  }

  lemma {:induction false} ChildrenVisit<V>(n: ConfigTreeNode, children: seq<ConfigTreeNode>,
          locations: seq<Located<V>>, root: ConfigTreeNode, nodes: set<ConfigTreeNode>, bound: nat)
    requires Tree(root, nodes) && n in nodes && n.depth <= bound && Bounded(nodes, bound)
    requires forall i :: 0 <= i < |children| ==> children[i] in n.children
    ensures var visited := Visited(GenerateChildren(n, children, locations, root, nodes, bound));
            ChildrenVisited(visited) && forall i :: 0 <= i < |children| ==> children[i] in visited
    decreases bound - n.depth, 0, |children|
  {
    if children != [] {
      var c := children[0];
      ChildLocation(n, c, root, nodes);
      assert WellPlaced(c, root, nodes);
      var first := GenerateC(c, Under(locations, c.Location()), root, nodes, bound);
      var rest := GenerateChildren(n, children[1..], locations, root, nodes, bound);
      GenerateVisits(c, Under(locations, c.Location()), root, nodes, bound);
      ChildrenVisit(n, children[1..], locations, root, nodes, bound);
      VisitedConcat(first, rest);
    }
  }

  lemma {:induction false} ReachedFromRoot(m: ConfigTreeNode, visited: set<ConfigTreeNode>, root: ConfigTreeNode,
          nodes: set<ConfigTreeNode>)
    requires Tree(root, nodes) && m in nodes && root in visited && ChildrenVisited(visited)
    ensures m in visited
    decreases |m.Location()|
  {
    RootLocation(m, root, nodes);
    if m != root {
      ParentLocation(m, root, nodes);
      ReachedFromRoot(m.parent, visited, root, nodes);
    }
  }

  // ----- The order of the visits

  /** Locations are ordered channel by channel, a location before those that go on behind it. */
  predicate Earlier(a: seq<int>, b: seq<int>) {
    if b == [] then false
    else if a == [] then true
    else a[0] < b[0] || (a[0] == b[0] && Earlier(a[1..], b[1..]))
  }

  lemma {:induction false} NotEarlierThanItself(a: seq<int>)
    ensures !Earlier(a, a)
  {
    if a != [] {
      NotEarlierThanItself(a[1..]);
    }
  }

  lemma {:induction false} EarlierBehind(at: seq<int>, a: seq<int>, b: seq<int>)
    requires at <= a && at <= b && |a| < |b| && |a| == |at|
    ensures Earlier(a, b)
    decreases |at|
  {
    if at != [] {
      assert a[0] == at[0] == b[0];
      EarlierBehind(at[1..], a[1..], b[1..]);
    }
  }

  lemma {:induction false} EarlierAt(at: seq<int>, a: seq<int>, b: seq<int>)
    requires at <= a && at <= b && |at| < |a| && |at| < |b| && a[|at|] < b[|at|]
    ensures Earlier(a, b)
    decreases |at|
  {
    if at != [] {
      assert a[0] == at[0] == b[0];
      EarlierAt(at[1..], a[1..], b[1..]);
    }
  }

  /** The locations of the nodes that generate code, in the order in which they do. */
  ghost function Route<V>(given: Given<V>, nodes: set<ConfigTreeNode>): (r: seq<seq<int>>)
    requires forall i :: 0 <= i < |given| ==> given[i].0 in nodes
    reads nodes, AllLines(nodes)
    ensures |r| == |given|
  {
    if given == [] then []
    else
      var n := |given| - 1;
      assert given[n].0.Line() <= AllLines(nodes);
      Route(given[..n], nodes) + [given[n].0.Location()]
  }

  lemma {:induction false} RouteAt<V>(given: Given<V>, nodes: set<ConfigTreeNode>, i: nat)
    requires i < |given| && forall k :: 0 <= k < |given| ==> given[k].0 in nodes
    ensures Route(given, nodes)[i] == given[i].0.Location()
    decreases |given|
  {
    if i < |given| - 1 {
      RouteAt(given[..|given| - 1], nodes, i);
    }
  }

  lemma {:induction false} RouteConcat<V>(a: Given<V>, b: Given<V>, nodes: set<ConfigTreeNode>)
    requires forall k :: 0 <= k < |a| ==> a[k].0 in nodes
    requires forall k :: 0 <= k < |b| ==> b[k].0 in nodes
    ensures Route(a + b, nodes) == Route(a, nodes) + Route(b, nodes)
    decreases |b|
  {
    if b == [] {
      assert a + b == a;
    } else {
      var n := |b| - 1;
      RouteConcat(a, b[..n], nodes);
      assert (a + b)[..|a + b| - 1] == a + b[..n];
    }
  }

  ghost predicate Increasing(route: seq<seq<int>>) {
    forall i, j :: 0 <= i < j < |route| ==> Earlier(route[i], route[j])
  }

  /** The route stays under a location; `low` bounds the channels with which it goes on. */
  ghost predicate StaysFrom(route: seq<seq<int>>, at: seq<int>, low: int) {
    forall i :: 0 <= i < |route| ==> at <= route[i] && |at| < |route[i]| && route[i][|at|] >= low
  }

  ghost predicate StaysAt(route: seq<seq<int>>, at: seq<int>) {
    forall i :: 0 <= i < |route| ==> at <= route[i]
  }

  /** First the node itself, then what lies under it. */
  lemma HeadFirst(at: seq<int>, rest: seq<seq<int>>, low: int)
    requires Increasing(rest) && StaysFrom(rest, at, low)
    ensures Increasing([at] + rest) && StaysAt([at] + rest, at)
  {
    forall j | 0 <= j < |rest|
      ensures Earlier(at, rest[j])
    {
      EarlierBehind(at, at, rest[j]);
    }
  }

  lemma ChildThenOthers(at: seq<int>, channel: int, first: seq<seq<int>>, rest: seq<seq<int>>)
    requires Increasing(first) && StaysAt(first, at + [channel])
    requires Increasing(rest) && StaysFrom(rest, at, channel + 1)
    ensures Increasing(first + rest) && StaysFrom(first + rest, at, channel)
  {
    forall i | 0 <= i < |first|
      ensures at <= first[i] && |at| < |first[i]| && first[i][|at|] == channel
    {
      assert (at + [channel])[|at|] == channel;
      assert at == first[i][..|at|];
    }
    forall i, j | 0 <= i < |first| && 0 <= j < |rest|
      ensures Earlier(first[i], rest[j])
    {
      EarlierAt(at, first[i], rest[j]);
    }
  }

  ghost predicate ChannelsAscend(children: seq<ConfigTreeNode>)
    reads children
  {
    forall i, j :: 0 <= i < j < |children| ==> children[i].channel < children[j].channel
  }

  lemma SortedDistinct(n: ConfigTreeNode)
    requires n.Distinct()
    ensures ChannelsAscend(IECSortedChildren(n.children))
    ensures forall c :: c in IECSortedChildren(n.children) <==> c in n.children
  {
    var sorted := IECSortedChildren(n.children);
    ChildrenSorted(n.children);
    forall c
      ensures c in sorted <==> c in n.children
    {
      assert c in multiset(sorted) <==> c in multiset(n.children);
    }
    forall i, j | 0 <= i < j < |sorted|
      ensures sorted[i].channel < sorted[j].channel
    {
      assert sorted[i] in n.children && sorted[j] in n.children;
      if sorted[i] == sorted[j] {
        CountTwice(sorted, i, j);
        CountOnce(n.children, sorted[i]);
      }
    }
  }

  lemma RouteStarts<V>(n: ConfigTreeNode, locations: seq<Located<V>>, rest: Given<V>, nodes: set<ConfigTreeNode>)
    requires n in nodes && forall k :: 0 <= k < |rest| ==> rest[k].0 in nodes
    ensures Route([(n, locations)] + rest, nodes) == [n.Location()] + Route(rest, nodes)
  {
    RouteConcat([(n, locations)], rest, nodes);
    RouteAt([(n, locations)], nodes, 0);
    assert Route([(n, locations)], nodes) == [n.Location()];
  }

  lemma {:induction false} GenerateRoute<V>(n: ConfigTreeNode, locations: seq<Located<V>>, root: ConfigTreeNode,
          nodes: set<ConfigTreeNode>, bound: nat)
    requires Tree(root, nodes) && n in nodes && n.depth <= bound && Bounded(nodes, bound)
    ensures var given := GenerateC(n, locations, root, nodes, bound);
            && (forall i :: 0 <= i < |given| ==> given[i].0 in nodes)
            && Increasing(Route(given, nodes)) && StaysAt(Route(given, nodes), n.Location())
    decreases bound - n.depth, 1, 0
  {
    assert WellPlaced(n, root, nodes);
    SortedDistinct(n);
    var sorted := IECSortedChildren(n.children);
    var low := if sorted == [] then 0 else sorted[0].channel;
    ChildrenRoute(n, sorted, low, locations, root, nodes, bound);
    var rest := GenerateChildren(n, sorted, locations, root, nodes, bound);
    RouteStarts(n, locations, rest, nodes);
    HeadFirst(n.Location(), Route(rest, nodes), low);
  }

  lemma {:induction false} ChildrenRoute<V>(n: ConfigTreeNode, children: seq<ConfigTreeNode>, low: int,
          locations: seq<Located<V>>, root: ConfigTreeNode, nodes: set<ConfigTreeNode>, bound: nat)
    requires Tree(root, nodes) && n in nodes && n.depth <= bound && Bounded(nodes, bound)
    requires forall i :: 0 <= i < |children| ==> children[i] in n.children
    requires ChannelsAscend(children) && (children != [] ==> low <= children[0].channel)
    ensures var given := GenerateChildren(n, children, locations, root, nodes, bound);
            && (forall i :: 0 <= i < |given| ==> given[i].0 in nodes)
            && Increasing(Route(given, nodes)) && StaysFrom(Route(given, nodes), n.Location(), low)
    decreases bound - n.depth, 0, |children|
  {
    if children != [] {
      var c := children[0];
      ChildLocation(n, c, root, nodes);
      assert WellPlaced(c, root, nodes);
      var first := GenerateC(c, Under(locations, c.Location()), root, nodes, bound);
      var rest := GenerateChildren(n, children[1..], locations, root, nodes, bound);
      GenerateRoute(c, Under(locations, c.Location()), root, nodes, bound);
      ChildrenRoute(n, children[1..], c.channel + 1, locations, root, nodes, bound);
      RouteConcat(first, rest, nodes);
      ChildThenOthers(n.Location(), c.channel, Route(first, nodes), Route(rest, nodes));
    }
  }

  /** Code is generated along the locations in their order; no node is visited twice. */
  lemma VisitedInOrder<V>(all: seq<Located<V>>, root: ConfigTreeNode, nodes: set<ConfigTreeNode>, bound: nat)
    requires Tree(root, nodes) && Bounded(nodes, bound)
    ensures var given := GenerateC(root, all, root, nodes, bound);
            && (forall i :: 0 <= i < |given| ==> given[i].0 in nodes)
            && forall i, j :: 0 <= i < j < |given| ==>
                 given[i].0 != given[j].0 && Earlier(given[i].0.Location(), given[j].0.Location())
  {
    var given := GenerateC(root, all, root, nodes, bound);
    GenerateRoute(root, all, root, nodes, bound);
    forall i, j | 0 <= i < j < |given|
      ensures given[i].0 != given[j].0 && Earlier(given[i].0.Location(), given[j].0.Location())
    {
      RouteAt(given, nodes, i);
      RouteAt(given, nodes, j);
      NotEarlierThanItself(given[i].0.Location());
    }
  }

  /** From the root, all nodes generate code, and every one is given exactly the variables under its location. */
  lemma EachIsGivenItsOwn<V>(all: seq<Located<V>>, root: ConfigTreeNode, nodes: set<ConfigTreeNode>, bound: nat)
    requires Tree(root, nodes) && Bounded(nodes, bound)
    ensures var given := GenerateC(root, all, root, nodes, bound);
            GivenItsOwn(given, all, nodes) && nodes <= Visited(given)
  {
    RootLocation(root, root, nodes);
    UnderAll(all);
    GenerateGives(root, all, root, nodes, bound);
    GenerateVisits(root, all, root, nodes, bound);
    forall m | m in nodes
      ensures m in Visited(GenerateC(root, all, root, nodes, bound))
    {
      ReachedFromRoot(m, Visited(GenerateC(root, all, root, nodes, bound)), root, nodes);
    }
  }
}
