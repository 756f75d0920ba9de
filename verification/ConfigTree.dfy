/**
 The configuration tree: siblings have different names and different IEC channels, so that a node is known by
 the channels on the way to it.
 */
module ConfigTree {
  import opened FreeNames
  import opened Results

  const UNNAMED: string := "__unnamed__"

  datatype Fault = CannotCreate(name: string, ctnType: string)

  class ConfigTreeNode {
    const parent: ConfigTreeNode?
    const ctnType: string
    ghost const depth: nat
    var name: string
    var channel: int
    /** The children in the order of iteration: grouped by type, the types in order of their first child. */
    var children: seq<ConfigTreeNode>

    constructor Root()
      ensures parent == null && depth == 0 && children == []
    {
      parent, ctnType, depth, name, channel, children := null, "", 0, "", 0, [];
    }

    /** A new node, not among its parent's children yet. */
    constructor Below(parent: ConfigTreeNode, ctnType: string)
      ensures this.parent == parent && this.ctnType == ctnType && depth == parent.depth + 1
      ensures name == UNNAMED && channel == 0 && children == []
    {
      this.parent, this.ctnType, depth, name, channel, children := parent, ctnType, parent.depth + 1, UNNAMED, 0, [];
    }

    ghost predicate Distinct()
      reads this, children
    {
      forall i, j :: 0 <= i < j < |children| ==>
        children[i] != children[j] && children[i].name != children[j].name && children[i].channel != children[j].channel
    }

    /** The channels on the way from the root. */
    ghost function Location(): (r: seq<int>)
      reads Line()
      ensures |r| <= depth
      decreases depth
    {
      if parent == null || parent.depth >= depth then [] else parent.Location() + [channel]
    }

    ghost function Line(): set<ConfigTreeNode>
      decreases depth
    {
      {this} + if parent == null || parent.depth >= depth then {} else parent.Line()
    }

    /** The names of the siblings. */
    method SiblingNames() returns (names: seq<string>)
      requires parent != null
      ensures names == NamesOf(parent.children, this)
    {
      names := [];
      for k := 0 to |parent.children|
        invariant names == NamesOf(parent.children[..k], this)
      {
        assert parent.children[..k + 1][..k] == parent.children[..k];
        if parent.children[k] != this {
          names := names + [parent.children[k].name];
        }
      }
      assert parent.children[..|parent.children|] == parent.children;
    }

    /** Changes the name to the desired one or, if a sibling has it, to the first numbered one that is free. */
    method FindNewName(desired: string, ghost root: ConfigTreeNode, ghost nodes: set<ConfigTreeNode>)
      returns (res: string)
      requires parent != null && parent in nodes && Tree(root, nodes)
      modifies this`name
      ensures name == res && FirstFreeName(NamesOf(parent.children, this), desired, res)
      ensures Tree(root, nodes)
    {
      var used := SiblingNames();
      res := FreeName(used, desired);
      name := res;
      OthersUnchanged(parent.children, this);
      StillDiffers(this, parent);
      StillTree(this, root, nodes);
    }

    /** The channels of the siblings, in ascending order. */
    method GetAllChannels() returns (channels: seq<int>)
      requires parent != null
      ensures Ascending(channels) && multiset(channels) == multiset(ChannelsOf(parent.children, this))
    {
      channels := [];
      for k := 0 to |parent.children|
        invariant channels == ChannelsOf(parent.children[..k], this)
      {
        assert parent.children[..k + 1][..k] == parent.children[..k];
        if parent.children[k] != this {
          channels := channels + [parent.children[k].channel];
        }
      }
      assert parent.children[..|parent.children|] == parent.children;
      channels := Sorted(channels);
    }

    /** The first channel in its direction that no sibling has. */
    method FreeAmongSiblings(desired: int) returns (found: Option<int>)
      requires parent != null
      ensures FirstFreeChannel(ChannelsOf(parent.children, this), desired, channel, found)
      ensures found.Some? ==> found.value !in ChannelsOf(parent.children, this)
    {
      var used := GetAllChannels();
      found := FreeChannel(used, desired, channel);
      OrderIrrelevant(used, ChannelsOf(parent.children, this), desired, channel, found);
    }

    /** Changes the channel to the desired one or to the first free one in its direction; keeps it if there is none. */
    method FindNewIECChannel(desired: int, ghost root: ConfigTreeNode, ghost nodes: set<ConfigTreeNode>)
      returns (res: int)
      requires parent != null && parent in nodes && Tree(root, nodes)
      modifies this`channel
      ensures channel == res && Tree(root, nodes)
      ensures FirstFreeChannel(ChannelsOf(parent.children, this), desired, old(channel), Some(res))
        || (res == old(channel) && FirstFreeChannel(ChannelsOf(parent.children, this), desired, old(channel), None))
    {
      var found := FreeAmongSiblings(desired);
      if found.None? {
        return channel;
      }
      res := found.value;
      channel := res;
      OthersUnchanged(parent.children, this);
      StillDiffers(this, parent);
      StillTree(this, root, nodes);
    }

    /**
     Creates a child of a known type, unless there are as many of the type as allowed. A child found on disk
     brings its channel with it. The new child gets a free name and a free channel.
     */
    method CTNAddChild(desired: string, ctnType: string, channel: int, stored: Option<int>, types: map<string, nat>,
                       ghost root: ConfigTreeNode, ghost nodes: set<ConfigTreeNode>)
      returns (r: Result<Option<ConfigTreeNode>, Fault>)
      requires Tree(root, nodes) && this in nodes
      modifies this`children
      ensures if ctnType !in types then r == Err(CannotCreate(desired, ctnType)) else r.Ok?
      ensures r == Ok(None) <==> ctnType in types && 0 < types[ctnType] <= CountOf(old(children), ctnType)
      ensures r.Ok? && r.value.Some? ==>
                var c := r.value.value;
                var others := old(children);
                && fresh(c) && c.parent == this && c.ctnType == ctnType && c.children == []
                && children == Inserted(others, c)
                && FirstFreeName(NamesOf(others, c), desired, c.name)
                && (Placeable(ChannelsOf(others, c), channel, stored) ==> Tree(root, nodes + {c}))
      ensures !(r.Ok? && r.value.Some?) ==> children == old(children) && Tree(root, nodes)
    {
      if ctnType !in types {
        return Err(CannotCreate(desired, ctnType));
      }
      if types[ctnType] > 0 && CountOf(children, ctnType) >= types[ctnType] {
        return Ok(None);
      }
      var c := NewChild(desired, ctnType, channel, stored, root, nodes);
      label named:
      ghost var others := children;
      Attach(c, root, nodes);
      OthersUnchanged@named(others, c);
      return Ok(Some(c));
    }

    /** A child that is not among the others yet, with its name and channel. */
    method NewChild(desired: string, ctnType: string, channel: int, stored: Option<int>,
                    ghost root: ConfigTreeNode, ghost nodes: set<ConfigTreeNode>)
      returns (c: ConfigTreeNode)
      requires Tree(root, nodes) && this in nodes
      ensures fresh(c) && c.parent == this && c.depth == depth + 1 && c.ctnType == ctnType && c.children == []
      ensures c !in nodes
      ensures FirstFreeName(NamesOf(children, c), desired, c.name)
      ensures Placeable(ChannelsOf(children, c), channel, stored) ==> DiffersFromSiblings(c, children)
      ensures Tree(root, nodes)
    {
      c := new ConfigTreeNode.Below(this, ctnType);
      var _ := c.FindNewName(desired, root, nodes);
      label named:
      c.SettleChannel(channel, stored, root, nodes);
      OthersUnchanged@named(children, c);
      NewDiffers(c, children, ChannelsOf(children, c));
    }

    /** Gives a child that is not in the tree yet its channel; one found on disk starts from the channel it brings. */
    method SettleChannel(desired: int, stored: Option<int>, ghost root: ConfigTreeNode,
                         ghost nodes: set<ConfigTreeNode>)
      requires Tree(root, nodes) && this !in nodes && parent != null && parent in nodes && channel == 0
      modifies this`channel
      ensures Tree(root, nodes)
      ensures channel !in ChannelsOf(parent.children, this) <==>
              Placeable(ChannelsOf(parent.children, this), desired, stored)
    {
      if stored.Some? {
        channel := stored.value;
        OthersUnchanged(parent.children, this);
      }
      label found:
      var _ := FindNewIECChannel(if stored.Some? then stored.value else desired, root, nodes);
      OthersUnchanged@found(parent.children, this);
      PlaceableExact(ChannelsOf(parent.children, this), desired, stored, channel);
    }

    method Attach(c: ConfigTreeNode, ghost root: ConfigTreeNode, ghost nodes: set<ConfigTreeNode>)
      requires Tree(root, nodes) && this in nodes
      requires c !in nodes && c.parent == this && c.depth == depth + 1 && c.children == []
      modifies this`children
      ensures children == Inserted(old(children), c)
      ensures old(DiffersFromSiblings(c, children)) ==> Tree(root, nodes + {c})
    {
      children := Inserted(children, c);
      if old(DiffersFromSiblings(c, children)) {
        AddedKeepsTree(this, c, root, nodes);
      }
    }

    method GetCurrentLocation(ghost root: ConfigTreeNode, ghost nodes: set<ConfigTreeNode>) returns (r: seq<int>)
      requires Tree(root, nodes) && this in nodes
      ensures r == Location()
      decreases depth
    {
      if parent == null {
        return [];
      }
      r := parent.GetCurrentLocation(root, nodes);
      r := r + [channel];
    }
  }

  // ----- The tree

  /** The nodes reach each other as parents and children, and siblings are distinct. */
  ghost predicate Tree(root: ConfigTreeNode, nodes: set<ConfigTreeNode>)
    reads nodes
  {
    && root in nodes && root.parent == null
    && (forall n :: n in nodes ==> WellPlaced(n, root, nodes))
  }

  ghost predicate WellPlaced(n: ConfigTreeNode, root: ConfigTreeNode, nodes: set<ConfigTreeNode>)
    requires n in nodes
    reads nodes
  {
    && (n != root ==> n.parent != null && n.parent in nodes && n.parent.depth < n.depth && n in n.parent.children)
    && (forall i :: 0 <= i < |n.children| ==> n.children[i] in nodes && n.children[i].parent == n)
    && n.Distinct()
  }

  // ----- Locations

  lemma ChildLocation(n: ConfigTreeNode, c: ConfigTreeNode, root: ConfigTreeNode, nodes: set<ConfigTreeNode>)
    requires Tree(root, nodes) && n in nodes && c in n.children
    ensures c in nodes && c.Location() == n.Location() + [c.channel]
  {
    assert WellPlaced(n, root, nodes) && WellPlaced(c, root, nodes);
  }

  lemma ParentLocation(n: ConfigTreeNode, root: ConfigTreeNode, nodes: set<ConfigTreeNode>)
    requires Tree(root, nodes) && n in nodes && n.Location() != []
    ensures n.parent != null && n.parent in nodes && n in n.parent.children
    ensures n.Location() == n.parent.Location() + [n.channel]
  {
    assert WellPlaced(n, root, nodes);
  }

  lemma RootLocation(n: ConfigTreeNode, root: ConfigTreeNode, nodes: set<ConfigTreeNode>)
    requires Tree(root, nodes) && n in nodes
    ensures n.Location() == [] <==> n == root
  {
    assert WellPlaced(n, root, nodes);
  }

  /** Different nodes have different locations. */
  lemma {:induction false} LocationInjective(a: ConfigTreeNode, b: ConfigTreeNode, root: ConfigTreeNode,
          nodes: set<ConfigTreeNode>)
    requires Tree(root, nodes) && a in nodes && b in nodes && a.Location() == b.Location()
    ensures a == b
    decreases |a.Location()|
  {
    RootLocation(a, root, nodes);
    RootLocation(b, root, nodes);
    if a.Location() != [] {
      ParentLocation(a, root, nodes);
      ParentLocation(b, root, nodes);
      assert a.parent.Location() == a.Location()[..|a.Location()| - 1] == b.parent.Location();
      LocationInjective(a.parent, b.parent, root, nodes);
      assert WellPlaced(a.parent, root, nodes);
      var i :| 0 <= i < |a.parent.children| && a.parent.children[i] == a;
      var j :| 0 <= j < |a.parent.children| && a.parent.children[j] == b;
    }
  }

  lemma OnlyThere(n: ConfigTreeNode, root: ConfigTreeNode, nodes: set<ConfigTreeNode>)
    requires Tree(root, nodes) && n in nodes
    ensures forall m :: m in nodes && m.Location() == n.Location() ==> m == n
  {
    forall m | m in nodes && m.Location() == n.Location()
      ensures m == n
    {
      LocationInjective(m, n, root, nodes);
    }
  }

  lemma Onwards(a: seq<int>, toks: seq<int>)
    requires toks != []
    ensures a + [toks[0]] + toks[1..] == a + toks && (|toks| == 1 ==> a + [toks[0]] == a + toks)
  {
  }

  lemma LastSplit(a: seq<int>, x: int, b: seq<int>, y: int)
    requires a + [x] == b + [y]
    ensures a == b && x == y
  {
    assert |a| == |b|;
    assert a == (a + [x])[..|a|] && b == (b + [y])[..|b|];
    assert (a + [x])[|a|] == (b + [y])[|b|];
  }

  /** Above a node there is one for every beginning of its location. */
  lemma {:induction false} AncestorAt(n: ConfigTreeNode, k: nat, root: ConfigTreeNode, nodes: set<ConfigTreeNode>)
    returns (m: ConfigTreeNode)
    requires Tree(root, nodes) && n in nodes && k <= |n.Location()|
    ensures m in nodes && m.Location() == n.Location()[..k]
    decreases |n.Location()|
  {
    m := n;
    if k < |n.Location()| {
      ParentLocation(n, root, nodes);
      m := AncestorAt(n.parent, k, root, nodes);
    }
  }

  lemma NoneBelow(n: ConfigTreeNode, toks: seq<int>, root: ConfigTreeNode, nodes: set<ConfigTreeNode>)
    requires Tree(root, nodes) && n in nodes && toks != []
    requires forall i :: 0 <= i < |n.children| ==> n.children[i].channel != toks[0]
    ensures forall x :: x in nodes ==> x.Location() != n.Location() + toks
  {
    forall x | x in nodes
      ensures x.Location() != n.Location() + toks
    {
      if x.Location() == n.Location() + toks {
        var m := AncestorAt(x, |n.Location()| + 1, root, nodes);
        ParentLocation(m, root, nodes);
        assert x.Location()[..|n.Location()| + 1] == n.Location() + [toks[0]];
        LastSplit(m.parent.Location(), m.channel, n.Location(), toks[0]);
        LocationInjective(m.parent, n, root, nodes);
        assert false;
      }
    }
  }

  // ----- Lookup

  /** The first of the nodes with the channel. */
  function FirstWith(children: seq<ConfigTreeNode>, wanted: int): (c: ConfigTreeNode?)
    reads children
    ensures c != null ==> c in children && c.channel == wanted
    ensures c == null ==> forall i :: 0 <= i < |children| ==> children[i].channel != wanted
  {
    if children == [] then null
    else if children[0].channel == wanted then children[0]
    else FirstWith(children[1..], wanted)
  }

  /** Follows the channels down from a node. */
  function GetChildByChannels(n: ConfigTreeNode, toks: seq<int>, ghost root: ConfigTreeNode,
          ghost nodes: set<ConfigTreeNode>): (r: ConfigTreeNode?)
    requires Tree(root, nodes) && n in nodes && toks != []
    reads nodes
    ensures r != null ==> r in nodes
    decreases |toks|
  {
    assert WellPlaced(n, root, nodes);
    var c := FirstWith(n.children, toks[0]);
    if c == null || |toks| < 2 then c else GetChildByChannels(c, toks[1..], root, nodes)
  }

  /** The node with the given location. */
  function GetChildByIECLocation(ghost nodes: set<ConfigTreeNode>, root: ConfigTreeNode,
          location: seq<int>): (r: ConfigTreeNode?)
    requires Tree(root, nodes)
    reads nodes
    ensures r != null ==> r in nodes
  {
    if location == [] then root else GetChildByChannels(root, location, root, nodes)
  }

  lemma {:induction false} FollowedChannels(n: ConfigTreeNode, toks: seq<int>, root: ConfigTreeNode,
          nodes: set<ConfigTreeNode>)
    requires Tree(root, nodes) && n in nodes && toks != []
    ensures var r := GetChildByChannels(n, toks, root, nodes);
            if r != null then r.Location() == n.Location() + toks
            else forall x :: x in nodes ==> x.Location() != n.Location() + toks
    decreases |toks|
  {
    var c := FirstWith(n.children, toks[0]);
    if c == null {
      NoneBelow(n, toks, root, nodes);
    } else {
      ChildLocation(n, c, root, nodes);
      Onwards(n.Location(), toks);
      if |toks| >= 2 {
        FollowedChannels(c, toks[1..], root, nodes);
        assert c.Location() + toks[1..] == n.Location() + toks;
      }
    }
  }

  /** Looking up a location finds the one node that has it, if there is one. */
  lemma LookupInvertsLocation(root: ConfigTreeNode, nodes: set<ConfigTreeNode>, location: seq<int>)
    requires Tree(root, nodes)
    ensures var r := GetChildByIECLocation(nodes, root, location);
            && (r != null ==> r.Location() == location)
            && forall n :: n in nodes && n.Location() == location ==> r == n
  {
    RootLocation(root, root, nodes);
    var r := GetChildByIECLocation(nodes, root, location);
    if location != [] {
      assert root.Location() + location == location;
      FollowedChannels(root, location, root, nodes);
    }
    if r != null {
      OnlyThere(r, root, nodes);
    }
  }

  // ----- What keeps the tree

  function CountOf(children: seq<ConfigTreeNode>, ctnType: string): nat {
    if children == [] then 0
    else CountOf(children[..|children| - 1], ctnType) + if children[|children| - 1].ctnType == ctnType then 1 else 0
  }

  lemma {:induction false} CountOfExact(children: seq<ConfigTreeNode>, ctnType: string)
    ensures CountOf(children, ctnType) == |OfType(children, ctnType)|
    decreases |children|
  {
    if children == [] {
      assert OfType(children, ctnType) == {};
    } else {
      var n := |children| - 1;
      CountOfExact(children[..n], ctnType);
      var front := OfType(children[..n], ctnType);
      assert OfType(children, ctnType) == if children[n].ctnType == ctnType then front + {n} else front;
    }
  }

  /** The positions of the children of a type. */
  function OfType(children: seq<ConfigTreeNode>, ctnType: string): (r: set<nat>)
    ensures forall i: nat :: i in r <==> i < |children| && children[i].ctnType == ctnType
  {
    set i: nat | i < |children| && children[i].ctnType == ctnType
  }

  /** Where the children of a type end; a new type comes last. */
  function GroupEnd(children: seq<ConfigTreeNode>, ctnType: string): (r: nat)
    ensures r <= |children|
  {
    if CountOf(children, ctnType) == 0 || children[|children| - 1].ctnType == ctnType then |children|
    else GroupEnd(children[..|children| - 1], ctnType)
  }

  /** A child is put directly behind the last one of its type, or last if it is the first of its type. */
  lemma {:induction false} GroupEndExact(children: seq<ConfigTreeNode>, ctnType: string)
    ensures var at := GroupEnd(children, ctnType);
            && (forall i :: at <= i < |children| ==> children[i].ctnType != ctnType)
            && if exists i :: 0 <= i < |children| && children[i].ctnType == ctnType
               then at > 0 && children[at - 1].ctnType == ctnType
               else at == |children|
    decreases |children|
  {
    CountedSome(children, ctnType);
    if children != [] {
      var n := |children| - 1;
      GroupEndExact(children[..n], ctnType);
      assert forall i :: 0 <= i < n ==> children[..n][i] == children[i];
    }
  }

  lemma {:induction false} CountedSome(children: seq<ConfigTreeNode>, ctnType: string)
    ensures CountOf(children, ctnType) > 0 <==> exists i :: 0 <= i < |children| && children[i].ctnType == ctnType
    decreases |children|
  {
    if children != [] {
      var n := |children| - 1;
      CountedSome(children[..n], ctnType);
      assert forall i :: 0 <= i < n ==> children[..n][i] == children[i];
    }
  }

  function Inserted(children: seq<ConfigTreeNode>, c: ConfigTreeNode): seq<ConfigTreeNode> {
    var at := GroupEnd(children, c.ctnType);
    children[..at] + [c] + children[at..]
  }

  /** A new child, whose channel is 0 at first, is given a channel that no sibling has. */
  predicate Placeable(used: seq<int>, channel: int, stored: Option<int>) {
    stored.Some? || channel >= 0 || channel !in used || 0 !in used
  }

  /** Only for a negative channel in use, with channel 0 in use as well, the new child's channel is not free. */
  lemma PlaceableExact(used: seq<int>, channel: int, stored: Option<int>, res: int)
    requires var current := if stored.Some? then stored.value else 0;
             var desired := if stored.Some? then stored.value else channel;
             || FirstFreeChannel(used, desired, current, Some(res))
             || (res == current && FirstFreeChannel(used, desired, current, None))
    ensures res !in used <==> Placeable(used, channel, stored)
  {
  }

  /**
   It happens: of three new children that are to have the channels 0, -1 and -1, the first two get theirs, and
   the third is left with channel 0.
   */
  lemma ChannelGivenTwice(found: Option<int>)
    ensures FirstFreeChannel([], 0, 0, found) <==> found == Some(0)
    ensures FirstFreeChannel([0], -1, 0, found) <==> found == Some(-1)
    ensures FirstFreeChannel([-1, 0], -1, 0, found) <==> found == None
    ensures !Placeable([-1, 0], -1, None)
  {
    assert [-1, 0][0] == -1;
  }

  /** A new node differs from all the children if they have neither its name nor its channel. */
  lemma NewDiffers(c: ConfigTreeNode, children: seq<ConfigTreeNode>, used: seq<int>)
    requires c.name !in NamesOf(children, c) && used == ChannelsOf(children, c)
    ensures c.channel !in used ==> DiffersFromSiblings(c, children)
  {
    NamesCovered(children, c);
    ChannelsCovered(children, c);
  }

  twostate lemma AddedKeepsTree(self: ConfigTreeNode, new c: ConfigTreeNode, new root: ConfigTreeNode,
          new nodes: set<ConfigTreeNode>)
    requires old(allocated(c)) && old(allocated(root)) && old(allocated(nodes))
    requires old(Tree(root, nodes)) && self in nodes && c !in nodes
    requires c.parent == self && self.depth < c.depth && c.children == [] && Same(c)
    requires self.children == Inserted(old(self.children), c) && self.name == old(self.name)
    requires self.channel == old(self.channel)
    requires forall n :: n in nodes && n != self ==> Same(n)
    requires old(DiffersFromSiblings(c, self.children))
    ensures Tree(root, nodes + {c})
  {
    assert old(WellPlaced(self, root, nodes));
    InsertedDistinct(self, c);
    InsertedAmong(old(self.children), c);
    forall n | n in nodes + {c}
      ensures WellPlaced(n, root, nodes + {c})
    {
      if n != self && n != c {
        assert old(WellPlaced(n, root, nodes));
        SameDistinct(n);
      }
    }
  }

  lemma InsertedAmong(children: seq<ConfigTreeNode>, c: ConfigTreeNode)
    ensures c in Inserted(children, c) && forall n :: n in children ==> n in Inserted(children, c)
    ensures forall i :: 0 <= i < |Inserted(children, c)| ==> Inserted(children, c)[i] in children + [c]
  {
  }

  twostate lemma SameDistinct(n: ConfigTreeNode)
    requires old(n.Distinct()) && n.children == old(n.children)
    requires forall i :: 0 <= i < |n.children| ==>
               n.children[i].name == old(n.children[i].name) && n.children[i].channel == old(n.children[i].channel)
    ensures n.Distinct()
  {
  }

  twostate lemma InsertedDistinct(self: ConfigTreeNode, new c: ConfigTreeNode)
    requires old(allocated(c))
    requires self.children == Inserted(old(self.children), c) && old(self.Distinct()) && c !in old(self.children)
    requires forall n :: n in old(self.children) ==> n.name == old(n.name) && n.channel == old(n.channel)
    requires c.name == old(c.name) && c.channel == old(c.channel) && old(DiffersFromSiblings(c, self.children))
    ensures self.Distinct()
  {
    var at := GroupEnd(old(self.children), c.ctnType);
    var all := self.children;
    forall i | 0 <= i < |all|
      ensures i < at ==> all[i] == old(self.children)[i]
      ensures i == at ==> all[i] == c
      ensures i > at ==> all[i] == old(self.children)[i - 1]
    {
    }
  }

  /** Name and channel are as before. */
  twostate predicate Same(n: ConfigTreeNode)
    reads n
  {
    n.name == old(n.name) && n.channel == old(n.channel) && n.children == old(n.children)
  }

  twostate lemma {:induction false} OthersUnchanged(children: seq<ConfigTreeNode>, new self: ConfigTreeNode)
    requires old(allocated(self))
    requires forall i :: 0 <= i < |children| && children[i] != self ==> Same(children[i])
    ensures NamesOf(children, self) == old(NamesOf(children, self))
    ensures ChannelsOf(children, self) == old(ChannelsOf(children, self))
    decreases |children|
  {
    if children != [] {
      OthersUnchanged(children[..|children| - 1], self);
    }
  }

  /** The changed node differs from each of its siblings. */
  ghost predicate DiffersFromSiblings(self: ConfigTreeNode, children: seq<ConfigTreeNode>)
    reads self, children
  {
    forall i :: 0 <= i < |children| && children[i] != self ==>
        children[i].name != self.name && children[i].channel != self.channel
  }

  /** A name or channel that no sibling has, the other one being as before. */
  twostate lemma StillDiffers(self: ConfigTreeNode, new parent: ConfigTreeNode)
    requires old(allocated(parent))
    requires old(parent.Distinct()) && parent.children == old(parent.children)
    requires forall i :: 0 <= i < |parent.children| && parent.children[i] != self ==> Same(parent.children[i])
    requires self.name == old(self.name) || self.name !in NamesOf(parent.children, self)
    requires self.channel == old(self.channel) || self.channel !in ChannelsOf(parent.children, self)
    ensures self in parent.children ==> DiffersFromSiblings(self, parent.children)
  {
    NamesCovered(parent.children, self);
    ChannelsCovered(parent.children, self);
  }

  /** Changing the name or channel of one node keeps the tree if the node still differs from its siblings. */
  twostate lemma StillTree(self: ConfigTreeNode, new root: ConfigTreeNode, new nodes: set<ConfigTreeNode>)
    requires old(allocated(root)) && old(allocated(nodes))
    requires old(Tree(root, nodes)) && self.children == old(self.children)
    requires forall n :: n in nodes && n != self ==> Same(n)
    requires self.parent != null && self.parent in nodes
    requires self in self.parent.children ==> DiffersFromSiblings(self, self.parent.children)
    ensures Tree(root, nodes)
  {
    forall n | n in nodes
      ensures WellPlaced(n, root, nodes)
    {
      assert old(WellPlaced(n, root, nodes));
      StillDistinct(self, n);
    }
  }

  twostate lemma StillDistinct(self: ConfigTreeNode, new n: ConfigTreeNode)
    requires old(allocated(n))
    requires old(n.Distinct()) && n.children == old(n.children)
    requires forall i :: 0 <= i < |n.children| && n.children[i] != self ==> Same(n.children[i])
    requires self in n.children ==> DiffersFromSiblings(self, n.children)
    ensures n.Distinct()
  {
  }

  lemma {:induction false} NamesCovered(children: seq<ConfigTreeNode>, self: ConfigTreeNode)
    ensures forall c :: c in children && c != self ==> c.name in NamesOf(children, self)
    decreases |children|
  {
    if children != [] {
      NamesCovered(children[..|children| - 1], self);
    }
  }

  lemma {:induction false} ChannelsCovered(children: seq<ConfigTreeNode>, self: ConfigTreeNode)
    ensures forall c :: c in children && c != self ==> c.channel in ChannelsOf(children, self)
    decreases |children|
  {
    if children != [] {
      ChannelsCovered(children[..|children| - 1], self);
    }
  }

  function NamesOf(children: seq<ConfigTreeNode>, self: ConfigTreeNode): seq<string>
    reads children
  {
    if children == [] then []
    else
      var n := |children| - 1;
      NamesOf(children[..n], self) + if children[n] != self then [children[n].name] else []
  }

  function ChannelsOf(children: seq<ConfigTreeNode>, self: ConfigTreeNode): seq<int>
    reads children
  {
    if children == [] then []
    else
      var n := |children| - 1;
      ChannelsOf(children[..n], self) + if children[n] != self then [children[n].channel] else []
  }
}
