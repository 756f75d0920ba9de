/**
 LD and FBD bodies as plain graphs, what power or value reaches a connection, and the program fragment
 the generator emits for them. Elements are known by their local id; a link to a block names one of its
 outputs (by index in the model, by formal parameter in the source).
 */
module Networks {
  import opened Results
  import opened StText

  datatype Link = Link(ref: nat, pin: nat)

  datatype InPin = InPin(links: seq<Link>, negated: bool)

  datatype Kind = Function | FunctionBlock

  /** An input the block type declares may have no pin on the instance; an output may be negated. */
  datatype Node =
    | LeftRail
    | InVariable(text: seq<Token>)
    | OutVariable(name: string, links: seq<Link>)
    | Block(kind: Kind, inputs: seq<Option<InPin>>, outputs: seq<bool>)
    | Contact(name: string, negated: bool, links: seq<Link>)
    | Coil(name: string, negated: bool, links: seq<Link>)

  type Body = map<nat, Node>

  predicate IsGate(body: Body, id: nat) {
    id in body && (body[id].Contact? || body[id].Coil?)
  }

  predicate IsBlock(body: Body, id: nat) {
    id in body && body[id].Block?
  }

  predicate IsSink(body: Body, id: nat) {
    id in body && (body[id].OutVariable? || body[id].Coil?)
  }

  /** Elements a connection can come from; links to anything else are passed over. */
  predicate IsSource(body: Body, l: Link) {
    l.ref in body && !body[l.ref].OutVariable?
  }

  function Live(body: Body, links: seq<Link>): (r: seq<Link>)
    ensures forall l :: l in r <==> l in links && IsSource(body, l)
  {
    if links == [] then []
    else if IsSource(body, links[0]) then [links[0]] + Live(body, links[1..])
    else Live(body, links[1..])
  }

  /** Following links from contact to contact comes to an end. */
  ghost predicate Ranked(body: Body, rank: nat -> nat) {
    forall id, l :: IsGate(body, id) && l in body[id].links && IsGate(body, l.ref) ==> rank(l.ref) < rank(id)
  }

  ghost predicate Below(body: Body, rank: nat -> nat, links: seq<Link>, bound: nat) {
    forall l :: l in links && IsGate(body, l.ref) ==> rank(l.ref) < bound
  }

  // ----- What reaches a connection, when the outputs of the blocks are those in the store

  ghost function OutputValue(b: Node, id: nat, pin: nat, s: Store): Value
    requires b.Block?
  {
    if pin >= |b.outputs| then Bool(false) else Modified(b.outputs[pin], Lookup(s, Output(id, pin)))
  }

  function Modified(negated: bool, v: Value): Value {
    if negated then Bool(!Truth(v)) else v
  }

  ghost predicate Passes(c: Node, s: Store)
    requires c.Contact?
  {
    Truth(Modified(c.negated, Lookup(s, Named(c.name))))
  }

  ghost function Contribution(body: Body, rank: nat -> nat, l: Link, s: Store): Value
    requires Ranked(body, rank) && IsSource(body, l)
    decreases if IsGate(body, l.ref) then rank(l.ref) + 1 else 0, 0
  {
    var n := body[l.ref];
    match n
    case LeftRail => Bool(true)
    case InVariable(text) => EvalText(text, s)
    case OutVariable(_, _) => Bool(false)
    case Block(_, _, _) => OutputValue(n, l.ref, l.pin, s)
    case Contact(_, _, links) => Bool(Passes(n, s) && Truth(Flow(body, rank, links, rank(l.ref), s)))
    case Coil(_, _, links) => Flow(body, rank, links, rank(l.ref), s)
  }

  /** One connection passes its value on; several are a wired OR. */
  ghost function Flow(body: Body, rank: nat -> nat, links: seq<Link>, bound: nat, s: Store): Value
    requires Ranked(body, rank) && Below(body, rank, links, bound)
    decreases bound, 1
  {
    var live := Live(body, links);
    if |live| == 1 then Contribution(body, rank, live[0], s)
    else Bool(exists l :: l in live && Truth(Contribution(body, rank, l, s)))
  }

  lemma FlowTruth(body: Body, rank: nat -> nat, links: seq<Link>, bound: nat, s: Store)
    requires Ranked(body, rank) && Below(body, rank, links, bound)
    ensures Truth(Flow(body, rank, links, bound, s)) ==
            exists l :: l in links && IsSource(body, l) && Truth(Contribution(body, rank, l, s))
  {
    var live := Live(body, links);
    assert forall l :: l in live <==> l in links && IsSource(body, l);
    if |live| == 1 {
      assert live[0] in live;
    }
  }

  // ----- Conducting paths: the reference definition

  /**
   The chain of links leads back through closed contacts and through coils to a rail, or to a variable or
   block output that is true.
   */
  ghost predicate Conducts(body: Body, chain: seq<Link>, s: Store) {
    && chain != [] && chain[0].ref in body
    && var n := body[chain[0].ref];
       match n
       case LeftRail => |chain| == 1
       case InVariable(text) => |chain| == 1 && Truth(EvalText(text, s))
       case OutVariable(_, _) => false
       case Block(_, _, _) => |chain| == 1 && Truth(OutputValue(n, chain[0].ref, chain[0].pin, s))
       case Contact(_, _, links) => Passes(n, s) && |chain| > 1 && chain[1] in links && Conducts(body, chain[1..], s)
       case Coil(_, _, links) => |chain| > 1 && chain[1] in links && Conducts(body, chain[1..], s)
  }

  ghost predicate Reached(body: Body, links: seq<Link>, s: Store) {
    exists chain :: Conducts(body, chain, s) && chain[0] in links
  }

  lemma {:induction false} ChainContributes(body: Body, rank: nat -> nat, chain: seq<Link>, s: Store)
    requires Ranked(body, rank) && Conducts(body, chain, s)
    ensures Truth(Contribution(body, rank, chain[0], s))
    decreases |chain|
  {
    if IsGate(body, chain[0].ref) {
      ChainContributes(body, rank, chain[1..], s);
      var n := body[chain[0].ref];
      FlowTruth(body, rank, n.links, rank(chain[0].ref), s);
      assert chain[1] in n.links;
    }
  }

  lemma {:induction false} ContributionHasChain(body: Body, rank: nat -> nat, l: Link, s: Store)
    returns (chain: seq<Link>)
    requires Ranked(body, rank) && IsSource(body, l) && Truth(Contribution(body, rank, l, s))
    ensures Conducts(body, chain, s) && chain[0] == l
    decreases if IsGate(body, l.ref) then rank(l.ref) + 1 else 0
  {
    if IsGate(body, l.ref) {
      var n := body[l.ref];
      FlowTruth(body, rank, n.links, rank(l.ref), s);
      var m :| m in n.links && IsSource(body, m) && Truth(Contribution(body, rank, m, s));
      var rest := ContributionHasChain(body, rank, m, s);
      chain := [l] + rest;
      assert chain[1..] == rest;
    } else {
      chain := [l];
    }
  }

  /** What reaches a connection is true exactly when some conducting path leads to it. */
  lemma {:induction false} FlowIsConduction(body: Body, rank: nat -> nat, links: seq<Link>, bound: nat, s: Store)
    requires Ranked(body, rank) && Below(body, rank, links, bound)
    ensures Truth(Flow(body, rank, links, bound, s)) <==> Reached(body, links, s)
  {
    FlowTruth(body, rank, links, bound, s);
    if Truth(Flow(body, rank, links, bound, s)) {
      var l :| l in links && IsSource(body, l) && Truth(Contribution(body, rank, l, s));
      var chain := ContributionHasChain(body, rank, l, s);
    }
    if Reached(body, links, s) {
      var chain :| Conducts(body, chain, s) && chain[0] in links;
      ChainContributes(body, rank, chain, s);
    }
  }

  // ----- The blocks whose outputs a connection reads

  ghost function LinkFeeders(body: Body, rank: nat -> nat, l: Link): set<nat>
    requires Ranked(body, rank)
    decreases if IsGate(body, l.ref) then rank(l.ref) + 1 else 0, 0
  {
    if IsBlock(body, l.ref) then {l.ref}
    else if IsGate(body, l.ref) then Feeders(body, rank, body[l.ref].links, rank(l.ref))
    else {}
  }

  ghost function Feeders(body: Body, rank: nat -> nat, links: seq<Link>, bound: nat): set<nat>
    requires Ranked(body, rank) && Below(body, rank, links, bound)
    decreases bound, 1
  {
    set l, b | l in links && b in LinkFeeders(body, rank, l) :: b
  }
}
