/**
 The statements the generator emits for an LD or FBD body, what running them does to a store, and why a
 well-scheduled program leaves every output with the value the dataflow graph denotes.
 */
module Emission {
  import opened Results
  import opened StText
  import opened Networks

  datatype Arg = Formal(pin: nat, text: seq<Token>) | Positional(text: seq<Token>)

  /** An assignment to the variable of a sink element, or a call that stores all outputs of a block. */
  datatype Stmt =
    | Assign(sink: nat, target: string, rhs: seq<Token>)
    | Call(block: nat, args: seq<Arg>, outs: nat)

  /**
   What a block computes for output `pin` from its inputs; for a function block, from its state at the start of the
   scan too.
   */
  type Library = (nat, map<nat, Value>, nat) -> Value

  // ----- Running a program

  function ArgValues(args: seq<Arg>, s: Store): map<nat, Value> {
    if args == [] then map[]
    else
      var n := |args| - 1;
      var a := args[n];
      ArgValues(args[..n], s)[(if a.Formal? then a.pin else n) := EvalText(a.text, s)]
  }

  function Step(st: Stmt, f: Library, s: Store): Store {
    match st
    case Assign(_, target, rhs) => s[Named(target) := EvalText(rhs, s)]
    case Call(b, args, outs) =>
      var inputs := ArgValues(args, s);
      s + (map v: Var | v in OutputVars(b, outs) :: f(b, inputs, v.pin))
  }

  function OutputVars(b: nat, outs: nat): (r: set<Var>)
    ensures forall v :: v in r ==> v.Output?
    ensures forall v :: v in r <==> v.Output? && v.block == b && v.pin < outs
  {
    set k: nat | k < outs :: Output(b, k)
  }

  function Run(p: seq<Stmt>, f: Library, s: Store): Store {
    if p == [] then s else Step(p[|p| - 1], f, Run(p[..|p| - 1], f, s))
  }

  // ----- What the graph asks of a statement

  /** The rank strictly decreases along gates and stays under `top`. */
  ghost predicate Layered(body: Body, rank: nat -> nat, top: nat) {
    Ranked(body, rank) && forall id :: IsGate(body, id) ==> rank(id) < top
  }

  ghost function PinValue(body: Body, rank: nat -> nat, top: nat, pin: InPin, s: Store): Value
    requires Layered(body, rank, top)
  {
    Modified(pin.negated, Flow(body, rank, pin.links, top, s))
  }

  predicate Wired(body: Body, pin: Option<InPin>) {
    pin.Some? && Live(body, pin.value.links) != []
  }

  ghost function InputValues(body: Body, rank: nat -> nat, top: nat, b: nat, s: Store): map<nat, Value>
    requires Layered(body, rank, top) && IsBlock(body, b)
  {
    var inputs := body[b].inputs;
    map k: nat | k < |inputs| && Wired(body, inputs[k]) :: PinValue(body, rank, top, inputs[k].value, s)
  }

  ghost function SinkValue(body: Body, rank: nat -> nat, top: nat, id: nat, s: Store): Value
    requires Layered(body, rank, top) && IsSink(body, id)
  {
    var v := Flow(body, rank, body[id].links, top, s);
    if body[id].Coil? then Modified(body[id].negated, v) else v
  }

  /** Contacts are on BOOL variables. */
  ghost predicate Typed(body: Body, s: Store) {
    forall id :: id in body && body[id].Contact? ==> Lookup(s, Named(body[id].name)).Bool?
  }

  /** The statement assigns to its sink, or passes to its block, exactly what reaches the element in any store. */
  ghost predicate Faithful(body: Body, rank: nat -> nat, top: nat, st: Stmt)
    requires Layered(body, rank, top)
  {
    match st
    case Assign(id, target, rhs) =>
      && IsSink(body, id) && target == body[id].name
      && forall s :: Typed(body, s) ==> EvalText(rhs, s) == SinkValue(body, rank, top, id, s)
    case Call(b, args, outs) =>
      && IsBlock(body, b) && outs == |body[b].outputs| && !Cancelled(body, b)
      && forall s :: Typed(body, s) ==> ArgValues(args, s) == InputValues(body, rank, top, b, s)
  }

  /** The blocks a statement reads. */
  ghost function Needs(body: Body, rank: nat -> nat, top: nat, st: Stmt): set<nat>
    requires Layered(body, rank, top)
  {
    match st
    case Assign(id, _, _) => if IsSink(body, id) then Feeders(body, rank, body[id].links, top) else {}
    case Call(b, _, _) => if IsBlock(body, b) then BlockFeeders(body, rank, top, b) else {}
  }

  ghost function BlockFeeders(body: Body, rank: nat -> nat, top: nat, b: nat): set<nat>
    requires Layered(body, rank, top) && IsBlock(body, b)
  {
    set pin, f | pin in body[b].inputs && pin.Some? && f in Feeders(body, rank, pin.value.links, top) :: f
  }

  ghost predicate Called(p: seq<Stmt>, b: nat) {
    exists st :: st in p && st.Call? && st.block == b
  }

  /** A function none of whose inputs has a pin is not called at all. */
  predicate Cancelled(body: Body, b: nat) {
    IsBlock(body, b) && body[b].kind.Function? && forall pin :: pin in body[b].inputs ==> pin.None?
  }

  ghost predicate Done(body: Body, p: seq<Stmt>, b: nat) {
    Called(p, b) || Cancelled(body, b)
  }

  /** No block is called twice and no sink assigned twice. */
  ghost predicate Once(p: seq<Stmt>) {
    forall i, j :: 0 <= i < j < |p| ==>
      && (p[i].Call? && p[j].Call? ==> p[i].block != p[j].block)
      && (p[i].Assign? && p[j].Assign? ==> p[i].sink != p[j].sink)
  }

  ghost predicate Ordered(body: Body, rank: nat -> nat, top: nat, p: seq<Stmt>)
    requires Layered(body, rank, top)
  {
    forall i, f :: 0 <= i < |p| && f in Needs(body, rank, top, p[i]) ==> Done(body, p[..i], f)
  }

  ghost predicate AllFaithful(body: Body, rank: nat -> nat, top: nat, p: seq<Stmt>)
    requires Layered(body, rank, top)
  {
    forall st :: st in p ==> Faithful(body, rank, top, st)
  }

  // ----- Names

  predicate NamedOnly(text: seq<Token>) {
    forall t :: t in text && t.Word? ==> t.v.Named?
  }

  /** The names an input variable's text or a contact reads. */
  predicate Reads(body: Body, x: string) {
    exists id :: id in body && match body[id]
                               case InVariable(text) => Word(Named(x)) in text
                               case Contact(name, _, _) => name == x
                               case _ => false
  }

  /** Names read are not names written, and no two sinks write the same name. */
  ghost predicate SeparateNames(body: Body) {
    && (forall id :: IsSink(body, id) ==> !Reads(body, body[id].name))
    && (forall i, j :: IsSink(body, i) && IsSink(body, j) && body[i].name == body[j].name ==> i == j)
    && (forall id :: id in body && body[id].InVariable? ==> NamedOnly(body[id].text))
  }

  ghost predicate SameInputs(body: Body, s: Store, t: Store) {
    forall x :: Reads(body, x) ==> Lookup(s, Named(x)) == Lookup(t, Named(x))
  }

  ghost predicate SameOutputs(body: Body, blocks: set<nat>, s: Store, t: Store) {
    forall b, k: nat :: b in blocks && IsBlock(body, b) && k < |body[b].outputs| ==>
      Lookup(s, Output(b, k)) == Lookup(t, Output(b, k))
  }

  // ----- A connection depends only on the names read and on its feeding blocks

  lemma {:induction false} ContributionFrame(body: Body, rank: nat -> nat, l: Link, s: Store, t: Store)
    requires Ranked(body, rank) && IsSource(body, l) && SeparateNames(body)
    requires SameInputs(body, s, t) && SameOutputs(body, LinkFeeders(body, rank, l), s, t)
    ensures Contribution(body, rank, l, s) == Contribution(body, rank, l, t)
    decreases if IsGate(body, l.ref) then rank(l.ref) + 1 else 0, 0
  {
    var n := body[l.ref];
    match n
    case LeftRail =>
    case InVariable(text) =>
      forall v | Word(v) in text
        ensures Lookup(s, v) == Lookup(t, v)
      {
        assert Reads(body, v.name);
      }
      TextFrame(text, s, t);
    case OutVariable(_, _) =>
    case Block(_, _, _) =>
    case Contact(name, _, links) =>
      assert Reads(body, name);
      FlowFrame(body, rank, links, rank(l.ref), s, t);
    case Coil(_, _, links) =>
      FlowFrame(body, rank, links, rank(l.ref), s, t);
  }

  lemma {:induction false} FlowFrame(body: Body, rank: nat -> nat, links: seq<Link>, bound: nat, s: Store, t: Store)
    requires Ranked(body, rank) && Below(body, rank, links, bound) && SeparateNames(body)
    requires SameInputs(body, s, t) && SameOutputs(body, Feeders(body, rank, links, bound), s, t)
    ensures Flow(body, rank, links, bound, s) == Flow(body, rank, links, bound, t)
    decreases bound, 1
  {
    forall l | l in Live(body, links)
      ensures Contribution(body, rank, l, s) == Contribution(body, rank, l, t)
    {
      ContributionFrame(body, rank, l, s, t);
    }
  }

  lemma InputFrame(body: Body, rank: nat -> nat, top: nat, b: nat, s: Store, t: Store)
    requires Layered(body, rank, top) && IsBlock(body, b) && SeparateNames(body)
    requires SameInputs(body, s, t) && SameOutputs(body, BlockFeeders(body, rank, top, b), s, t)
    ensures InputValues(body, rank, top, b, s) == InputValues(body, rank, top, b, t)
  {
    var inputs := body[b].inputs;
    forall k: nat | k < |inputs| && Wired(body, inputs[k])
      ensures PinValue(body, rank, top, inputs[k].value, s) == PinValue(body, rank, top, inputs[k].value, t)
    {
      assert inputs[k] in inputs;
      FlowFrame(body, rank, inputs[k].value.links, top, s, t);
    }
  }

  // ----- Running a well-scheduled program

  /** In this store every block that was called shows the outputs it computes from what reaches its inputs. */
  ghost predicate Settled(body: Body, rank: nat -> nat, top: nat, f: Library, b: nat, s: Store)
    requires Layered(body, rank, top) && IsBlock(body, b)
  {
    var inputs := InputValues(body, rank, top, b, s);
    forall k: nat :: k < |body[b].outputs| ==> Lookup(s, Output(b, k)) == f(b, inputs, k)
  }

  ghost predicate Solves(body: Body, rank: nat -> nat, top: nat, f: Library, s: Store)
    requires Layered(body, rank, top)
  {
    forall b :: IsBlock(body, b) ==> Settled(body, rank, top, f, b, s)
  }

  /** Nothing but the names of sinks and the outputs of called blocks was written. */
  ghost predicate OnlyWrites(body: Body, p: seq<Stmt>, s0: Store, s: Store) {
    && (forall x :: (forall st :: st in p && st.Assign? ==> st.target != x) ==>
          Lookup(s, Named(x)) == Lookup(s0, Named(x)))
    && (forall b, k :: !Called(p, b) ==> Lookup(s, Output(b, k)) == Lookup(s0, Output(b, k)))
  }

  ghost predicate Executed(body: Body, rank: nat -> nat, top: nat, f: Library, p: seq<Stmt>, s0: Store, s: Store)
    requires Layered(body, rank, top)
  {
    && (forall st :: st in p && st.Call? ==> IsBlock(body, st.block) && Settled(body, rank, top, f, st.block, s))
    && (forall st :: st in p && st.Assign? ==>
          IsSink(body, st.sink) && Lookup(s, Named(st.target)) == SinkValue(body, rank, top, st.sink, s))
    && OnlyWrites(body, p, s0, s)
  }

  lemma InputsKept(body: Body, rank: nat -> nat, top: nat, p: seq<Stmt>, s0: Store, s: Store)
    requires Layered(body, rank, top) && SeparateNames(body)
    requires AllFaithful(body, rank, top, p) && OnlyWrites(body, p, s0, s)
    ensures SameInputs(body, s0, s)
    ensures Typed(body, s0) ==> Typed(body, s)
  {
    forall x | Reads(body, x)
      ensures Lookup(s, Named(x)) == Lookup(s0, Named(x))
    {
      forall st | st in p && st.Assign?
        ensures st.target != x
      {
        assert Faithful(body, rank, top, st);
      }
    }
    forall id | id in body && body[id].Contact?
      ensures Lookup(s, Named(body[id].name)) == Lookup(s0, Named(body[id].name))
    {
      assert Reads(body, body[id].name);
    }
  }

  lemma StepWrites(body: Body, p: seq<Stmt>, st: Stmt, f: Library, s0: Store, s: Store)
    requires OnlyWrites(body, p, s0, s)
    ensures OnlyWrites(body, p + [st], s0, Step(st, f, s))
  {
    var p', t := p + [st], Step(st, f, s);
    assert st in p' && forall u :: u in p ==> u in p';
  }

  /** A later statement neither writes what an earlier one read nor what it wrote. */
  lemma StepKeeps(body: Body, rank: nat -> nat, top: nat, p: seq<Stmt>, i: nat, st: Stmt, f: Library, s: Store)
    requires Layered(body, rank, top) && SeparateNames(body) && i < |p|
    requires AllFaithful(body, rank, top, p + [st]) && Once(p + [st]) && Ordered(body, rank, top, p + [st])
    ensures SameInputs(body, s, Step(st, f, s))
    ensures SameOutputs(body, Needs(body, rank, top, p[i]), s, Step(st, f, s))
    ensures p[i].Call? ==> SameOutputs(body, {p[i].block}, s, Step(st, f, s))
    ensures p[i].Assign? ==> Lookup(s, Named(p[i].target)) == Lookup(Step(st, f, s), Named(p[i].target))
  {
    var all := p + [st];
    assert all[i] == p[i] && all[|p|] == st;
    assert p[i] in all && st in all;
    assert Faithful(body, rank, top, st) && Faithful(body, rank, top, p[i]);
    NotNeededBefore(body, rank, top, p, i, st);
    StepFrame(body, st, f, s, Needs(body, rank, top, p[i]));
    if p[i].Call? {
      StepFrame(body, st, f, s, {p[i].block});
    } else {
      TargetKept(body, p[i], st, f, s);
    }
  }

  /** A statement writes neither an input nor the outputs of blocks it does not call. */
  lemma StepFrame(body: Body, st: Stmt, f: Library, s: Store, blocks: set<nat>)
    requires SeparateNames(body) && (st.Assign? ==> IsSink(body, st.sink) && st.target == body[st.sink].name)
    requires st.Call? ==> st.block !in blocks
    ensures SameInputs(body, s, Step(st, f, s)) && SameOutputs(body, blocks, s, Step(st, f, s))
  {
  }

  lemma TargetKept(body: Body, earlier: Stmt, st: Stmt, f: Library, s: Store)
    requires SeparateNames(body) && earlier.Assign? && IsSink(body, earlier.sink)
    requires earlier.target == body[earlier.sink].name
    requires st.Assign? ==> IsSink(body, st.sink) && st.target == body[st.sink].name && st.sink != earlier.sink
    ensures Lookup(s, Named(earlier.target)) == Lookup(Step(st, f, s), Named(earlier.target))
  {
  }

  /** A block called last is none of those that an earlier statement needs. */
  lemma NotNeededBefore(body: Body, rank: nat -> nat, top: nat, p: seq<Stmt>, i: nat, st: Stmt)
    requires Layered(body, rank, top) && i < |p|
    requires Once(p + [st]) && Ordered(body, rank, top, p + [st]) && (st.Call? ==> !Cancelled(body, st.block))
    ensures st.Call? ==> st.block !in Needs(body, rank, top, p[i])
  {
    var all := p + [st];
    assert all[i] == p[i] && all[|p|] == st && all[..i] == p[..i];
    if st.Call? && st.block in Needs(body, rank, top, p[i]) {
      assert false;
    }
  }

  lemma StepNew(body: Body, rank: nat -> nat, top: nat, p: seq<Stmt>, st: Stmt, f: Library, s: Store)
    requires Layered(body, rank, top) && SeparateNames(body) && Typed(body, s)
    requires AllFaithful(body, rank, top, p + [st]) && Once(p + [st]) && Ordered(body, rank, top, p + [st])
    ensures st.Call? ==> IsBlock(body, st.block) && Settled(body, rank, top, f, st.block, Step(st, f, s))
    ensures st.Assign? ==> IsSink(body, st.sink) &&
                           Lookup(Step(st, f, s), Named(st.target))
                           == SinkValue(body, rank, top, st.sink, Step(st, f, s))
  {
    var all, t := p + [st], Step(st, f, s);
    assert all[|p|] == st && all[..|p|] == p && st in all;
    assert Faithful(body, rank, top, st);
    assert SameInputs(body, s, t);
    if st.Call? {
      forall b | b in Needs(body, rank, top, st)
        ensures b != st.block
      {
        assert Done(body, all[..|p|], b);
        if Called(p, b) {
          var u :| u in p && u.Call? && u.block == b;
          var j :| 0 <= j < |p| && p[j] == u;
          assert all[j] == u;
        }
      }
      assert SameOutputs(body, Needs(body, rank, top, st), s, t);
      InputFrame(body, rank, top, st.block, s, t);
    } else {
      FlowFrame(body, rank, body[st.sink].links, top, s, t);
    }
  }

  lemma {:induction false} RunExecutes(body: Body, rank: nat -> nat, top: nat, f: Library, p: seq<Stmt>, s0: Store)
    requires Layered(body, rank, top) && SeparateNames(body) && Typed(body, s0)
    requires AllFaithful(body, rank, top, p) && Once(p) && Ordered(body, rank, top, p)
    ensures Executed(body, rank, top, f, p, s0, Run(p, f, s0))
    decreases |p|
  {
    if p == [] {
      return;
    }
    var n := |p| - 1;
    var front, st := p[..n], p[n];
    assert p == front + [st];
    FrontOrdered(body, rank, top, front, st);
    RunExecutes(body, rank, top, f, front, s0);
    var s := Run(front, f, s0);
    InputsKept(body, rank, top, front, s0, s);
    StepWrites(body, front, st, f, s0, s);
    StepNew(body, rank, top, front, st, f, s);
    StaysExecuted(body, rank, top, f, front, st, s0, s);
  }

  lemma FrontOrdered(body: Body, rank: nat -> nat, top: nat, front: seq<Stmt>, st: Stmt)
    requires Layered(body, rank, top)
    requires AllFaithful(body, rank, top, front + [st]) && Once(front + [st]) && Ordered(body, rank, top, front + [st])
    ensures AllFaithful(body, rank, top, front) && Once(front) && Ordered(body, rank, top, front)
  {
    var p := front + [st];
    assert forall i :: 0 <= i <= |front| ==> front[..i] == p[..i];
    assert forall i :: 0 <= i < |front| ==> front[i] == p[i];
    assert forall u :: u in front ==> u in p;
  }

  /** What the earlier statements achieved, a further one leaves as it is. */
  lemma StaysExecuted(body: Body, rank: nat -> nat, top: nat, f: Library, front: seq<Stmt>, st: Stmt, s0: Store,
          s: Store)
    requires Layered(body, rank, top) && SeparateNames(body) && Executed(body, rank, top, f, front, s0, s)
    requires AllFaithful(body, rank, top, front + [st]) && Once(front + [st]) && Ordered(body, rank, top, front + [st])
    ensures forall u :: u in front && u.Call? ==>
              IsBlock(body, u.block) && Settled(body, rank, top, f, u.block, Step(st, f, s))
    ensures forall u :: u in front && u.Assign? ==>
              && IsSink(body, u.sink)
              && Lookup(Step(st, f, s), Named(u.target)) == SinkValue(body, rank, top, u.sink, Step(st, f, s))
  {
    var t := Step(st, f, s);
    forall u | u in front
      ensures u.Call? ==> Settled(body, rank, top, f, u.block, t)
      ensures u.Assign? ==> Lookup(t, Named(u.target)) == SinkValue(body, rank, top, u.sink, t)
    {
      var i :| 0 <= i < |front| && front[i] == u;
      StepKeeps(body, rank, top, front, i, st, f, s);
      if u.Call? {
        InputFrame(body, rank, top, u.block, s, t);
      } else {
        FlowFrame(body, rank, body[u.sink].links, top, s, t);
      }
    }
  }

  // ----- The value the graph denotes

  /** All links of an element. */
  ghost predicate HasLink(n: Node, l: Link) {
    match n
    case LeftRail => false
    case InVariable(_) => false
    case OutVariable(_, links) => l in links
    case Block(_, inputs, _) => exists pin :: pin in inputs && pin.Some? && l in pin.value.links
    case Contact(_, _, links) => l in links
    case Coil(_, _, links) => l in links
  }

  /** The wiring has no feedback: the rank decreases along every link. */
  ghost predicate Acyclic(body: Body, rank: nat -> nat) {
    forall id, l :: id in body && HasLink(body[id], l) ==> rank(l.ref) < rank(id)
  }

  ghost predicate AllBelow(rank: nat -> nat, links: seq<Link>, bound: nat) {
    forall l :: l in links ==> rank(l.ref) < bound
  }

  lemma {:induction false} FeedersBelow(body: Body, rank: nat -> nat, links: seq<Link>, bound: nat, low: nat)
    requires Ranked(body, rank) && Acyclic(body, rank) && Below(body, rank, links, bound) && AllBelow(rank, links, low)
    ensures forall b :: b in Feeders(body, rank, links, bound) ==> IsBlock(body, b) && rank(b) < low
    decreases bound
  {
    forall l, b | l in links && b in LinkFeeders(body, rank, l)
      ensures IsBlock(body, b) && rank(b) < low
    {
      if IsGate(body, l.ref) {
        var n := body[l.ref];
        assert forall m :: m in n.links ==> HasLink(n, m);
        FeedersBelow(body, rank, n.links, rank(l.ref), low);
      }
    }
  }

  lemma BlockFeedersBelow(body: Body, rank: nat -> nat, top: nat, b: nat)
    requires Layered(body, rank, top) && Acyclic(body, rank) && IsBlock(body, b)
    ensures forall f :: f in BlockFeeders(body, rank, top, b) ==> IsBlock(body, f) && rank(f) < rank(b)
  {
    var n := body[b];
    forall pin: Option<InPin>, f | pin in n.inputs && pin.Some? && f in Feeders(body, rank, pin.value.links, top)
      ensures IsBlock(body, f) && rank(f) < rank(b)
    {
      assert forall m :: m in pin.value.links ==> HasLink(n, m);
      FeedersBelow(body, rank, pin.value.links, top, rank(b));
    }
  }

  /** Without feedback the graph has one solution: outputs are determined by the names read. */
  lemma {:induction false} SolutionUnique(body: Body, rank: nat -> nat, top: nat, f: Library, s: Store, t: Store,
          b: nat)
    requires Layered(body, rank, top) && Acyclic(body, rank) && SeparateNames(body)
    requires Solves(body, rank, top, f, s) && Solves(body, rank, top, f, t) && SameInputs(body, s, t)
    requires IsBlock(body, b)
    ensures forall k: nat :: k < |body[b].outputs| ==> Lookup(s, Output(b, k)) == Lookup(t, Output(b, k))
    decreases rank(b)
  {
    BlockFeedersBelow(body, rank, top, b);
    forall c | c in BlockFeeders(body, rank, top, b)
      ensures forall k: nat :: k < |body[c].outputs| ==> Lookup(s, Output(c, k)) == Lookup(t, Output(c, k))
    {
      SolutionUnique(body, rank, top, f, s, t, c);
    }
    InputFrame(body, rank, top, b, s, t);
    assert Settled(body, rank, top, f, b, s) && Settled(body, rank, top, f, b, t);
  }

  /** The store gives the names read their values in `s0`, and every output the value that the graph asks for. */
  ghost predicate Denotes(body: Body, rank: nat -> nat, top: nat, f: Library, s0: Store, d: Store)
    requires Layered(body, rank, top)
  {
    Solves(body, rank, top, f, d) && SameInputs(body, s0, d)
  }

  ghost predicate AssignsSink(p: seq<Stmt>, id: nat) {
    exists st :: st in p && st.Assign? && st.sink == id
  }

  /** When every block was called, the store after the run solves the graph; every sink assigned has its value in it. */
  lemma RunSolves(body: Body, rank: nat -> nat, top: nat, f: Library, p: seq<Stmt>, s0: Store)
    requires Layered(body, rank, top) && SeparateNames(body) && Typed(body, s0)
    requires AllFaithful(body, rank, top, p) && Once(p) && Ordered(body, rank, top, p)
    requires forall b :: IsBlock(body, b) ==> Called(p, b)
    ensures var s := Run(p, f, s0);
            && Denotes(body, rank, top, f, s0, s)
            && forall id :: IsSink(body, id) && AssignsSink(p, id) ==>
                 Lookup(s, Named(body[id].name)) == SinkValue(body, rank, top, id, s)
  {
    var s := Run(p, f, s0);
    RunExecutes(body, rank, top, f, p, s0);
    InputsKept(body, rank, top, p, s0, s);
    forall b | IsBlock(body, b)
      ensures Settled(body, rank, top, f, b, s)
    {
      var st :| st in p && st.Call? && st.block == b;
    }
    forall id | IsSink(body, id) && AssignsSink(p, id)
      ensures Lookup(s, Named(body[id].name)) == SinkValue(body, rank, top, id, s)
    {
      var st :| st in p && st.Assign? && st.sink == id;
      assert Faithful(body, rank, top, st);
    }
  }

  /** What the graph denotes for the names read: all stores that solve it agree on every output and every sink. */
  lemma DenotationUnique(body: Body, rank: nat -> nat, top: nat, f: Library, s0: Store, s: Store, d: Store)
    requires Layered(body, rank, top) && Acyclic(body, rank) && SeparateNames(body)
    requires Denotes(body, rank, top, f, s0, s) && Denotes(body, rank, top, f, s0, d)
    ensures SameOutputs(body, body.Keys, s, d)
    ensures forall id :: IsSink(body, id) ==> SinkValue(body, rank, top, id, s) == SinkValue(body, rank, top, id, d)
  {
    forall b | IsBlock(body, b)
      ensures forall k: nat :: k < |body[b].outputs| ==> Lookup(s, Output(b, k)) == Lookup(d, Output(b, k))
    {
      SolutionUnique(body, rank, top, f, s, d, b);
    }
    forall id | IsSink(body, id)
      ensures SinkValue(body, rank, top, id, s) == SinkValue(body, rank, top, id, d)
    {
      FlowFrame(body, rank, body[id].links, top, s, d);
    }
  }

  /** The store gives every output and every assigned sink the value the graph denotes, which is the only one. */
  ghost predicate HoldsDenotation(body: Body, rank: nat -> nat, top: nat, f: Library, p: seq<Stmt>, s0: Store, s: Store)
    requires Layered(body, rank, top)
  {
    && Denotes(body, rank, top, f, s0, s)
    && forall d :: Denotes(body, rank, top, f, s0, d) ==>
         && SameOutputs(body, body.Keys, s, d)
         && forall id :: IsSink(body, id) && AssignsSink(p, id) ==>
              Lookup(s, Named(body[id].name)) == SinkValue(body, rank, top, id, d)
  }

  /**
   The main result for a finished program: the graph has a solution for the names read, which is unique, and
   running the program gives every output and every assigned sink its value in it.
   */
  lemma RunDenotes(body: Body, rank: nat -> nat, top: nat, f: Library, p: seq<Stmt>, s0: Store)
    requires Layered(body, rank, top) && Acyclic(body, rank) && SeparateNames(body) && Typed(body, s0)
    requires AllFaithful(body, rank, top, p) && Once(p) && Ordered(body, rank, top, p)
    requires forall b :: IsBlock(body, b) ==> Called(p, b)
    ensures HoldsDenotation(body, rank, top, f, p, s0, Run(p, f, s0))
  {
    var s := Run(p, f, s0);
    RunSolves(body, rank, top, f, p, s0);
    forall d | Denotes(body, rank, top, f, s0, d)
      ensures SameOutputs(body, body.Keys, s, d)
      ensures forall id :: IsSink(body, id) ==> SinkValue(body, rank, top, id, s) == SinkValue(body, rank, top, id, d)
    {
      DenotationUnique(body, rank, top, f, s0, s, d);
    }
  }
}
