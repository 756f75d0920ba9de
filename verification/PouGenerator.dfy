/**
 The generator for the body of one program organisation unit in LD or FBD: it walks the network
 backwards from each sink and each block, emits every block call once, and prints every connection.
 */
module PouGenerator {
  import opened Results
  import opened StText
  import opened Paths
  import opened PathOrder
  import opened Networks
  import opened Emission
  import opened Scans
  import opened PathTexts
  import opened Factorization

  /**
   The generator's exceptions: a contact nothing leads to, a link to an output the block does not have, paths that
   cannot be sorted, and a function that has nothing to assign its result to.
   */
  datatype Fault =
    | UnconnectedContact(id: nat)
    | MissingOutput(block: nat, pin: nat)
    | Unsortable(links: seq<Link>)
    | NoOutput(block: nat)

  ghost predicate Genuine(body: Body, rank: nat -> nat, top: nat, before: Before, f: Fault)
    requires Layered(body, rank, top)
  {
    match f
    case UnconnectedContact(id) => id in body && body[id].Contact? && Live(body, body[id].links) == []
    case MissingOutput(b, pin) => IsBlock(body, b) && pin >= |body[b].outputs|
    case Unsortable(links) => Below(body, rank, links, top) && !Joinable(body, rank, before, links, top)
    case NoOutput(b) =>
      && IsBlock(body, b) && body[b].kind.Function? && body[b].outputs == []
      && exists pin :: pin in body[b].inputs && pin.Some?
  }

  /** The paths of the connection's sources can be sorted, if there are several. */
  ghost predicate Joinable(body: Body, rank: nat -> nat, before: Before, links: seq<Link>, bound: nat)
    requires Ranked(body, rank) && Below(body, rank, links, bound)
  {
    |Live(body, links)| > 1 ==> Sortable(PathsOf(body, rank, before, links, bound), before)
  }

  /** A function that is called has an output. */
  predicate CanAssign(n: Node)
    requires n.Block?
  {
    n.kind.FunctionBlock? || n.outputs != [] || forall pin :: pin in n.inputs ==> pin.None?
  }

  /** Nothing on the way back from the link, up to blocks, makes the generator stop. */
  ghost predicate LinkFine(body: Body, rank: nat -> nat, before: Before, l: Link)
    requires Ranked(body, rank)
    decreases if IsGate(body, l.ref) then rank(l.ref) + 1 else 0
  {
    l.ref in body ==>
      match body[l.ref]
      case Contact(_, _, links) =>
        && Live(body, links) != [] && Joinable(body, rank, before, links, rank(l.ref))
        && forall m :: m in links ==> LinkFine(body, rank, before, m)
      case Coil(_, _, links) => forall m :: m in links ==> LinkFine(body, rank, before, m)
      case Block(_, _, outputs) => l.pin < |outputs|
      case _ => true
  }

  ghost predicate LinksFine(body: Body, rank: nat -> nat, before: Before, links: seq<Link>)
    requires Ranked(body, rank)
  {
    forall l :: l in links ==> LinkFine(body, rank, before, l)
  }

  /** Nor does the connection itself. */
  ghost predicate ConnectionFine(body: Body, rank: nat -> nat, top: nat, before: Before, links: seq<Link>)
    requires Layered(body, rank, top)
  {
    LinksFine(body, rank, before, links) && Joinable(body, rank, before, links, top)
  }

  ghost predicate PinsFine(body: Body, rank: nat -> nat, top: nat, before: Before, b: nat)
    requires Layered(body, rank, top) && IsBlock(body, b)
  {
    forall pin :: pin in body[b].inputs && pin.Some? ==> ConnectionFine(body, rank, top, before, pin.value.links)
  }

  ghost predicate BlockFine(body: Body, rank: nat -> nat, top: nat, before: Before, b: nat)
    requires Layered(body, rank, top) && IsBlock(body, b)
  {
    PinsFine(body, rank, top, before, b) && CanAssign(body[b])
  }

  ghost predicate BlocksFine(body: Body, rank: nat -> nat, top: nat, before: Before)
    requires Layered(body, rank, top)
  {
    forall b :: IsBlock(body, b) ==> BlockFine(body, rank, top, before, b)
  }

  /** No fault can be reached from a sink or from an input of a block. */
  ghost predicate BodyFine(body: Body, rank: nat -> nat, top: nat, before: Before)
    requires Layered(body, rank, top)
  {
    && BlocksFine(body, rank, top, before)
    && forall id :: IsSink(body, id) ==> ConnectionFine(body, rank, top, before, body[id].links)
  }

  /** Outside the blocks being generated, exactly the blocks already visited are done. */
  ghost predicate ProgramOk(body: Body, rank: nat -> nat, top: nat, acyclic: bool,
                            program: seq<Stmt>, computed: set<nat>, open: set<nat>)
    requires Layered(body, rank, top)
  {
    && open <= computed <= body.Keys
    && (forall b :: b in computed ==> IsBlock(body, b))
    && (forall b :: b in computed - open ==> Done(body, program, b))
    && (forall st :: st in program && st.Call? ==> st.block in computed - open)
    && Once(program)
    && (acyclic ==> Ordered(body, rank, top, program))
    && (Sound(body, rank) ==> AllFaithful(body, rank, top, program))
    && (forall st :: st in program ==> Passed(body, rank, top, st))
  }

  /** The call gives the block's inputs what reaches them, and no others. */
  ghost predicate HandsOver(body: Body, rank: nat -> nat, top: nat, call: Stmt)
    requires Layered(body, rank, top) && call.Call? && IsBlock(body, call.block)
  {
    forall s :: Typed(body, s) ==> ArgValues(call.args, s) == InputValues(body, rank, top, call.block, s)
  }

  /**
   The call of a function block, of a function with several outputs, or of one with an input that has no pin, names all
   its arguments and hands over what it should. Every other function has one output and a pin for every input; it is
   called by position, which hands over what it should exactly if its wired inputs are the first ones.
   */
  ghost predicate Passed(body: Body, rank: nat -> nat, top: nat, st: Stmt)
    requires Layered(body, rank, top)
  {
    st.Call? && IsBlock(body, st.block) ==>
      var n := body[st.block];
      if n.kind.FunctionBlock? || |n.outputs| > 1 || (exists pin :: pin in n.inputs && pin.None?) then
        && (forall a :: a in st.args ==> a.Formal?)
        && (Regular(body, rank) ==> HandsOver(body, rank, top, st))
      else
        && |n.outputs| == 1 && (forall a :: a in st.args ==> a.Positional?)
        && (Regular(body, rank) ==> forall s :: Typed(body, s) ==>
              (ArgValues(st.args, s) == InputValues(body, rank, top, st.block, s) <==> PrefixWired(body, n.inputs)))
  }

  ghost predicate Sound(body: Body, rank: nat -> nat)
    requires Ranked(body, rank)
  {
    Regular(body, rank) && forall b :: IsBlock(body, b) ==> BindsRight(body, b)
  }

  lemma CallEmitted(body: Body, rank: nat -> nat, top: nat, acyclic: bool,
                    program: seq<Stmt>, computed: set<nat>, open: set<nat>, call: Stmt)
    requires Layered(body, rank, top) && ProgramOk(body, rank, top, acyclic, program, computed, open)
    requires call.Call? && call.block in open
    requires acyclic ==> forall f :: f in Needs(body, rank, top, call) ==> Done(body, program, f)
    requires Sound(body, rank) ==> Faithful(body, rank, top, call)
    requires Passed(body, rank, top, call)
    ensures ProgramOk(body, rank, top, acyclic, program + [call], computed, open - {call.block})
  {
    Grow(body, rank, top, program, call);
    var after := program + [call];
    assert call in after && forall st :: st in program ==> st in after;
    forall b | b in computed - (open - {call.block})
      ensures Done(body, after, b)
    {
      if b != call.block && !Cancelled(body, b) {
        assert Done(body, program, b);
      }
    }
  }

  lemma AssignEmitted(body: Body, rank: nat -> nat, top: nat, acyclic: bool,
                      program: seq<Stmt>, computed: set<nat>, open: set<nat>, assign: Stmt)
    requires Layered(body, rank, top) && ProgramOk(body, rank, top, acyclic, program, computed, open)
    requires assign.Assign? && forall st :: st in program && st.Assign? ==> st.sink != assign.sink
    requires acyclic ==> forall f :: f in Needs(body, rank, top, assign) ==> Done(body, program, f)
    requires Sound(body, rank) ==> Faithful(body, rank, top, assign)
    ensures ProgramOk(body, rank, top, acyclic, program + [assign], computed, open)
  {
    Grow(body, rank, top, program, assign);
    var after := program + [assign];
    assert forall st :: st in program ==> st in after;
    forall b | b in computed - open
      ensures Done(body, after, b)
    {
      assert Done(body, program, b);
    }
  }

  /** Order is kept when a statement whose needs are done is appended. */
  lemma Grow(body: Body, rank: nat -> nat, top: nat, program: seq<Stmt>, st: Stmt)
    requires Layered(body, rank, top)
    ensures (&& Ordered(body, rank, top, program)
             && forall f :: f in Needs(body, rank, top, st) ==> Done(body, program, f))
        ==> Ordered(body, rank, top, program + [st])
    ensures (Once(program) && (st.Call? ==> !Called(program, st.block))
             && (st.Assign? ==> forall u :: u in program && u.Assign? ==> u.sink != st.sink))
        ==> Once(program + [st])
  {
    var after := program + [st];
    assert forall i :: 0 <= i <= |program| ==> after[..i] == program[..i];
    assert program[..|program|] == program;
    assert forall i :: 0 <= i < |program| ==> program[i] in program;
  }

  /**
   The paths are those of the links' sources, in order; nothing is wrong on the way back from the links; and in a
   regular body every path means what its source contributes.
   */
  ghost predicate Collected(body: Body, rank: nat -> nat, before: Before, links: seq<Link>, bound: nat,
                            paths: seq<Path>)
    requires Ranked(body, rank) && Below(body, rank, links, bound)
  {
    && paths == PathsOf(body, rank, before, links, bound)
    && LinksFine(body, rank, before, links)
    && (Regular(body, rank) && SingleCoils(body, links) ==> PathsFor(body, rank, Live(body, links), paths))
  }

  lemma PathCollected(body: Body, rank: nat -> nat, before: Before, links: seq<Link>, k: nat, bound: nat,
                      paths: seq<Path>, path: Option<Path>)
    requires Ranked(body, rank) && Below(body, rank, links, bound) && k < |links|
    requires Below(body, rank, links[..k], bound) && Collected(body, rank, before, links[..k], bound, paths)
    requires LinkFine(body, rank, before, links[k])
    requires path == if IsSource(body, links[k]) then Some(PathOf(body, rank, before, links[k])) else None
    requires path.Some? && Regular(body, rank) && SingleCoil(body, links[k]) ==>
               PathFor(body, rank, links[k], path.value)
    ensures Below(body, rank, links[..k + 1], bound)
    ensures Collected(body, rank, before, links[..k + 1], bound, if path.Some? then paths + [path.value] else paths)
  {
    LiveAppend(body, links, k);
    PathsOfAppend(body, rank, before, links, k, bound);
    OneMoreLink(links, k);
    if path.Some? && Regular(body, rank) && SingleCoils(body, links[..k + 1]) {
      PathAppended(body, rank, Live(body, links[..k]), paths, links[k], path.value);
    }
  }

  lemma NextFeeders(body: Body, rank: nat -> nat, links: seq<Link>, k: nat, bound: nat)
    requires Ranked(body, rank) && Below(body, rank, links, bound) && k < |links|
    ensures Below(body, rank, links[..k], bound) && Below(body, rank, links[..k + 1], bound)
    ensures Feeders(body, rank, links[..k + 1], bound)
         == Feeders(body, rank, links[..k], bound) + LinkFeeders(body, rank, links[k])
  {
    OneMoreLink(links, k);
  }

  lemma AllFeeders(body: Body, rank: nat -> nat, links: seq<Link>, bound: nat)
    requires Ranked(body, rank) && Below(body, rank, links, bound)
    ensures forall l :: l in links ==> LinkFeeders(body, rank, l) <= Feeders(body, rank, links, bound)
  {
  }

  lemma OneMoreLink(links: seq<Link>, k: nat)
    requires k < |links|
    ensures forall l :: l in links[..k + 1] <==> l in links[..k] || l == links[k]
  {
    assert links[..k + 1] == links[..k] + [links[k]];
  }

  class PouProgramGenerator {
    const body: Body
    // How the strings that stand for operands are ordered.
    const before: Before
    // Why the walk ends: ranks of the gates; and, when acyclic, ranks that fall along every link.
    ghost const rank: nat -> nat
    ghost const top: nat
    ghost const acyclic: bool

    var program: seq<Stmt>
    var computedBlocks: set<nat>
    var warnings: seq<nat>
    ghost var open: set<nat>

    ghost predicate Valid()
      reads this
    {
      && Layered(body, rank, top)
      && (acyclic ==> Acyclic(body, rank))
      && ProgramOk(body, rank, top, acyclic, program, computedBlocks, open)
      && forall b :: b in computedBlocks - open ==> BlockFine(body, rank, top, before, b)
    }

    constructor (body: Body, before: Before, ghost rank: nat -> nat, ghost top: nat, ghost acyclic: bool)
      requires Layered(body, rank, top) && (acyclic ==> Acyclic(body, rank))
      ensures Valid() && program == [] && computedBlocks == {} && open == {} && warnings == []
      ensures this.body == body && this.before == before
      ensures this.acyclic == acyclic && this.rank == rank && this.top == top
    {
      this.body, this.before, this.rank, this.top, this.acyclic := body, before, rank, top, acyclic;
      program, computedBlocks, warnings, open := [], {}, [], {};
    }

    /** Blocks under generation lie above everything still to be walked, so no walk can come back to them. */
    ghost predicate Clear(links: seq<Link>, low: nat)
      reads this
    {
      acyclic ==> AllBelow(rank, links, low) && forall c :: c in open ==> low <= rank(c)
    }

    /** Only calls were added to the program, and only blocks to the visited ones. */
    twostate predicate Extended()
      reads this
    {
      && Valid() && open == old(open) && old(computedBlocks) <= computedBlocks
      && old(program) <= program && CallsFrom(program, |old(program)|)
    }

    ghost predicate Visited(links: seq<Link>)
      requires Ranked(body, rank)
      reads this
    {
      forall l :: l in links ==> LinkFeeders(body, rank, l) <= computedBlocks
    }

    method GeneratePaths(links: seq<Link>, ghost bound: nat, ghost low: nat) returns (r: Result<seq<Path>, Fault>)
      requires Valid() && Below(body, rank, links, bound) && Clear(links, low)
      modifies this
      ensures r.Err? ==> Genuine(body, rank, top, before, r.error)
      ensures r.Err? ==> !(LinksFine(body, rank, before, links) && BlocksFine(body, rank, top, before))
      ensures r.Ok? ==> Extended() && Visited(links) && Collected(body, rank, before, links, bound, r.value)
      decreases body.Keys - computedBlocks, bound, 3
    {
      var paths: seq<Path> := [];
      for k := 0 to |links|
        invariant Extended() && Below(body, rank, links[..k], bound)
        invariant Feeders(body, rank, links[..k], bound) <= computedBlocks
        invariant Collected(body, rank, before, links[..k], bound, paths)
      {
        var path :- GeneratePath(links[k], bound, low);
        PathCollected(body, rank, before, links, k, bound, paths, path);
        NextFeeders(body, rank, links, k, bound);
        if path.Some? {
          paths := paths + [path.value];
        }
      }
      assert links[..|links|] == links;
      AllFeeders(body, rank, links, bound);
      return Ok(paths);
    }

    /** One turn of the loop over connections: the path of one link, if there is something at its other end. */
    method GeneratePath(l: Link, ghost bound: nat, ghost low: nat) returns (r: Result<Option<Path>, Fault>)
      requires Valid() && Below(body, rank, [l], bound) && Clear([l], low)
      modifies this
      ensures r.Err? ==> Genuine(body, rank, top, before, r.error)
      ensures r.Err? ==> !(LinkFine(body, rank, before, l) && BlocksFine(body, rank, top, before))
      ensures r.Ok? ==> Extended() && LinkFeeders(body, rank, l) <= computedBlocks && LinkFine(body, rank, before, l)
      ensures r.Ok? ==> r.value == if IsSource(body, l) then Some(PathOf(body, rank, before, l)) else None
      ensures r.Ok? && r.value.Some? && Regular(body, rank) && SingleCoil(body, l) ==>
                PathFor(body, rank, l, r.value.value)
      decreases body.Keys - computedBlocks, bound, 2
    {
      if l.ref !in body {
        return Ok(None);
      }
      var n := body[l.ref];
      match n
      case LeftRail =>
        return Ok(Some(Rail));
      case InVariable(text) =>
        return Ok(Some(Atom(l.ref, text)));
      case OutVariable(_, _) =>
        return Ok(None);
      case Block(_, _, outputs) =>
        var _ :- GenerateBlock(l.ref, Some(l));
        OutputPath(body, rank, l);
        return Ok(Some(Atom(l.ref, Operand(Output(l.ref, l.pin), outputs[l.pin]))));
      case Contact(_, _, _) =>
        var path :- GenerateContact(l, low);
        return Ok(Some(path));
      case Coil(_, _, links) =>
        GateLinks(body, rank, l.ref);
        var result :- GeneratePaths(links, rank(l.ref), low);
        if Regular(body, rank) && SingleCoil(body, l) {
          CoilContribution(body, rank, l, result);
        }
        return Ok(Some(Series(result)));
    }

    /** The path of a contact, behind those that lead to it. */
    method GenerateContact(l: Link, ghost low: nat) returns (r: Result<Path, Fault>)
      requires Valid() && l.ref in body && body[l.ref].Contact? && Clear([l], low)
      modifies this
      ensures r.Err? ==> Genuine(body, rank, top, before, r.error)
      ensures r.Err? ==> !(LinkFine(body, rank, before, l) && BlocksFine(body, rank, top, before))
      ensures r.Ok? ==> Extended() && LinkFeeders(body, rank, l) <= computedBlocks && LinkFine(body, rank, before, l)
      ensures r.Ok? ==> r.value == PathOf(body, rank, before, l)
      ensures r.Ok? && Regular(body, rank) ==> PathFor(body, rank, l, r.value)
      decreases body.Keys - computedBlocks, rank(l.ref), 4
    {
      var n := body[l.ref];
      GateLinks(body, rank, l.ref);
      var result :- GeneratePaths(n.links, rank(l.ref), low);
      if |result| == 0 {
        return Err(UnconnectedContact(l.ref));
      }
      var joined :- Join(n.links, result, rank(l.ref));
      if Regular(body, rank) {
        ContactContribution(body, rank, l, result, joined);
      }
      return Ok(ContactPath(Atom(l.ref, Operand(Named(n.name), n.negated)), result, joined));
    }

    /** Factorizes the paths of a connection, if there are several. */
    method Join(links: seq<Link>, paths: seq<Path>, ghost bound: nat) returns (r: Result<seq<Path>, Fault>)
      requires Layered(body, rank, top) && bound <= top && Below(body, rank, links, bound)
      requires paths == PathsOf(body, rank, before, links, bound)
      ensures r.Err? <==> !Joinable(body, rank, before, links, bound)
      ensures r.Err? ==> Genuine(body, rank, top, before, r.error)
      ensures r.Ok? ==> r.value == Joined(paths, before) && Content(paths, r.value)
    {
      if |paths| <= 1 {
        StartContent(paths, paths);
        return Ok(paths);
      }
      var factorized := FactorizePaths(paths, before);
      if factorized.Err? {
        return Err(Unsortable(links));
      }
      return Ok(factorized.value);
    }

    /** The text of a connection, if anything is connected. */
    method ComputeExpression(links: seq<Link>, ghost low: nat) returns (r: Result<Option<seq<Token>>, Fault>)
      requires Valid() && Clear(links, low)
      modifies this
      ensures r.Err? ==> Genuine(body, rank, top, before, r.error)
      ensures r.Err? ==> !(ConnectionFine(body, rank, top, before, links) && BlocksFine(body, rank, top, before))
      ensures r.Ok? ==> Extended() && Visited(links) && ConnectionFine(body, rank, top, before, links)
      ensures r.Ok? ==> r.value.Some? == (Live(body, links) != [])
      ensures r.Ok? && r.value.Some? && Regular(body, rank) && SingleCoils(body, links) ==>
                && TextFor(body, rank, top, links, r.value.value)
                && forall s :: Typed(body, s) ==> Truth(EvalText(r.value.value, s)) == Reached(body, links, s)
      decreases body.Keys - computedBlocks, top, 4
    {
      var paths :- GeneratePaths(links, top, low);
      if |paths| == 0 {
        return Ok(None);
      }
      var joined :- Join(links, paths, top);
      PrintedConnection(body, rank, top, links, paths, joined);
      return Ok(Some(ComputePaths(ConnectionPath(paths, joined), true)));
    }

    /**
     Emits the call of a block unless it was emitted before, and all calls feeding it before that. The block
     is marked before its inputs are walked, so a feedback loop stops here.
     */
    method GenerateBlock(b: nat, link: Option<Link>) returns (r: Result<(), Fault>)
      requires Valid() && IsBlock(body, b) && (link.Some? ==> link.value.ref == b)
      requires acyclic ==> forall c :: c in open ==> rank(b) < rank(c)
      modifies this
      ensures r.Err? ==>
                && Genuine(body, rank, top, before, r.error)
                && ((link.Some? && link.value.pin >= |body[b].outputs|) || !BlocksFine(body, rank, top, before))
      ensures r.Ok? ==> Extended() && b in computedBlocks
      ensures r.Ok? && link.Some? ==> link.value.pin < |body[b].outputs|
      decreases body.Keys - computedBlocks, 0, 1
    {
      if b !in computedBlocks {
        Marked(b);
        computedBlocks, open := computedBlocks + {b}, open + {b};
        var connected :- GenerateInputs(b);
        if !CanAssign(body[b]) {
          return Err(NoOutput(b));
        }
        EmitCall(b, connected);
      }
      if link.Some? && link.value.pin >= |body[b].outputs| {
        return Err(MissingOutput(b, link.value.pin));
      }
      return Ok(());
    }

    /** Emits the call, or a warning for a function without a pin, and closes the block. */
    method EmitCall(b: nat, connected: seq<(nat, seq<Token>)>)
      requires Valid() && IsBlock(body, b) && b in open
      requires acyclic ==> forall c :: c in open ==> rank(b) <= rank(c)
      requires forall pin :: pin in body[b].inputs && pin.Some? ==> Visited(pin.value.links)
      requires BlockFine(body, rank, top, before, b)
      requires Regular(body, rank) ==> ArgsFor(body, rank, top, body[b].inputs, |body[b].inputs|, connected)
      modifies this
      ensures Valid() && open == old(open) - {b} && computedBlocks == old(computedBlocks)
      ensures |program| == |old(program)| + if Cancelled(body, b) then 0 else 1
      ensures !Cancelled(body, b) ==> IsCall(program[|old(program)|], b)
      ensures old(program) <= program && CallsFrom(program, |old(program)|)
    {
      if body[b].kind.Function? && forall pin :: pin in body[b].inputs ==> pin.None? {
        warnings := warnings + [b];
        open := open - {b};
      } else {
        var args := if NamesInputs(body[b]) then FormalArgs(connected) else PositionalArgs(connected);
        var call := Call(b, args, |body[b].outputs|);
        CallReady(call, connected);
        CallEmitted(body, rank, top, acyclic, program, computedBlocks, open, call);
        program, open := program + [call], open - {b};
      }
    }

    /** Walks the wired inputs of a block that was just marked; returns their indices and texts. */
    method GenerateInputs(b: nat) returns (r: Result<seq<(nat, seq<Token>)>, Fault>)
      requires Valid() && IsBlock(body, b) && b in open
      requires acyclic ==> forall c :: c in open ==> rank(b) <= rank(c)
      modifies this
      ensures r.Err? ==> Genuine(body, rank, top, before, r.error) && !BlocksFine(body, rank, top, before)
      ensures r.Ok? ==> Extended() && PinsFine(body, rank, top, before, b)
      ensures r.Ok? ==> forall pin :: pin in body[b].inputs && pin.Some? ==> Visited(pin.value.links)
      ensures r.Ok? && Regular(body, rank) ==>
                ArgsFor(body, rank, top, body[b].inputs, |body[b].inputs|, r.value)
      decreases body.Keys - computedBlocks, top, 6
    {
      var inputs := body[b].inputs;
      var connected: seq<(nat, seq<Token>)> := [];
      for k := 0 to |inputs|
        invariant Extended()
        invariant AllWalked(inputs, k)
        invariant Regular(body, rank) ==> ArgsFor(body, rank, top, inputs, k, connected)
      {
        var text :- GenerateInput(b, k);
        ArgCollected(body, rank, top, inputs, k, connected, text);
        if text.Some? {
          var arg: (nat, seq<Token>) := (k, PinText(inputs[k].value, text.value));
          connected := connected + [arg];
        }
      }
      PinsWalked(b);
      return Ok(connected);
    }

    lemma PinsWalked(b: nat)
      requires Layered(body, rank, top) && IsBlock(body, b) && AllWalked(body[b].inputs, |body[b].inputs|)
      ensures PinsFine(body, rank, top, before, b)
      ensures forall pin :: pin in body[b].inputs && pin.Some? ==> Visited(pin.value.links)
    {
      forall pin | pin in body[b].inputs
        ensures Walked(pin)
      {
        var i :| 0 <= i < |body[b].inputs| && body[b].inputs[i] == pin;
      }
    }

    /** What the input reads was generated, and nothing is wrong on the way. */
    ghost predicate Walked(input: Option<InPin>)
      requires Layered(body, rank, top)
      reads this
    {
      input.Some? ==> Visited(input.value.links) && ConnectionFine(body, rank, top, before, input.value.links)
    }

    ghost predicate AllWalked(inputs: seq<Option<InPin>>, k: nat)
      requires Layered(body, rank, top) && k <= |inputs|
      reads this
    {
      forall i :: 0 <= i < k ==> Walked(inputs[i])
    }

    /** The text of one input, if it has a pin and something is connected to it. */
    method GenerateInput(b: nat, k: nat) returns (r: Result<Option<seq<Token>>, Fault>)
      requires Valid() && IsBlock(body, b) && b in open && k < |body[b].inputs|
      requires acyclic ==> forall c :: c in open ==> rank(b) <= rank(c)
      requires AllWalked(body[b].inputs, k)
      modifies this
      ensures r.Err? ==> Genuine(body, rank, top, before, r.error) && !BlocksFine(body, rank, top, before)
      ensures r.Ok? ==> Extended()
      ensures r.Ok? ==> r.value.Some? == Wired(body, body[b].inputs[k])
      ensures r.Ok? ==> AllWalked(body[b].inputs, k + 1)
      ensures r.Ok? && r.value.Some? && Regular(body, rank) ==>
                TextFor(body, rank, top, body[b].inputs[k].value.links, r.value.value)
      decreases body.Keys - computedBlocks, top, 5
    {
      if body[b].inputs[k].None? {
        return Ok(None);
      }
      PinLinks(body, rank, b, k);
      r := ComputeExpression(body[b].inputs[k].value.links, rank(b));
    }

    /** Assigns a sink what reaches it; a sink nothing is connected to is passed over. */
    method GenerateSink(id: nat) returns (r: Result<(), Fault>)
      requires Valid() && IsSink(body, id) && open == {} && id !in AssignedSinks(program)
      modifies this
      ensures r.Err? ==> Genuine(body, rank, top, before, r.error) && !BodyFine(body, rank, top, before)
      ensures r.Ok? ==> ConnectionFine(body, rank, top, before, body[id].links)
      ensures r.Ok? ==> Valid() && open == {} && old(computedBlocks) <= computedBlocks && old(program) <= program
      ensures r.Ok? ==> AssignedSinks(program) == AssignedSinks(old(program)) + ConnectedSinks(body, [id])
    {
      var n := body[id];
      OneSink(body, id);
      SinkLinks(body, rank, id);
      var text :- ComputeExpression(n.links, rank(id));
      CallsKeepOrder(old(program), program);
      if text.Some? {
        EmitAssign(id, text.value);
      }
      return Ok(());
    }

    /** Adds the assignment; the variable of a negated coil takes the negation. */
    method EmitAssign(id: nat, text: seq<Token>)
      requires Valid() && IsSink(body, id) && open == {} && id !in AssignedSinks(program) && Visited(body[id].links)
      requires Regular(body, rank) ==> TextFor(body, rank, top, body[id].links, text)
      modifies this`program
      ensures Valid() && AssignedSinks(program) == AssignedSinks(old(program)) + [id] && old(program) <= program
    {
      var n := body[id];
      var rhs := if n.Coil? && n.negated then [NotOpen] + text + [Close] else text;
      var assign := Assign(id, n.name, rhs);
      AssignReady(assign, text);
      SinksAssigned(program);
      AssignEmitted(body, rank, top, acyclic, program, computedBlocks, open, assign);
      SinkAdded(program, assign);
      program := program + [assign];
    }

    lemma AssignReady(assign: Stmt, text: seq<Token>)
      requires Valid() && open == {} && assign.Assign? && IsSink(body, assign.sink)
      requires var n := body[assign.sink];
               && assign.target == n.name && Visited(n.links)
               && assign.rhs == (if n.Coil? && n.negated then [NotOpen] + text + [Close] else text)
               && (Regular(body, rank) ==> TextFor(body, rank, top, n.links, text))
      ensures acyclic ==> forall f :: f in Needs(body, rank, top, assign) ==> Done(body, program, f)
      ensures Sound(body, rank) ==> Faithful(body, rank, top, assign)
    {
      var n := body[assign.sink];
      forall f | f in Feeders(body, rank, n.links, top)
        ensures Done(body, program, f)
      {
        var l :| l in n.links && f in LinkFeeders(body, rank, l);
        assert f in computedBlocks - open;
      }
      if Regular(body, rank) {
        PinTextFor(body, rank, top, InPin(n.links, n.Coil? && n.negated), text);
      }
    }

    /**
     Generates the body. The instances are the sinks and the blocks, each once, in any order: the order the
     source sorts them into plays no part in what is guaranteed.
     */
    method ComputeProgram(instances: seq<nat>) returns (r: Result<(), Fault>)
      requires Valid() && program == [] && computedBlocks == {} && open == {}
      requires forall id :: id in instances <==> IsSink(body, id) || IsBlock(body, id)
      requires forall i, j :: 0 <= i < j < |instances| ==> instances[i] != instances[j]
      modifies this
      ensures r.Err? <==> !BodyFine(body, rank, top, before)
      ensures r.Err? ==> Genuine(body, rank, top, before, r.error)
      ensures r.Ok? ==> Valid() && Complete() && AssignedSinks(program) == ConnectedSinks(body, instances)
    {
      for k := 0 to |instances|
        invariant Valid() && open == {}
        invariant forall i :: 0 <= i < k ==> Handled(instances[i])
        invariant AssignedSinks(program) == ConnectedSinks(body, instances[..k])
      {
        assert instances[k] in instances;
        SinksConnected(body, instances[..k]);
        NextSink(body, instances, k);
        var _ :- GenerateInstance(instances[k]);
      }
      assert instances[..|instances|] == instances;
      NothingWrong(instances);
      return Ok(());
    }

    /** The element was generated, and nothing is wrong with what is connected to it. */
    ghost predicate Handled(id: nat)
      requires Layered(body, rank, top)
      reads this
    {
      && (IsBlock(body, id) ==> id in computedBlocks)
      && (IsSink(body, id) ==> ConnectionFine(body, rank, top, before, body[id].links))
    }

    /** One turn of the loop over instances. */
    method GenerateInstance(id: nat) returns (r: Result<(), Fault>)
      requires Valid() && open == {} && (IsSink(body, id) || IsBlock(body, id)) && id !in AssignedSinks(program)
      modifies this
      ensures r.Err? ==> Genuine(body, rank, top, before, r.error) && !BodyFine(body, rank, top, before)
      ensures r.Ok? ==> Valid() && open == {} && Handled(id) && old(computedBlocks) <= computedBlocks
      ensures r.Ok? ==> AssignedSinks(program) == AssignedSinks(old(program)) + ConnectedSinks(body, [id])
    {
      OneSink(body, id);
      if IsBlock(body, id) {
        ghost var was := program;
        var _ :- GenerateBlock(id, None);
        CallsKeepOrder(was, program);
      } else {
        var _ :- GenerateSink(id);
      }
      return Ok(());
    }

    lemma NothingWrong(instances: seq<nat>)
      requires Valid() && open == {}
      requires forall id :: IsSink(body, id) || IsBlock(body, id) ==> id in instances
      requires forall i :: 0 <= i < |instances| ==> Handled(instances[i])
      requires AssignedSinks(program) == ConnectedSinks(body, instances)
      ensures BodyFine(body, rank, top, before) && Complete()
    {
      forall b | IsBlock(body, b)
        ensures BlockFine(body, rank, top, before, b) && b in computedBlocks
      {
        assert b in instances && Handled(b);
        assert b in computedBlocks - open;
      }
      SinksAssigned(program);
      SinksConnected(body, instances);
      forall id | IsSink(body, id)
        ensures Handled(id)
      {
        assert id in instances;
      }
    }

    /** Every block was generated, and exactly the connected sinks are assigned. */
    ghost predicate Complete()
      reads this
    {
      && open == {}
      && (forall b :: IsBlock(body, b) ==> b in computedBlocks)
      && (forall id :: id in body && (body[id].OutVariable? || body[id].Coil?) ==>
            AssignsSink(program, id) == (Live(body, body[id].links) != []))
    }

    /**
     The generated program computes what the network denotes, for every library of blocks, every initial
     store and every order of the instances.
     */
    lemma GeneratedProgramDenotes(f: Library, s0: Store)
      requires Valid() && Complete() && acyclic && Sound(body, rank) && SeparateNames(body) && Typed(body, s0)
      requires forall b :: IsBlock(body, b) ==> !Cancelled(body, b)
      ensures HoldsDenotation(body, rank, top, f, program, s0, Run(program, f, s0))
      ensures forall id :: IsSink(body, id) ==> AssignsSink(program, id) == (Live(body, body[id].links) != [])
    {
      forall b | IsBlock(body, b)
        ensures Called(program, b)
      {
        assert b in computedBlocks - open;
      }
      RunDenotes(body, rank, top, f, program, s0);
    }

    /**
     Also where names that are read are written, or blocks feed back: running the generated program is a scan of the
     network, in which the connected sinks take their turns in the order of the instances, every block is evaluated
     once, and, without feedback, after the blocks that feed it.
     */
    lemma GeneratedProgramScans(f: Library, s0: Store)
      requires Valid() && Complete() && Sound(body, rank) && KeepsTypes(body, rank, top) && Typed(body, s0)
      ensures Run(program, f, s0) == Scan(body, rank, top, f, ElementsOf(program), s0)
      ensures forall i, j :: 0 <= i < j < |program| ==> ElementsOf(program)[i] != ElementsOf(program)[j]
      ensures forall b :: IsBlock(body, b) && !Cancelled(body, b) ==> BlockOf(b) in ElementsOf(program)
      ensures forall b :: BlockOf(b) in ElementsOf(program) ==> IsBlock(body, b)
      ensures acyclic ==> Ordered(body, rank, top, program)
    {
      RunIsScan(body, rank, top, f, program, s0);
      forall b | IsBlock(body, b) && !Cancelled(body, b)
        ensures BlockOf(b) in ElementsOf(program)
      {
        assert b in computedBlocks - open;
        var st :| st in program && st.Call? && st.block == b;
        var i :| 0 <= i < |program| && program[i] == st;
        assert ElementsOf(program)[i] == BlockOf(b);
      }
    }

    /**
     Whatever the body, a call in the program hands its block exactly what reaches the inputs if and only if the block
     is not a function with one output and a pin for every input, or no unwired input precedes a wired one.
     */
    lemma CallsHandOver(st: Stmt)
      requires Valid() && Regular(body, rank) && st in program && st.Call?
      ensures IsBlock(body, st.block)
      ensures var n := body[st.block];
              HandsOver(body, rank, top, st) <==>
              || n.kind.FunctionBlock? || |n.outputs| != 1 || (exists pin :: pin in n.inputs && pin.None?)
              || PrefixWired(body, n.inputs)
    {
      assert st.block in computedBlocks - open;
      assert Passed(body, rank, top, st);
      assert Typed(body, map[]);
    }

    /** Every block is called at most once; a block with an input pin, and every function block, exactly once. */
    lemma CalledOnce(b: nat)
      requires Valid() && Complete() && IsBlock(body, b)
      ensures !Cancelled(body, b) ==> exists i :: 0 <= i < |program| && IsCall(program[i], b)
      ensures forall i, j :: 0 <= i < j < |program| ==> !(IsCall(program[i], b) && IsCall(program[j], b))
    {
      assert b in computedBlocks - open;
      if !Cancelled(body, b) {
        var st :| st in program && st.Call? && st.block == b;
        var i :| 0 <= i < |program| && program[i] == st;
        assert IsCall(program[i], b);
      }
    }

    lemma Marked(b: nat)
      requires Valid() && IsBlock(body, b) && b !in computedBlocks
      ensures ProgramOk(body, rank, top, acyclic, program, computedBlocks + {b}, open + {b})
    {
      assert computedBlocks + {b} - (open + {b}) == computedBlocks - open;
    }

    lemma CallReady(call: Stmt, connected: seq<(nat, seq<Token>)>)
      requires Valid() && call.Call? && IsBlock(body, call.block) && call.block in open && !Cancelled(body, call.block)
      requires call.outs == |body[call.block].outputs|
      requires call.args == if NamesInputs(body[call.block]) then FormalArgs(connected) else PositionalArgs(connected)
      requires acyclic ==> forall c :: c in open ==> rank(call.block) <= rank(c)
      requires forall pin :: pin in body[call.block].inputs && pin.Some? ==> Visited(pin.value.links)
      requires Regular(body, rank) ==>
                 ArgsFor(body, rank, top, body[call.block].inputs, |body[call.block].inputs|, connected)
      requires CanAssign(body[call.block])
      ensures Passed(body, rank, top, call)
      ensures acyclic ==> forall f :: f in Needs(body, rank, top, call) ==> Done(body, program, f)
      ensures Sound(body, rank) ==> Faithful(body, rank, top, call)
    {
      var b := call.block;
      if acyclic {
        BlockFeedersBelow(body, rank, top, b);
        forall f | f in BlockFeeders(body, rank, top, b)
          ensures f in computedBlocks - open
        {
          var pin :| pin in body[b].inputs && pin.Some? && f in Feeders(body, rank, pin.value.links, top);
          var l :| l in pin.value.links && f in LinkFeeders(body, rank, l);
        }
      }
      CallPassed(body, rank, top, call, connected);
    }
  }

  /** From index `n` on there are only calls. */
  predicate CallsFrom(program: seq<Stmt>, n: nat) {
    forall i :: n <= i < |program| ==> program[i].Call?
  }

  predicate IsCall(st: Stmt, b: nat) {
    st.Call? && st.block == b
  }

  /** The sinks that are assigned, in the order of the assignments. */
  function AssignedSinks(program: seq<Stmt>): seq<nat> {
    if program == [] then []
    else
      var n := |program| - 1;
      AssignedSinks(program[..n]) + if program[n].Assign? then [program[n].sink] else []
  }

  /** The sinks among the instances that something is connected to, in their order. */
  function ConnectedSinks(body: Body, instances: seq<nat>): seq<nat> {
    if instances == [] then []
    else
      var n := |instances| - 1;
      var id := instances[n];
      ConnectedSinks(body, instances[..n]) + if IsSink(body, id) && Live(body, body[id].links) != [] then [id] else []
  }

  lemma {:induction false} CallsKeepOrder(before: seq<Stmt>, after: seq<Stmt>)
    requires before <= after && CallsFrom(after, |before|)
    ensures AssignedSinks(after) == AssignedSinks(before)
    decreases |after|
  {
    if |after| > |before| {
      CallsKeepOrder(before, after[..|after| - 1]);
    } else {
      assert after == before;
    }
  }

  lemma {:induction false} SinksAssigned(program: seq<Stmt>)
    ensures forall id :: id in AssignedSinks(program) <==> AssignsSink(program, id)
    decreases |program|
  {
    if program != [] {
      var n := |program| - 1;
      SinksAssigned(program[..n]);
      assert program == program[..n] + [program[n]];
    }
  }

  lemma {:induction false} SinksConnected(body: Body, instances: seq<nat>)
    ensures forall id :: id in ConnectedSinks(body, instances) <==>
              id in instances && IsSink(body, id) && Live(body, body[id].links) != []
    decreases |instances|
  {
    if instances != [] {
      var n := |instances| - 1;
      SinksConnected(body, instances[..n]);
      assert instances == instances[..n] + [instances[n]];
    }
  }

  lemma OneSink(body: Body, id: nat)
    ensures ConnectedSinks(body, [id]) == if IsSink(body, id) && Live(body, body[id].links) != [] then [id] else []
  {
    assert [id][..0] == [];
  }

  lemma NextSink(body: Body, instances: seq<nat>, k: nat)
    requires k < |instances|
    ensures ConnectedSinks(body, instances[..k + 1])
         == ConnectedSinks(body, instances[..k]) + ConnectedSinks(body, [instances[k]])
  {
    OneSink(body, instances[k]);
    assert instances[..k + 1][..k] == instances[..k];
  }

  lemma SinkAdded(program: seq<Stmt>, assign: Stmt)
    requires assign.Assign?
    ensures AssignedSinks(program + [assign]) == AssignedSinks(program) + [assign.sink]
  {
    assert (program + [assign])[..|program|] == program;
  }

  lemma PathAppended(body: Body, rank: nat -> nat, live: seq<Link>, paths: seq<Path>, l: Link, p: Path)
    requires Ranked(body, rank) && (forall m :: m in live ==> IsSource(body, m)) && IsSource(body, l)
    requires PathsFor(body, rank, live, paths) && PathFor(body, rank, l, p)
    ensures PathsFor(body, rank, live + [l], paths + [p])
  {
  }

  lemma ArgCollected(body: Body, rank: nat -> nat, top: nat, inputs: seq<Option<InPin>>, k: nat,
                     connected: seq<(nat, seq<Token>)>, text: Option<seq<Token>>)
    requires Layered(body, rank, top) && k < |inputs| && text.Some? == Wired(body, inputs[k])
    requires Regular(body, rank) ==> ArgsFor(body, rank, top, inputs, k, connected)
    requires text.Some? && Regular(body, rank) ==> TextFor(body, rank, top, inputs[k].value.links, text.value)
    ensures Regular(body, rank) ==>
              ArgsFor(body, rank, top, inputs, k + 1,
                      if text.Some? then connected + [(k, PinText(inputs[k].value, text.value))] else connected)
  {
    if Regular(body, rank) {
      if text.Some? {
        ArgAdded(body, rank, top, inputs, k, connected, text.value);
      } else {
        ArgSkipped(body, rank, top, inputs, k, connected);
      }
    }
  }

  lemma ArgAdded(body: Body, rank: nat -> nat, top: nat, inputs: seq<Option<InPin>>, k: nat,
                 connected: seq<(nat, seq<Token>)>, text: seq<Token>)
    requires Layered(body, rank, top) && k < |inputs| && Wired(body, inputs[k])
    requires ArgsFor(body, rank, top, inputs, k, connected)
    requires TextFor(body, rank, top, inputs[k].value.links, text)
    ensures ArgsFor(body, rank, top, inputs, k + 1, connected + [(k, PinText(inputs[k].value, text))])
  {
    PinTextFor(body, rank, top, inputs[k].value, text);
  }

  lemma ArgSkipped(body: Body, rank: nat -> nat, top: nat, inputs: seq<Option<InPin>>, k: nat,
                   connected: seq<(nat, seq<Token>)>)
    requires Layered(body, rank, top) && k < |inputs| && !Wired(body, inputs[k])
    requires ArgsFor(body, rank, top, inputs, k, connected)
    ensures ArgsFor(body, rank, top, inputs, k + 1, connected)
  {
    assert WiredInputs(body, inputs, k + 1) == WiredInputs(body, inputs, k);
  }

  lemma CallPassed(body: Body, rank: nat -> nat, top: nat, call: Stmt, connected: seq<(nat, seq<Token>)>)
    requires Layered(body, rank, top) && call.Call? && IsBlock(body, call.block) && CanAssign(body[call.block])
    requires !Cancelled(body, call.block) && call.outs == |body[call.block].outputs|
    requires call.args == if NamesInputs(body[call.block]) then FormalArgs(connected) else PositionalArgs(connected)
    requires Regular(body, rank) ==>
               ArgsFor(body, rank, top, body[call.block].inputs, |body[call.block].inputs|, connected)
    ensures Passed(body, rank, top, call)
    ensures Sound(body, rank) ==> Faithful(body, rank, top, call)
  {
    var b := call.block;
    if Regular(body, rank) {
      forall s | Typed(body, s)
        ensures ArgValues(call.args, s) == InputValues(body, rank, top, b, s) <==>
                NamesInputs(body[b]) || PrefixWired(body, body[b].inputs)
      {
        if NamesInputs(body[b]) {
          FormalArgsFaithful(body, rank, top, b, connected, s);
        } else {
          PositionalArgsFaithful(body, rank, top, b, connected, s);
        }
      }
    }
  }

  lemma PrintedConnection(body: Body, rank: nat -> nat, top: nat, links: seq<Link>, paths: seq<Path>, joined: seq<Path>)
    requires Layered(body, rank, top) && paths != [] && Content(paths, joined)
    requires Regular(body, rank) && SingleCoils(body, links) ==> PathsFor(body, rank, Live(body, links), paths)
    ensures Regular(body, rank) && SingleCoils(body, links) ==>
              var text := ComputePaths(ConnectionPath(paths, joined), true);
              && TextFor(body, rank, top, links, text)
              && forall s :: Typed(body, s) ==> Truth(EvalText(text, s)) == Reached(body, links, s)
  {
    if Regular(body, rank) && SingleCoils(body, links) {
      ConnectionText(body, rank, top, links, paths, joined);
      TextConducts(body, rank, top, links, ComputePaths(ConnectionPath(paths, joined), true));
    }
  }

  lemma OutputPath(body: Body, rank: nat -> nat, l: Link)
    requires Ranked(body, rank) && IsBlock(body, l.ref) && l.pin < |body[l.ref].outputs|
    ensures PathFor(body, rank, l, Atom(l.ref, Operand(Output(l.ref, l.pin), body[l.ref].outputs[l.pin])))
  {
    forall s: Store
      ensures var text := Operand(Output(l.ref, l.pin), body[l.ref].outputs[l.pin]);
              Closed(text) && Complete(text) && EvalText(text, s) == Contribution(body, rank, l, s)
    {
      OperandValue(Output(l.ref, l.pin), body[l.ref].outputs[l.pin], s);
    }
    OperandValue(Output(l.ref, l.pin), body[l.ref].outputs[l.pin], map[]);
  }

  lemma GateLinks(body: Body, rank: nat -> nat, id: nat)
    requires Ranked(body, rank) && IsGate(body, id)
    ensures Below(body, rank, body[id].links, rank(id))
    ensures Acyclic(body, rank) ==> AllBelow(rank, body[id].links, rank(id))
    ensures Regular(body, rank) ==> SingleCoils(body, body[id].links)
  {
    assert forall l :: l in body[id].links ==> HasLink(body[id], l);
  }

  lemma SinkLinks(body: Body, rank: nat -> nat, id: nat)
    requires Ranked(body, rank) && IsSink(body, id)
    ensures Acyclic(body, rank) ==> AllBelow(rank, body[id].links, rank(id))
    ensures Regular(body, rank) ==> SingleCoils(body, body[id].links)
  {
    assert forall l :: l in body[id].links ==> HasLink(body[id], l);
  }

  lemma PinLinks(body: Body, rank: nat -> nat, b: nat, k: nat)
    requires Ranked(body, rank) && IsBlock(body, b) && k < |body[b].inputs| && body[b].inputs[k].Some?
    ensures Acyclic(body, rank) ==> AllBelow(rank, body[b].inputs[k].value.links, rank(b))
    ensures Regular(body, rank) ==> SingleCoils(body, body[b].inputs[k].value.links)
  {
    var pin := body[b].inputs[k];
    assert pin in body[b].inputs;
    assert forall l :: l in pin.value.links ==> HasLink(body[b], l);
  }
}
