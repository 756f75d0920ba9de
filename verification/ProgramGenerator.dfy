/**
 Generation of the data types and POUs of a project. A declaration is marked before what it uses is
 generated, and written afterwards.
 */
module ProgramGenerator {
  import opened Results
  import opened Declarations

  /** Pieces of the program: the delimiters of the type section, and the text of a declaration. */
  datatype Unit = TypeSection | EndTypeSection | Declaration(node: Node)

  datatype Fault = DerivedSubrange(name: string) | UndefinedPouType(name: string) | BrokenPou(name: string) {
    function Culprit(): Node {
      if DerivedSubrange? then TypeNode(name) else PouNode(name)
    }
  }

  /** The declarations not yet marked, and the program so far. */
  datatype State = State(left: set<Node>, program: seq<Unit>)

  // ----- Generation, as a function

  function Mark(x: State, node: Node): State {
    x.(left := x.left - {node})
  }

  function Write(x: State, u: Unit): State {
    x.(program := x.program + [u])
  }

  /** What makes the generation of a declaration fail before anything it uses is generated. */
  function Rejected(p: Project, node: Node): Option<Fault> {
    match node
    case TypeNode(n) =>
      if n in p.types && p.types[n].Subrange? && p.types[n].base.Derived? then Some(DerivedSubrange(n)) else None
    case PouNode(n) => if n in p.pous && p.pous[n].kind !in POU_KINDS then Some(UndefinedPouType(n)) else None
  }

  function Visit(p: Project, x: State, node: Node): (r: Result<State, Fault>)
    ensures r.Ok? ==> r.value.left <= x.left
    decreases x.left, 0
  {
    if node !in x.left then Ok(x)
    else if Rejected(p, node).Some? then Err(Rejected(p, node).value)
    else
      var y := Mark(x, node);
      assert node in x.left && node !in y.left;
      var z := VisitAll(p, y, Uses(p, node));
      if z.Err? then z
      else if node.PouNode? && node.name in p.pous && p.pous[node.name].broken then Err(BrokenPou(node.name))
      else Ok(Write(z.value, Declaration(node)))
  }

  function VisitAll(p: Project, x: State, nodes: seq<Node>): (r: Result<State, Fault>)
    ensures r.Ok? ==> r.value.left <= x.left
    decreases x.left, 1 + |nodes|
  {
    if nodes == [] then Ok(x)
    else
      var y := VisitAll(p, x, nodes[..|nodes| - 1]);
      if y.Err? then y else Visit(p, y.value, nodes[|nodes| - 1])
  }

  // ----- What every visit keeps

  /** What is written is sound, declared and marked, and written once. */
  ghost predicate WrittenOnce(p: Project, x: State) {
    && (forall u :: u in x.program && u.Declaration? ==> u.node in All(p) && u.node !in x.left && !Faulty(p, u.node))
    && (forall i, j :: 0 <= i < j < |x.program| && x.program[i].Declaration? ==> x.program[i] != x.program[j])
  }

  /** Marked, but not written. */
  ghost predicate Open(p: Project, x: State, node: Node) {
    node in All(p) && node !in x.left && Declaration(node) !in x.program
  }

  ghost predicate NoneOpened(p: Project, x: State, y: State) {
    forall node :: Open(p, y, node) ==> Open(p, x, node)
  }

  ghost predicate Added(x: State, u: Unit, typesOnly: bool) {
    u.Declaration? && u.node in x.left && (typesOnly ==> u.node.TypeNode?)
  }

  /** From `x` to `y` only declarations left in `x` were written and marked; only types, if so asked. */
  ghost predicate Extends(x: State, y: State, typesOnly: bool) {
    && x.program <= y.program && y.left <= x.left
    && (forall i :: |x.program| <= i < |y.program| ==> Added(x, y.program[i], typesOnly))
    && (typesOnly ==> forall n :: PouNode(n) in x.left ==> PouNode(n) in y.left)
  }

  ghost predicate Visited(p: Project, x: State, r: Result<State, Fault>, typesOnly: bool) {
    match r
    case Ok(y) => WrittenOnce(p, y) && NoneOpened(p, x, y) && Extends(x, y, typesOnly)
    case Err(f) => Faulty(p, f.Culprit()) && (typesOnly ==> f.DerivedSubrange?)
  }

  ghost predicate TypesOnly(nodes: seq<Node>) {
    forall i :: 0 <= i < |nodes| ==> nodes[i].TypeNode?
  }

  lemma {:induction false} VisitOk(p: Project, x: State, node: Node, typesOnly: bool)
    requires WrittenOnce(p, x) && x.left <= All(p) && (typesOnly ==> node.TypeNode?)
    ensures Visited(p, x, Visit(p, x, node), typesOnly)
    ensures Visit(p, x, node).Ok? ==> node !in Visit(p, x, node).value.left
    decreases x.left, 0
  {
    if node in x.left && Rejected(p, node).None? {
      var y := Mark(x, node);
      assert node in x.left && node !in y.left;
      if typesOnly {
        forall i | 0 <= i < |Uses(p, node)|
          ensures Uses(p, node)[i].TypeNode?
        {
          TypesUseTypes(p, node.name, i);
        }
      }
      VisitAllOk(p, y, Uses(p, node), typesOnly);
      var z := VisitAll(p, y, Uses(p, node));
      if z.Ok? && !Faulty(p, node) {
        DeclarationWritten(p, x, z.value, node, typesOnly);
      }
    }
  }

  lemma DeclarationWritten(p: Project, x: State, z: State, node: Node, typesOnly: bool)
    requires node in x.left && node in All(p) && !Faulty(p, node) && (typesOnly ==> node.TypeNode?)
    requires WrittenOnce(p, x) && WrittenOnce(p, z)
    requires NoneOpened(p, Mark(x, node), z) && Extends(Mark(x, node), z, typesOnly)
    ensures Declaration(node) !in x.program
    ensures WrittenOnce(p, Write(z, Declaration(node)))
    ensures NoneOpened(p, x, Write(z, Declaration(node))) && Extends(x, Write(z, Declaration(node)), typesOnly)
  {
    assert Declaration(node) !in z.program by {
      assert forall i :: |x.program| <= i < |z.program| ==> Added(Mark(x, node), z.program[i], typesOnly);
    }
    forall other | Open(p, Write(z, Declaration(node)), other)
      ensures Open(p, x, other)
    {
      assert Declaration(node) in Write(z, Declaration(node)).program by {
        assert Write(z, Declaration(node)).program[|z.program|] == Declaration(node);
      }
      assert forall u :: u in z.program ==> u in Write(z, Declaration(node)).program;
      assert Open(p, z, other);
    }
  }

  lemma {:induction false} VisitAllOk(p: Project, x: State, nodes: seq<Node>, typesOnly: bool)
    requires WrittenOnce(p, x) && x.left <= All(p) && (typesOnly ==> TypesOnly(nodes))
    ensures Visited(p, x, VisitAll(p, x, nodes), typesOnly)
    ensures VisitAll(p, x, nodes).Ok? ==> forall i :: 0 <= i < |nodes| ==> nodes[i] !in VisitAll(p, x, nodes).value.left
    decreases x.left, 1 + |nodes|
  {
    if nodes != [] {
      var n := |nodes| - 1;
      VisitAllOk(p, x, nodes[..n], typesOnly);
      var y := VisitAll(p, x, nodes[..n]);
      if y.Ok? {
        VisitOk(p, y.value, nodes[n], typesOnly);
      }
    }
  }

  // ----- Order

  /** The parts of a project from which nothing outside can be reached by uses. */
  ghost predicate ClosedUnderUses(p: Project, inside: set<Node>) {
    forall node :: node in inside ==> UsesInside(p, node, inside)
  }

  ghost predicate UsesInside(p: Project, node: Node, inside: set<Node>) {
    forall i :: 0 <= i < |Uses(p, node)| ==> Uses(p, node)[i] in All(p) ==> Uses(p, node)[i] in inside
  }

  /** Nothing in the set is marked but not yet written. */
  ghost predicate Clear(p: Project, x: State, inside: set<Node>) {
    forall node :: node in inside ==> !Open(p, x, node)
  }

  ghost predicate WrittenBefore(program: seq<Unit>, first: Node, k: nat) {
    exists j :: 0 <= j < k && j < |program| && program[j] == Declaration(first)
  }

  /** What uses `first` and is not in the set is written after `first`. */
  ghost predicate After(p: Project, program: seq<Unit>, first: Node, inside: set<Node>) {
    forall k :: 0 <= k < |program| ==> AfterAt(p, program, first, inside, k)
  }

  ghost predicate AfterAt(p: Project, program: seq<Unit>, first: Node, inside: set<Node>, k: nat)
    requires k < |program|
  {
    program[k].Declaration? && program[k].node !in inside && first in Uses(p, program[k].node) ==>
        WrittenBefore(program, first, k)
  }

  lemma {:induction false} VisitOrdered(p: Project, x: State, node: Node, first: Node, inside: set<Node>)
    requires WrittenOnce(p, x) && x.left <= All(p) && first in inside && first in All(p) && ClosedUnderUses(p, inside)
    requires After(p, x.program, first, inside) && (Clear(p, x, inside) || node in inside || node !in All(p))
    ensures Visit(p, x, node).Ok? ==> After(p, Visit(p, x, node).value.program, first, inside)
    decreases x.left, 0
  {
    if node in x.left && Visit(p, x, node).Ok? {
      var y := Mark(x, node);
      assert node in x.left && node !in y.left;
      assert Clear(p, x, inside) && node !in inside ==> Clear(p, y, inside);
      VisitAllOrdered(p, y, Uses(p, node), first, inside);
      var z := VisitAll(p, y, Uses(p, node)).value;
      VisitAllOk(p, y, Uses(p, node), false);
      if node !in inside && first in Uses(p, node) {
        assert first !in z.left && !Open(p, z, first);
        var j :| 0 <= j < |z.program| && z.program[j] == Declaration(first);
        assert Write(z, Declaration(node)).program[j] == Declaration(first);
      }
      AfterWrite(p, z.program, first, inside, node);
    }
  }

  lemma AfterWrite(p: Project, program: seq<Unit>, first: Node, inside: set<Node>, node: Node)
    requires After(p, program, first, inside)
    requires node !in inside && first in Uses(p, node) ==>
               WrittenBefore(program + [Declaration(node)], first, |program|)
    ensures After(p, program + [Declaration(node)], first, inside)
  {
    var longer := program + [Declaration(node)];
    forall k | 0 <= k < |longer|
      ensures AfterAt(p, longer, first, inside, k)
    {
      if k < |program| {
        assert AfterAt(p, program, first, inside, k);
        if WrittenBefore(program, first, k) {
          var j :| 0 <= j < k && j < |program| && program[j] == Declaration(first);
          assert longer[j] == Declaration(first);
        }
      }
    }
  }

  lemma {:induction false} VisitAllOrdered(p: Project, x: State, nodes: seq<Node>, first: Node, inside: set<Node>)
    requires WrittenOnce(p, x) && x.left <= All(p) && first in inside && first in All(p) && ClosedUnderUses(p, inside)
    requires After(p, x.program, first, inside)
    requires Clear(p, x, inside) || forall i :: 0 <= i < |nodes| ==> nodes[i] in inside || nodes[i] !in All(p)
    ensures VisitAll(p, x, nodes).Ok? ==> After(p, VisitAll(p, x, nodes).value.program, first, inside)
    decreases x.left, 1 + |nodes|
  {
    if nodes != [] {
      var n := |nodes| - 1;
      var y := VisitAll(p, x, nodes[..n]);
      VisitAllOrdered(p, x, nodes[..n], first, inside);
      VisitAllOk(p, x, nodes[..n], false);
      if y.Ok? {
        assert Clear(p, x, inside) ==> Clear(p, y.value, inside);
        VisitOrdered(p, y.value, nodes[n], first, inside);
      }
    }
  }

  // ----- The whole project

  function TypeNodes(names: seq<string>): seq<Node> {
    if names == [] then [] else TypeNodes(names[..|names| - 1]) + [TypeNode(names[|names| - 1])]
  }

  /** Data types, between their delimiters, if there are any. */
  ghost function GenerateTypes(p: Project): Result<State, Fault> {
    var x := State(All(p), []);
    if p.types == map[] then Ok(x)
    else
      var y := VisitAll(p, Write(x, TypeSection), TypeNodes(p.typeOrder));
      if y.Err? then y else Ok(Write(y.value, EndTypeSection))
  }

  ghost function GenerateProject(p: Project): Result<State, Fault> {
    var x := GenerateTypes(p);
    if x.Err? then x else VisitAll(p, x.value, BlockUses(p.pouOrder))
  }

  /** Each declaration of the project names the next one. */
  ghost predicate Chain(p: Project, chain: seq<Node>) {
    && chain != [] && (forall i :: 0 <= i < |chain| ==> chain[i] in All(p))
    && (forall i :: 0 <= i < |chain| - 1 ==> Names(p, chain[i], chain[i + 1]))
  }

  /** `node` depends on `other`, directly or not. */
  ghost predicate DependsOn(p: Project, node: Node, other: Node) {
    exists chain :: Chain(p, chain) && chain[0] == node && chain[|chain| - 1] == other
  }

  lemma {:induction false} TypeNodesAt(names: seq<string>)
    ensures TypesOnly(TypeNodes(names)) && forall n :: n in names ==> TypeNode(n) in TypeNodes(names)
    decreases |names|
  {
    if names != [] {
      assert names == names[..|names| - 1] + [names[|names| - 1]];
      TypeNodesAt(names[..|names| - 1]);
    }
  }

  lemma {:induction false} BlockUsesAt(names: seq<string>)
    ensures forall n :: n in names ==> PouNode(n) in BlockUses(names)
    decreases |names|
  {
    if names != [] {
      assert names == names[..|names| - 1] + [names[|names| - 1]];
      BlockUsesAt(names[..|names| - 1]);
    }
  }

  /** The first `k` pieces are the delimited data types. */
  ghost predicate TypePart(p: Project, program: seq<Unit>, k: nat) {
    && k <= |program|
    && (if p.types == map[] then k == 0
        else k >= 2 && program[0] == TypeSection && program[k - 1] == EndTypeSection)
    && forall i :: 0 < i < k - 1 ==> program[i].Declaration? && program[i].node.TypeNode?
  }

  lemma TypeSectionWritten(p: Project, x: State, y: State)
    requires x == Write(State(All(p), []), TypeSection) && p.types != map[]
    requires WrittenOnce(p, y) && NoneOpened(p, x, y) && Extends(x, y, true)
    ensures var z := Write(y, EndTypeSection);
            WrittenOnce(p, z) && TypePart(p, z.program, |z.program|) && forall node :: !Open(p, z, node)
  {
    var z := Write(y, EndTypeSection);
    assert forall i :: |x.program| <= i < |y.program| ==> Added(x, y.program[i], true);
    assert forall u :: u in y.program ==> u in z.program;
    forall node
      ensures !Open(p, z, node)
    {
      assert Open(p, z, node) ==> Open(p, y, node);
      assert Open(p, y, node) ==> Open(p, x, node);
    }
  }

  lemma TypesGenerated(p: Project)
    requires p.Valid()
    ensures GenerateTypes(p).Err? ==> Faulty(p, GenerateTypes(p).error.Culprit())
    ensures GenerateTypes(p).Ok? ==>
            var x := GenerateTypes(p).value;
            && WrittenOnce(p, x) && x.left <= All(p) && TypePart(p, x.program, |x.program|)
            && (forall node :: !Open(p, x, node))
            && forall node :: node in x.left <==> node in All(p) && node.PouNode?
  {
    var o := State(All(p), []);
    if p.types != map[] {
      var x := Write(o, TypeSection);
      TypeNodesAt(p.typeOrder);
      VisitAllOk(p, x, TypeNodes(p.typeOrder), true);
      if VisitAll(p, x, TypeNodes(p.typeOrder)).Err? {
        return;
      }
      var y := VisitAll(p, x, TypeNodes(p.typeOrder)).value;
      var z := Write(y, EndTypeSection);
      TypeSectionWritten(p, x, y);
      forall node
        ensures node in z.left <==> node in All(p) && node.PouNode?
      {
        if node in All(p) && node.TypeNode? {
          assert node in TypeNodes(p.typeOrder);
        }
      }
    }
  }

  /**
   The generation of a project always ends. It fails exactly when some data type or POU is faulty; otherwise every
   data type and every POU is written exactly once, the types first, between their delimiters.
   */
  lemma ProjectGenerated(p: Project)
    requires p.Valid()
    ensures var r := GenerateProject(p);
            && (r.Err? <==> exists node :: Faulty(p, node))
            && (r.Ok? ==>
                  var program := r.value.program;
                  && (forall node :: Declaration(node) in program <==> node in All(p))
                  && (forall i, j :: 0 <= i < j < |program| && program[i].Declaration? ==> program[i] != program[j])
                  && exists k: nat :: TypePart(p, program, k) && PouPart(program, k))
  {
    TypesGenerated(p);
    BlockUsesAt(p.pouOrder);
    if GenerateTypes(p).Err? {
      return;
    }
    var x := GenerateTypes(p).value;
    VisitAllOk(p, x, BlockUses(p.pouOrder), false);
    var r := GenerateProject(p);
    if r.Ok? {
      AllWritten(p, x, r.value);
      forall node
        ensures !Faulty(p, node)
      {
        assert node in All(p) ==> Declaration(node) in r.value.program;
      }
      TypesThenPous(p, x, r.value);
    }
  }

  ghost predicate PouPart(program: seq<Unit>, k: nat) {
    forall i :: k <= i < |program| ==> program[i].Declaration? && program[i].node.PouNode?
  }

  lemma AllWritten(p: Project, x: State, y: State)
    requires p.Valid() && WrittenOnce(p, y) && NoneOpened(p, x, y) && y.left <= x.left
    requires forall node :: !Open(p, x, node)
    requires forall node :: node in x.left ==> node in All(p) && node.PouNode?
    requires forall n :: n in p.pouOrder ==> PouNode(n) !in y.left
    ensures forall node :: Declaration(node) in y.program <==> node in All(p)
  {
    forall node
      ensures Declaration(node) in y.program <==> node in All(p)
    {
      assert node in All(p) ==> node !in y.left;
      assert !Open(p, y, node);
    }
  }

  lemma TypesThenPous(p: Project, x: State, y: State)
    requires Extends(x, y, false) && TypePart(p, x.program, |x.program|)
    requires forall node :: node in x.left ==> node.PouNode?
    ensures TypePart(p, y.program, |x.program|) && PouPart(y.program, |x.program|)
  {
    assert forall i :: |x.program| <= i < |y.program| ==> Added(x, y.program[i], false);
    assert forall i :: 0 <= i < |x.program| ==> y.program[i] == x.program[i];
  }

  /** What is `first` and all it depends on. */
  lemma DependenciesClosed(p: Project, first: Node) returns (inside: set<Node>)
    requires first in All(p)
    ensures inside == set node | node in All(p) && DependsOn(p, first, node)
    ensures first in inside && ClosedUnderUses(p, inside)
  {
    inside := set node | node in All(p) && DependsOn(p, first, node);
    assert Chain(p, [first]);
    forall node, i | node in inside && 0 <= i < |Uses(p, node)| && Uses(p, node)[i] in All(p)
      ensures Uses(p, node)[i] in inside
    {
      var chain :| Chain(p, chain) && chain[0] == first && chain[|chain| - 1] == node;
      UsesExact(p, node, Uses(p, node)[i]);
      ChainExtends(p, chain, Uses(p, node)[i]);
      assert (chain + [Uses(p, node)[i]])[|chain|] == Uses(p, node)[i];
    }
  }

  lemma ChainExtends(p: Project, chain: seq<Node>, next: Node)
    requires Chain(p, chain) && next in All(p) && Names(p, chain[|chain| - 1], next)
    ensures Chain(p, chain + [next])
  {
    var longer := chain + [next];
    forall j | 0 <= j < |longer| - 1
      ensures Names(p, longer[j], longer[j + 1])
    {
      if j < |chain| - 1 {
        assert Names(p, chain[j], chain[j + 1]);
      }
    }
  }

  /** Each declaration is written after everything it names, except what depends on it in turn. */
  lemma UsedIsWrittenFirst(p: Project, first: Node, k: nat)
    requires p.Valid() && GenerateProject(p).Ok? && k < |GenerateProject(p).value.program|
    requires var u := GenerateProject(p).value.program[k];
             u.Declaration? && Names(p, u.node, first) && !DependsOn(p, first, u.node)
    requires first in All(p)
    ensures WrittenBefore(GenerateProject(p).value.program, first, k)
  {
    TypesGenerated(p);
    var x := GenerateTypes(p).value;
    var inside := DependenciesClosed(p, first);
    assert After(p, x.program, first, inside) by {
      TypesOrdered(p, first, inside);
    }
    VisitAllOrdered(p, x, BlockUses(p.pouOrder), first, inside);
    assert AfterAt(p, GenerateProject(p).value.program, first, inside, k);
    UsesExact(p, GenerateProject(p).value.program[k].node, first);
  }

  lemma TypesOrdered(p: Project, first: Node, inside: set<Node>)
    requires p.Valid() && first in inside && first in All(p) && ClosedUnderUses(p, inside)
    ensures GenerateTypes(p).Ok? ==> After(p, GenerateTypes(p).value.program, first, inside)
  {
    if p.types != map[] {
      var x := Write(State(All(p), []), TypeSection);
      VisitAllOrdered(p, x, TypeNodes(p.typeOrder), first, inside);
      var y := VisitAll(p, x, TypeNodes(p.typeOrder));
      if y.Ok? {
        var z := Write(y.value, EndTypeSection).program;
        forall k | 0 <= k < |z|
          ensures AfterAt(p, z, first, inside, k)
        {
          if k < |y.value.program| {
            assert AfterAt(p, y.value.program, first, inside, k);
            if WrittenBefore(y.value.program, first, k) {
              var j :| 0 <= j < k && j < |y.value.program| && y.value.program[j] == Declaration(first);
              assert z[j] == Declaration(first);
            }
          }
        }
      }
    }
  }

  /** Names lead to lower ranks. */
  ghost predicate Ranked(p: Project, rank: Node -> nat) {
    forall a, b :: a in All(p) && b in All(p) && Names(p, a, b) ==> rank(b) < rank(a)
  }

  lemma {:induction false} ChainDescends(p: Project, rank: Node -> nat, chain: seq<Node>)
    requires Ranked(p, rank) && Chain(p, chain)
    ensures rank(chain[|chain| - 1]) <= rank(chain[0])
    decreases |chain|
  {
    if |chain| > 1 {
      var front := chain[..|chain| - 1];
      forall i | 0 <= i < |front| - 1
        ensures Names(p, front[i], front[i + 1])
      {
        assert Names(p, chain[i], chain[i + 1]);
      }
      ChainDescends(p, rank, front);
      assert Names(p, chain[|chain| - 2], chain[|chain| - 2 + 1]);
    }
  }

  /** Without cycles among the declarations, everything named comes first. */
  lemma UsedFirstWhenAcyclic(p: Project, rank: Node -> nat, first: Node, k: nat)
    requires p.Valid() && Ranked(p, rank) && GenerateProject(p).Ok? && k < |GenerateProject(p).value.program|
    requires var u := GenerateProject(p).value.program[k]; u.Declaration? && Names(p, u.node, first)
    requires first in All(p)
    ensures WrittenBefore(GenerateProject(p).value.program, first, k)
  {
    var program := GenerateProject(p).value.program;
    var node := program[k].node;
    ProjectGenerated(p);
    assert node in All(p) by {
      assert Declaration(node) in program;
    }
    if DependsOn(p, first, node) {
      var chain :| Chain(p, chain) && chain[0] == first && chain[|chain| - 1] == node;
      ChainDescends(p, rank, chain);
    }
    UsedIsWrittenFirst(p, first, k);
  }

  class Generator {
    const project: Project

    var program: seq<Unit>
    var datatypeComputed: map<string, bool>
    var pouComputed: map<string, bool>

    ghost function Left(): (left: set<Node>)
      reads this
      ensures forall n :: TypeNode(n) in left <==> n in datatypeComputed && !datatypeComputed[n]
      ensures forall n :: PouNode(n) in left <==> n in pouComputed && !pouComputed[n]
    {
      (set n | n in datatypeComputed && !datatypeComputed[n] :: TypeNode(n))
      + (set n | n in pouComputed && !pouComputed[n] :: PouNode(n))
    }

    ghost function Now(): State
      reads this
    {
      State(Left(), program)
    }

    /** The tables hold names of declarations only. */
    ghost predicate Valid()
      reads this
    {
      && project.Valid() && Left() <= All(project)
      && pouComputed.Keys <= project.pous.Keys && datatypeComputed.Keys <= project.types.Keys
    }

    constructor (project: Project)
      requires project.Valid()
      ensures this.project == project && Valid() && datatypeComputed == map[] && pouComputed == map[] && program == []
    {
      this.project := project;
      program, datatypeComputed, pouComputed := [], map[], map[];
    }

    method GenerateDataType(name: string) returns (r: Result<(), Fault>)
      requires Valid()
      modifies this`program, this`datatypeComputed
      ensures Valid() && Agrees(Visit(project, old(Now()), TypeNode(name)), r, Now())
      decreases Left(), 0
    {
      if name in datatypeComputed && !datatypeComputed[name] {
        ghost var before := Now();
        datatypeComputed := datatypeComputed[name := true];
        assert Left() == before.left - {TypeNode(name)};
        assert TypeNode(name) in before.left && TypeNode(name) !in Left();
        r := Ok(());
        match project.types[name] {
          case Directly(base) => r := GenerateBase(base);
          case Subrange(base) =>
            if base.Derived? {
              r := Err(DerivedSubrange(name));
            }
          case Enumerated =>
          case ArrayType(base) => r := GenerateBase(base);
          case Structure(elements) => r := GenerateElements(elements);
        }
        if r.Err? {
          return;
        }
        program := program + [Declaration(TypeNode(name))];
      }
      return Ok(());
    }

    method GenerateBase(base: TypeRef) returns (r: Result<(), Fault>)
      requires Valid()
      modifies this`program, this`datatypeComputed
      ensures Valid() && Agrees(VisitAll(project, old(Now()), DerivedOf(base)), r, Now())
      decreases Left(), 1
    {
      r := Ok(());
      if base.Derived? {
        r := GenerateDataType(base.name);
      }
    }

    method GenerateElements(elements: seq<Element>) returns (r: Result<(), Fault>)
      requires Valid()
      modifies this`program, this`datatypeComputed
      ensures Valid() && Agrees(VisitAll(project, old(Now()), ElementUses(elements)), r, Now())
      decreases Left(), 2
    {
      for k := 0 to |elements|
        invariant Valid() && Left() <= old(Left())
        invariant VisitAll(project, old(Now()), ElementUses(elements[..k])) == Ok(Now())
      {
        r := GenerateBase(TypeOf(elements[k]));
        ElementStep(elements, k);
        VisitAllConcat(project, old(Now()), ElementUses(elements[..k]), DerivedOf(TypeOf(elements[k])));
        if r.Err? {
          ElementUsesPrefix(elements, k + 1);
          VisitAllStopsIn(project, old(Now()), ElementUses(elements[..k + 1]), ElementUses(elements));
          return;
        }
      }
      assert elements[..|elements|] == elements;
      return Ok(());
    }

    method GeneratePouProgram(name: string) returns (r: Result<(), Fault>)
      requires Valid()
      modifies this`program, this`datatypeComputed, this`pouComputed
      ensures Valid() && Agrees(Visit(project, old(Now()), PouNode(name)), r, Now())
      decreases Left(), 0
    {
      if name in pouComputed && !pouComputed[name] {
        ghost var before := Now();
        pouComputed := pouComputed[name := true];
        assert Left() == before.left - {PouNode(name)};
        assert PouNode(name) in before.left && PouNode(name) !in Left();
        var pou := project.pous[name];
        if pou.kind !in POU_KINDS {
          return Err(UndefinedPouType(name));
        }
        ghost var marked := Now();
        r := GenerateInterface(pou.variables);
        if r.Err? {
          VisitAllStops(project, marked, VariableUses(project, pou.variables), BodyUses(project, pou.body));
          return;
        }
        ghost var between := Now();
        match pou.body {
          case Text(text) => r := GeneratePouProgramInText(text);
          case Graphic(blocks) => r := GenerateBlockTypes(blocks);
        }
        VisitAllConcat(project, marked, VariableUses(project, pou.variables), BodyUses(project, pou.body));
        if r.Err? {
          return;
        }
        if pou.broken {
          return Err(BrokenPou(name));
        }
        program := program + [Declaration(PouNode(name))];
      }
      return Ok(());
    }

    /** The types of the variables of an interface. */
    method GenerateInterface(names: seq<string>) returns (r: Result<(), Fault>)
      requires Valid()
      modifies this`program, this`datatypeComputed, this`pouComputed
      ensures Valid() && Agrees(VisitAll(project, old(Now()), VariableUses(project, names)), r, Now())
      decreases Left(), 1
    {
      for k := 0 to |names|
        invariant Valid() && Left() <= old(Left())
        invariant VisitAll(project, old(Now()), VariableUses(project, names[..k])) == Ok(Now())
      {
        VariableVisited(project, old(Now()), names, k);
        if project.IsBlock(names[k]) {
          r := GeneratePouProgram(names[k]);
        } else {
          r := GenerateDataType(names[k]);
        }
        if r.Err? {
          return;
        }
      }
      assert names[..|names|] == names;
      return Ok(());
    }

    /** The POUs of the project that a text mentions. */
    method GeneratePouProgramInText(text: string) returns (r: Result<(), Fault>)
      requires Valid()
      modifies this`program, this`datatypeComputed, this`pouComputed
      ensures Valid() && Agrees(VisitAll(project, old(Now()), MentionUses(text, project.pouOrder)), r, Now())
      decreases Left(), 2
    {
      var names := project.pouOrder;
      for k := 0 to |names|
        invariant Valid() && Left() <= old(Left())
        invariant VisitAll(project, old(Now()), MentionUses(text, names[..k])) == Ok(Now())
      {
        r := GenerateMentioned(text, names[k]);
        MentionStep(text, names, k);
        VisitAllConcat(project, old(Now()), MentionUses(text, names[..k]), MentionUse(text, names[k]));
        if r.Err? {
          MentionUsesPrefix(text, names, k + 1);
          VisitAllStopsIn(project, old(Now()), MentionUses(text, names[..k + 1]), MentionUses(text, names));
          return;
        }
      }
      assert names[..|names|] == names;
      return Ok(());
    }

    method GenerateMentioned(text: string, name: string) returns (r: Result<(), Fault>)
      requires Valid()
      modifies this`program, this`datatypeComputed, this`pouComputed
      ensures Valid() && Agrees(VisitAll(project, old(Now()), MentionUse(text, name)), r, Now())
      decreases Left(), 1
    {
      r := Ok(());
      if Mentions(text, name) {
        r := GeneratePouProgram(name);
      }
    }

    /** The types of the blocks of a network, in the order in which they are met. */
    method GenerateBlockTypes(names: seq<string>) returns (r: Result<(), Fault>)
      requires Valid()
      modifies this`program, this`datatypeComputed, this`pouComputed
      ensures Valid() && Agrees(VisitAll(project, old(Now()), BlockUses(names)), r, Now())
      decreases Left(), 1
    {
      for k := 0 to |names|
        invariant Valid() && Left() <= old(Left())
        invariant VisitAll(project, old(Now()), BlockUses(names[..k])) == Ok(Now())
      {
        BlockVisited(project, old(Now()), names, k);
        r := GeneratePouProgram(names[k]);
        if r.Err? {
          return;
        }
      }
      assert names[..|names|] == names;
      return Ok(());
    }

    /** The names, all marked as not computed. */
    static method NotComputed(names: seq<string>) returns (computed: map<string, bool>)
      ensures computed.Keys == (set n | n in names)
      ensures forall n :: n in computed ==> !computed[n]
    {
      computed := map[];
      for k := 0 to |names|
        invariant computed.Keys == (set n | n in names[..k])
        invariant forall n :: n in computed ==> !computed[n]
      {
        assert names[..k + 1] == names[..k] + [names[k]];
        computed := computed[names[k] := false];
      }
      assert names[..|names|] == names;
    }

    /** Enters all data types and POUs. */
    method CollectNames()
      requires Valid() && program == []
      modifies this`datatypeComputed, this`pouComputed
      ensures Valid() && Now() == State(All(project), []) && datatypeComputed.Keys == project.types.Keys
    {
      datatypeComputed := NotComputed(project.typeOrder);
      pouComputed := NotComputed(project.pouOrder);
      assert datatypeComputed.Keys == project.types.Keys && pouComputed.Keys == project.pous.Keys;
      assert Left() == All(project);
    }

    /** Generates the whole project. */
    method GenerateProgram() returns (r: Result<(), Fault>)
      requires Valid() && datatypeComputed == map[] && pouComputed == map[] && program == []
      modifies this
      ensures Agrees(GenerateProject(project), r, Now())
    {
      CollectNames();
      r := GenerateTypeSection();
      if r.Err? {
        return;
      }
      r := GenerateBlockTypes(project.pouOrder);
    }

    method GenerateDataTypes(names: seq<string>) returns (r: Result<(), Fault>)
      requires Valid()
      modifies this`program, this`datatypeComputed
      ensures Valid() && Agrees(VisitAll(project, old(Now()), TypeNodes(names)), r, Now())
    {
      for k := 0 to |names|
        invariant Valid() && VisitAll(project, old(Now()), TypeNodes(names[..k])) == Ok(Now())
      {
        assert names[..k + 1][..k] == names[..k];
        r := GenerateDataType(names[k]);
        if r.Err? {
          TypeNodesPrefix(names, k + 1);
          VisitAllStopsIn(project, old(Now()), TypeNodes(names[..k + 1]), TypeNodes(names));
          return;
        }
      }
      assert names[..|names|] == names;
      return Ok(());
    }

    method GenerateTypeSection() returns (r: Result<(), Fault>)
      requires Valid() && Now() == State(All(project), []) && datatypeComputed.Keys == project.types.Keys
      modifies this`program, this`datatypeComputed
      ensures Valid() && Agrees(GenerateTypes(project), r, Now())
    {
      if |datatypeComputed| > 0 {
        program := program + [TypeSection];
        r := GenerateDataTypes(project.typeOrder);
        if r.Err? {
          return;
        }
        program := program + [EndTypeSection];
      } else {
        assert project.types.Keys == {};
      }
      return Ok(());
    }
  }

  // ----- Visits in sequence

  lemma {:induction false} VisitAllConcat(p: Project, x: State, a: seq<Node>, b: seq<Node>)
    requires VisitAll(p, x, a).Ok?
    ensures VisitAll(p, x, a + b) == VisitAll(p, VisitAll(p, x, a).value, b)
    decreases |b|
  {
    if b == [] {
      assert a + b == a;
    } else {
      assert (a + b)[..|a + b| - 1] == a + b[..|b| - 1];
      VisitAllConcat(p, x, a, b[..|b| - 1]);
    }
  }

  /** An error stops all that follows. */
  lemma {:induction false} VisitAllStops(p: Project, x: State, a: seq<Node>, b: seq<Node>)
    requires VisitAll(p, x, a).Err?
    ensures VisitAll(p, x, a + b) == VisitAll(p, x, a)
    decreases |b|
  {
    if b == [] {
      assert a + b == a;
    } else {
      assert (a + b)[..|a + b| - 1] == a + b[..|b| - 1];
      VisitAllStops(p, x, a, b[..|b| - 1]);
    }
  }

  lemma {:induction false} VariableUsesPrefix(p: Project, names: seq<string>, k: nat)
    requires k <= |names|
    ensures VariableUses(p, names[..k]) <= VariableUses(p, names)
    decreases |names|
  {
    if k < |names| {
      assert names[..|names| - 1][..k] == names[..k];
      VariableUsesPrefix(p, names[..|names| - 1], k);
    } else {
      assert names[..k] == names;
    }
  }

  lemma {:induction false} BlockUsesPrefix(names: seq<string>, k: nat)
    requires k <= |names|
    ensures BlockUses(names[..k]) <= BlockUses(names)
    decreases |names|
  {
    if k < |names| {
      assert names[..|names| - 1][..k] == names[..k];
      BlockUsesPrefix(names[..|names| - 1], k);
    } else {
      assert names[..k] == names;
    }
  }

  lemma {:induction false} TypeNodesPrefix(names: seq<string>, k: nat)
    requires k <= |names|
    ensures TypeNodes(names[..k]) <= TypeNodes(names)
    decreases |names|
  {
    if k < |names| {
      assert names[..|names| - 1][..k] == names[..k];
      TypeNodesPrefix(names[..|names| - 1], k);
    } else {
      assert names[..k] == names;
    }
  }

  lemma {:induction false} ElementUsesPrefix(elements: seq<Element>, k: nat)
    requires k <= |elements|
    ensures ElementUses(elements[..k]) <= ElementUses(elements)
    decreases |elements|
  {
    if k < |elements| {
      assert elements[..|elements| - 1][..k] == elements[..k];
      ElementUsesPrefix(elements[..|elements| - 1], k);
    } else {
      assert elements[..k] == elements;
    }
  }

  lemma ElementStep(elements: seq<Element>, k: nat)
    requires k < |elements|
    ensures ElementUses(elements[..k + 1]) == ElementUses(elements[..k]) + DerivedOf(TypeOf(elements[k]))
  {
    assert elements[..k + 1][..k] == elements[..k];
  }

  lemma {:induction false} MentionUsesPrefix(text: string, names: seq<string>, k: nat)
    requires k <= |names|
    ensures MentionUses(text, names[..k]) <= MentionUses(text, names)
    decreases |names|
  {
    if k < |names| {
      assert names[..|names| - 1][..k] == names[..k];
      MentionUsesPrefix(text, names[..|names| - 1], k);
    } else {
      assert names[..k] == names;
    }
  }

  lemma VisitAllStopsIn(p: Project, x: State, front: seq<Node>, nodes: seq<Node>)
    requires front <= nodes && VisitAll(p, x, front).Err?
    ensures VisitAll(p, x, nodes) == VisitAll(p, x, front)
  {
    assert nodes == front + nodes[|front|..];
    VisitAllStops(p, x, front, nodes[|front|..]);
  }

  /** Visiting the `k`-th of the blocks, and what an error there means for all of them. */
  lemma BlockVisited(p: Project, x: State, names: seq<string>, k: nat)
    requires k < |names| && VisitAll(p, x, BlockUses(names[..k])).Ok?
    ensures VisitAll(p, x, BlockUses(names[..k + 1]))
         == Visit(p, VisitAll(p, x, BlockUses(names[..k])).value, PouNode(names[k]))
    ensures VisitAll(p, x, BlockUses(names[..k + 1])).Err? ==>
              VisitAll(p, x, BlockUses(names)) == VisitAll(p, x, BlockUses(names[..k + 1]))
  {
    assert names[..k + 1][..k] == names[..k];
    if VisitAll(p, x, BlockUses(names[..k + 1])).Err? {
      BlockUsesPrefix(names, k + 1);
      VisitAllStopsIn(p, x, BlockUses(names[..k + 1]), BlockUses(names));
    }
  }

  lemma VariableVisited(p: Project, x: State, names: seq<string>, k: nat)
    requires k < |names| && VisitAll(p, x, VariableUses(p, names[..k])).Ok?
    ensures VisitAll(p, x, VariableUses(p, names[..k + 1]))
         == Visit(p, VisitAll(p, x, VariableUses(p, names[..k])).value, VariableUse(p, names[k]))
    ensures VisitAll(p, x, VariableUses(p, names[..k + 1])).Err?
        ==> VisitAll(p, x, VariableUses(p, names)) == VisitAll(p, x, VariableUses(p, names[..k + 1]))
  {
    assert names[..k + 1][..k] == names[..k];
    if VisitAll(p, x, VariableUses(p, names[..k + 1])).Err? {
      VariableUsesPrefix(p, names, k + 1);
      VisitAllStopsIn(p, x, VariableUses(p, names[..k + 1]), VariableUses(p, names));
    }
  }

  lemma MentionStep(text: string, names: seq<string>, k: nat)
    requires k < |names|
    ensures MentionUses(text, names[..k + 1]) == MentionUses(text, names[..k]) + MentionUse(text, names[k])
  {
    assert names[..k + 1][..k] == names[..k];
  }

  /** A method's result and new state are those of the function. */
  ghost predicate Agrees(expected: Result<State, Fault>, r: Result<(), Fault>, now: State) {
    match r
    case Ok(_) => expected == Ok(now)
    case Err(f) => expected == Err(f)
  }
}
