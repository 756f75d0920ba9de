/**
 The data types and program organization units (POUs) of a project, and what each of them uses.
 */
module Declarations {
  import opened Texts

  /** The type named by a declaration: an elementary one, or a derived one that the project declares. */
  datatype TypeRef = Elementary(name: string) | Derived(name: string)

  datatype Element = Single(type_: TypeRef) | ArrayOf(base: TypeRef)

  datatype TypeDef =
    | Directly(base: TypeRef)
    | Subrange(base: TypeRef)
    | Enumerated
    | ArrayType(base: TypeRef)
    | Structure(elements: seq<Element>)

  datatype PouBody =
    | Text(text: string)
    | Graphic(blocks: seq<string>)

  /**
   `kind` is the type of POU; `variables` are the derived types of the variables of its interface, in order.
   `broken` says that its own text cannot be generated.
   */
  datatype Pou = Pou(kind: string, variables: seq<string>, body: PouBody, broken: bool)

  datatype Node = TypeNode(name: string) | PouNode(name: string)

  /** The declarations, the orders in which they are listed, and the block types of the libraries. */
  datatype Project = Project(types: map<string, TypeDef>, typeOrder: seq<string>,
                             pous: map<string, Pou>, pouOrder: seq<string>, library: set<string>)
  {
    ghost predicate Valid() {
      && (forall n :: n in typeOrder <==> n in types)
      && (forall n :: n in pouOrder <==> n in pous)
    }

    predicate IsBlock(name: string) {
      name in library || name in pous
    }
  }

  const POU_KINDS: set<string> := {"function", "functionBlock", "program"}

  // ----- Uses

  function DerivedOf(t: TypeRef): seq<Node> {
    if t.Derived? then [TypeNode(t.name)] else []
  }

  function TypeOf(e: Element): TypeRef {
    if e.Single? then e.type_ else e.base
  }

  function ElementUses(elements: seq<Element>): seq<Node> {
    if elements == [] then []
    else
      var n := |elements| - 1;
      ElementUses(elements[..n]) + DerivedOf(TypeOf(elements[n]))
  }

  function TypeUses(d: TypeDef): seq<Node> {
    match d
    case Directly(base) => DerivedOf(base)
    case ArrayType(base) => DerivedOf(base)
    case Structure(elements) => ElementUses(elements)
    case _ => []
  }

  function VariableUse(p: Project, name: string): Node {
    if p.IsBlock(name) then PouNode(name) else TypeNode(name)
  }

  function VariableUses(p: Project, names: seq<string>): seq<Node> {
    if names == [] then []
    else VariableUses(p, names[..|names| - 1]) + [VariableUse(p, names[|names| - 1])]
  }

  function BlockUses(names: seq<string>): seq<Node> {
    if names == [] then [] else BlockUses(names[..|names| - 1]) + [PouNode(names[|names| - 1])]
  }

  /** The characters that may not stand next to a name for it to be found; the caret is among them. */
  predicate Adjoins(c: char) {
    '0' <= c <= '9' || 'A' <= c <= 'Z' || c == '^'
  }

  predicate FoundAt(text: string, name: string, i: nat) {
    && i + |name| <= |text| && text[i..i + |name|] == name
    && (i == 0 || !Adjoins(text[i - 1])) && (i + |name| == |text| || !Adjoins(text[i + |name|]))
  }

  /** The name is in the text, letter case apart, and stands by itself. */
  predicate Mentions(text: string, name: string) {
    exists i :: 0 <= i <= |text| && FoundAt(Upper(text), Upper(name), i)
  }

  /** The characters of the pattern's class. */
  const CLASS: string := "0123456789^ABCDEFGHIJKLMNOPQRSTUVWXYZ"

  ghost predicate MayEndWith(before: string) {
    before == "" || before[|before| - 1] !in CLASS
  }

  ghost predicate MayStartWith(after: string) {
    after == "" || after[0] !in CLASS
  }

  lemma ClassExact(c: char)
    ensures Adjoins(c) <==> c in CLASS
  {
    ClassAdjoins();
    if '0' <= c <= '9' {
      assert CLASS[c as int - '0' as int] == c;
    } else if c == '^' {
      assert CLASS[10] == c;
    } else if 'A' <= c <= 'Z' {
      assert CLASS[11 + c as int - 'A' as int] == c;
    }
  }

  lemma ClassAdjoins()
    ensures forall i :: 0 <= i < |CLASS| ==> Adjoins(CLASS[i])
  {
  }

  /** The text is the name with something before and behind it that does not run into it. */
  lemma MentionsExact(text: string, name: string)
    ensures Mentions(text, name) <==>
            exists before, after ::
              Upper(text) == before + Upper(name) + after && MayEndWith(before) && MayStartWith(after)
  {
    var t, u := Upper(text), Upper(name);
    if i :| 0 <= i <= |text| && FoundAt(t, u, i) {
      FoundStands(t, u, i);
    }
    if before, after :| t == before + u + after && MayEndWith(before) && MayStartWith(after) {
      StandsFound(t, u, before, after);
    }
  }

  lemma FoundStands(t: string, u: string, i: nat)
    requires FoundAt(t, u, i)
    ensures t == t[..i] + u + t[i + |u|..] && MayEndWith(t[..i]) && MayStartWith(t[i + |u|..])
  {
    if i > 0 {
      ClassExact(t[i - 1]);
    }
    if i + |u| < |t| {
      ClassExact(t[i + |u|]);
    }
  }

  lemma StandsFound(t: string, u: string, before: string, after: string)
    requires t == before + u + after && MayEndWith(before) && MayStartWith(after)
    ensures FoundAt(t, u, |before|)
  {
    if before != "" {
      ClassExact(before[|before| - 1]);
    }
    if after != "" {
      ClassExact(after[0]);
    }
  }

  function MentionUse(text: string, name: string): seq<Node> {
    if Mentions(text, name) then [PouNode(name)] else []
  }

  function MentionUses(text: string, names: seq<string>): seq<Node> {
    if names == [] then []
    else
      var n := |names| - 1;
      MentionUses(text, names[..n]) + MentionUse(text, names[n])
  }

  function BodyUses(p: Project, body: PouBody): seq<Node> {
    match body
    case Text(text) => MentionUses(text, p.pouOrder)
    case Graphic(blocks) => BlockUses(blocks)
  }

  /** What generating a declaration asks to be generated, in order. Names the project does not declare are harmless. */
  function Uses(p: Project, node: Node): seq<Node> {
    match node
    case TypeNode(n) => if n in p.types then TypeUses(p.types[n]) else []
    case PouNode(n) => if n in p.pous then VariableUses(p, p.pous[n].variables) + BodyUses(p, p.pous[n].body) else []
  }

  // ----- What a declaration names, as it is written

  /** The type is the other one or an array of it, or a structure with such an element. */
  ghost predicate TypeNames(d: TypeDef, name: string) {
    || d == Directly(Derived(name))
    || d == ArrayType(Derived(name))
    || (d.Structure? && exists i :: 0 <= i < |d.elements| && ElementNames(d.elements[i], name))
  }

  ghost predicate ElementNames(e: Element, name: string) {
    e == Single(Derived(name)) || e == ArrayOf(Derived(name))
  }

  /** The POU has a variable of the type, which is a block's or a data type, or its body has the block in it. */
  ghost predicate PouNames(p: Project, pou: Pou, other: Node) {
    || (&& (exists i :: 0 <= i < |pou.variables| && pou.variables[i] == other.name)
        && (other.PouNode? <==> other.name in p.library || other.name in p.pous))
    || (other.PouNode? && BodyNames(p, pou.body, other.name))
  }

  ghost predicate BodyNames(p: Project, body: PouBody, name: string) {
    match body
    case Graphic(blocks) => exists i :: 0 <= i < |blocks| && blocks[i] == name
    case Text(text) => name in p.pouOrder && Mentions(text, name)
  }

  /** The declaration of the one names the other. */
  ghost predicate Names(p: Project, node: Node, other: Node) {
    match node
    case TypeNode(n) => n in p.types && other.TypeNode? && TypeNames(p.types[n], other.name)
    case PouNode(n) => n in p.pous && PouNames(p, p.pous[n], other)
  }

  lemma {:induction false} ElementUsesExact(elements: seq<Element>, other: Node)
    ensures other in ElementUses(elements) <==>
            other.TypeNode? && exists i :: 0 <= i < |elements| && ElementNames(elements[i], other.name)
    decreases |elements|
  {
    if elements != [] {
      var n := |elements| - 1;
      ElementUsesExact(elements[..n], other);
      assert other in DerivedOf(TypeOf(elements[n])) <==> other.TypeNode? && ElementNames(elements[n], other.name);
      assert forall i :: 0 <= i < n ==> elements[..n][i] == elements[i];
    }
  }

  lemma {:induction false} VariableUsesExact(p: Project, names: seq<string>, other: Node)
    ensures other in VariableUses(p, names) <==>
            && (exists i :: 0 <= i < |names| && names[i] == other.name)
            && (other.PouNode? <==> other.name in p.library || other.name in p.pous)
    decreases |names|
  {
    if names != [] {
      var n := |names| - 1;
      VariableUsesExact(p, names[..n], other);
      assert forall i :: 0 <= i < n ==> names[..n][i] == names[i];
    }
  }

  lemma {:induction false} BlockUsesExact(names: seq<string>, other: Node)
    ensures other in BlockUses(names) <==> other.PouNode? && exists i :: 0 <= i < |names| && names[i] == other.name
    decreases |names|
  {
    if names != [] {
      var n := |names| - 1;
      BlockUsesExact(names[..n], other);
      assert forall i :: 0 <= i < n ==> names[..n][i] == names[i];
    }
  }

  lemma {:induction false} MentionUsesExact(text: string, names: seq<string>, other: Node)
    ensures other in MentionUses(text, names) <==> other.PouNode? && other.name in names && Mentions(text, other.name)
    decreases |names|
  {
    if names != [] {
      var n := |names| - 1;
      MentionUsesExact(text, names[..n], other);
      assert names == names[..n] + [names[n]];
    }
  }

  /** What is generated for a declaration is what the declaration names. */
  lemma UsesExact(p: Project, node: Node, other: Node)
    ensures other in Uses(p, node) <==> Names(p, node, other)
  {
    match node
    case TypeNode(n) =>
      if n in p.types && p.types[n].Structure? {
        ElementUsesExact(p.types[n].elements, other);
      }
    case PouNode(n) =>
      if n in p.pous {
        var pou := p.pous[n];
        VariableUsesExact(p, pou.variables, other);
        match pou.body
        case Graphic(blocks) => BlockUsesExact(blocks, other);
        case Text(text) => MentionUsesExact(text, p.pouOrder, other);
      }
  }

  /** All declarations. */
  ghost function All(p: Project): (all: set<Node>)
    ensures forall node :: node in all <==> Declared(p, node)
  {
    (set n | n in p.types :: TypeNode(n)) + (set n | n in p.pous :: PouNode(n))
  }

  ghost predicate Declared(p: Project, node: Node) {
    match node
    case TypeNode(n) => n in p.types
    case PouNode(n) => n in p.pous
  }

  /** A subrange of a derived type, a POU of no known kind, or one whose own text cannot be generated. */
  ghost predicate Faulty(p: Project, node: Node) {
    match node
    case TypeNode(n) => n in p.types && p.types[n].Subrange? && p.types[n].base.Derived?
    case PouNode(n) => n in p.pous && (p.pous[n].kind !in POU_KINDS || p.pous[n].broken)
  }

  lemma {:induction false} TypesUseTypes(p: Project, n: string, i: nat)
    requires i < |Uses(p, TypeNode(n))|
    ensures Uses(p, TypeNode(n))[i].TypeNode?
  {
    if n in p.types && p.types[n].Structure? {
      ElementsUseTypes(p.types[n].elements, i);
    }
  }

  lemma {:induction false} ElementsUseTypes(elements: seq<Element>, i: nat)
    requires i < |ElementUses(elements)|
    ensures ElementUses(elements)[i].TypeNode?
    decreases |elements|
  {
    var n := |elements| - 1;
    if i < |ElementUses(elements[..n])| {
      ElementsUseTypes(elements[..n], i);
    }
  }
}
