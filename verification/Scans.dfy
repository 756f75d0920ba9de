/**
 A scan of a network: its elements are evaluated one after the other, each from the store as it is then. This says what
 a body does in which variables that are read are also written, as in a rung that holds itself.
 */
module Scans {
  import opened Results
  import opened StText
  import opened Networks
  import opened Emission

  datatype Element = SinkOf(id: nat) | BlockOf(id: nat)

  function ElementOf(st: Stmt): Element {
    if st.Assign? then SinkOf(st.sink) else BlockOf(st.block)
  }

  function ElementsOf(p: seq<Stmt>): (r: seq<Element>)
    ensures |r| == |p| && forall i :: 0 <= i < |p| ==> r[i] == ElementOf(p[i])
  {
    seq(|p|, i requires 0 <= i < |p| => ElementOf(p[i]))
  }

  /** A sink takes what reaches it, a block computes its outputs from what reaches its inputs. */
  ghost function Evaluated(body: Body, rank: nat -> nat, top: nat, f: Library, e: Element, s: Store): Store
    requires Layered(body, rank, top)
  {
    match e
    case SinkOf(id) =>
      if IsSink(body, id) then s[Named(body[id].name) := SinkValue(body, rank, top, id, s)] else s
    case BlockOf(b) =>
      if IsBlock(body, b) then
        var inputs := InputValues(body, rank, top, b, s);
        s + (map v: Var | v in OutputVars(b, |body[b].outputs|) :: f(b, inputs, v.pin))
      else s
  }

  ghost function Scan(body: Body, rank: nat -> nat, top: nat, f: Library, elements: seq<Element>, s: Store): Store
    requires Layered(body, rank, top)
  {
    if elements == [] then s
    else
      var n := |elements| - 1;
      Evaluated(body, rank, top, f, elements[n], Scan(body, rank, top, f, elements[..n], s))
  }

  /** What is written to the variable of a contact is a BOOL. */
  ghost predicate KeepsTypes(body: Body, rank: nat -> nat, top: nat)
    requires Layered(body, rank, top)
  {
    forall id, c, s ::
      IsSink(body, id) && c in body && body[c].Contact? && body[c].name == body[id].name && Typed(body, s) ==>
        SinkValue(body, rank, top, id, s).Bool?
  }

  lemma StepIsEvaluated(body: Body, rank: nat -> nat, top: nat, f: Library, st: Stmt, s: Store)
    requires Layered(body, rank, top) && Faithful(body, rank, top, st) && Typed(body, s) && KeepsTypes(body, rank, top)
    ensures Step(st, f, s) == Evaluated(body, rank, top, f, ElementOf(st), s)
    ensures Typed(body, Step(st, f, s))
  {
    if st.Assign? {
      assert EvalText(st.rhs, s) == SinkValue(body, rank, top, st.sink, s);
    } else {
      assert forall v :: v in OutputVars(st.block, st.outs) ==> v.Output?;
    }
    forall id | id in body && body[id].Contact?
      ensures Lookup(Step(st, f, s), Named(body[id].name)).Bool?
    {
      assert Lookup(s, Named(body[id].name)).Bool?;
    }
  }

  /** Running faithful statements is a scan of the network in their order, whatever names are read and written. */
  lemma {:induction false} RunIsScan(body: Body, rank: nat -> nat, top: nat, f: Library, p: seq<Stmt>, s: Store)
    requires Layered(body, rank, top) && AllFaithful(body, rank, top, p)
    requires KeepsTypes(body, rank, top) && Typed(body, s)
    ensures Run(p, f, s) == Scan(body, rank, top, f, ElementsOf(p), s) && Typed(body, Run(p, f, s))
    decreases |p|
  {
    if p != [] {
      var front, last := p[..|p| - 1], p[|p| - 1];
      RunIsScan(body, rank, top, f, front, s);
      assert ElementsOf(p)[..|p| - 1] == ElementsOf(front);
      StepIsEvaluated(body, rank, top, f, last, Run(front, f, s));
    }
  }
}
