/**
 The links of a chart as they are wired: which transitions stand directly in front of a step or a jump, and which
 steps in front of a transition. This is said of connections alone, without a list that is put together.
 */
module SfcWiring {
  import opened Results
  import opened Sfc
  import opened SfcGenerator

  // ----- The wiring

  /** The connection leads to `e` and to nothing else. */
  predicate LeadsTo(connections: seq<Source>, e: Source) {
    connections == [e]
  }

  /** The numbers of the inputs of a convergence that lead to `e` and to nothing else. */
  function InputsFrom(inputs: seq<seq<Source>>, e: Source): set<nat> {
    set i: nat | i < |inputs| && LeadsTo(inputs[i], e)
  }

  /** How often `e` stands in front: directly, or at inputs of a selection convergence. */
  function WaysFromTransition(connections: seq<Source>, e: Source): nat {
    if |connections| != 1 then 0
    else if connections[0].SelectionConvergence? then |InputsFrom(connections[0].inputs, e)|
    else if e.TransitionSource? && LeadsTo(connections, e) then 1
    else 0
  }

  /** The same, or through one simultaneous divergence. */
  function WaysToStep(input: Option<seq<Source>>, e: Source): nat {
    if input.None? || |input.value| != 1 then 0
    else if input.value[0].SimultaneousDivergence? then WaysFromTransition(input.value[0].input, e)
    else WaysFromTransition(input.value, e)
  }

  function WaysFromStep(connections: seq<Source>, e: Source): nat {
    if |connections| != 1 then 0
    else if connections[0].SimultaneousConvergence? then |InputsFrom(connections[0].inputs, e)|
    else if e.StepSource? && LeadsTo(connections, e) then 1
    else 0
  }

  /** How often `e` stands in front of a transition, directly or through one selection divergence. */
  function WaysToTransition(input: Option<seq<Source>>, e: Source): nat {
    if input.None? || |input.value| != 1 then 0
    else if input.value[0].SelectionDivergence? then WaysFromStep(input.value[0].input, e)
    else WaysFromStep(input.value, e)
  }

  /** The transition stands directly in front of the step or jump with this connection. */
  ghost predicate PrecedesStep(t: nat, input: Option<seq<Source>>) {
    && input.Some? && |input.value| == 1
    && (|| PrecedesAt(TransitionSource(t), input.value)
        || (input.value[0].SimultaneousDivergence? && PrecedesAt(TransitionSource(t), input.value[0].input)))
  }

  /** The connection is the transition itself, or a selection convergence some input of which is. */
  ghost predicate PrecedesAt(e: Source, connections: seq<Source>) {
    || LeadsTo(connections, e)
    || (|connections| == 1 && connections[0].SelectionConvergence?
        && exists i :: 0 <= i < |connections[0].inputs| && LeadsTo(connections[0].inputs[i], e))
  }

  /** The step stands directly in front of the transition with this connection. */
  ghost predicate PrecedesTransition(s: string, input: Option<seq<Source>>) {
    && input.Some? && |input.value| == 1
    && (|| PrecedesThere(StepSource(s), input.value)
        || (input.value[0].SelectionDivergence? && PrecedesThere(StepSource(s), input.value[0].input)))
  }

  ghost predicate PrecedesThere(e: Source, connections: seq<Source>) {
    || LeadsTo(connections, e)
    || (|connections| == 1 && connections[0].SimultaneousConvergence?
        && exists i :: 0 <= i < |connections[0].inputs| && LeadsTo(connections[0].inputs[i], e))
  }

  // ----- What the generator takes from a convergence

  /** The elements are the single ends of inputs, in the order of the inputs; inputs without one are passed over. */
  ghost predicate InOrderOf(inputs: seq<seq<Source>>, elements: seq<Source>, at: seq<nat>) {
    && |at| == |elements|
    && (forall i, j :: 0 <= i < j < |at| ==> at[i] < at[j])
    && (forall k :: 0 <= k < |at| ==> at[k] < |inputs| && LeadsTo(inputs[at[k]], elements[k]))
    && (forall i :: 0 <= i < |inputs| && |inputs[i]| == 1 ==> i in at)
  }

  lemma {:induction false} ConvergenceInOrder(inputs: seq<seq<Source>>) returns (at: seq<nat>)
    ensures InOrderOf(inputs, ConvergenceInputs(inputs), at)
    decreases |inputs|
  {
    if inputs == [] {
      return [];
    }
    var rest := ConvergenceInOrder(inputs[1..]);
    var later := LaterInOrder(inputs, inputs[1..], ConvergenceInputs(inputs[1..]), rest);
    if |inputs[0]| != 1 {
      return later;
    }
    FirstInOrder(inputs, ConvergenceInputs(inputs[1..]), later);
    at := [0] + later;
  }

  /** All inputs but the first. */
  ghost predicate InOrderFrom(inputs: seq<seq<Source>>, elements: seq<Source>, at: seq<nat>) {
    && |at| == |elements|
    && (forall i, j :: 0 <= i < j < |at| ==> at[i] < at[j])
    && (forall k :: 0 <= k < |at| ==> 1 <= at[k] < |inputs| && LeadsTo(inputs[at[k]], elements[k]))
    && (forall i :: 1 <= i < |inputs| && |inputs[i]| == 1 ==> i in at)
  }

  lemma LaterInOrder(inputs: seq<seq<Source>>, tail: seq<seq<Source>>, elements: seq<Source>, rest: seq<nat>)
    returns (later: seq<nat>)
    requires |inputs| == |tail| + 1 && forall j :: 0 <= j < |tail| ==> tail[j] == inputs[j + 1]
    requires InOrderOf(tail, elements, rest)
    ensures InOrderFrom(inputs, elements, later)
  {
    later := seq(|rest|, k requires 0 <= k < |rest| => rest[k] + 1);
    forall i | 1 <= i < |inputs| && |inputs[i]| == 1
      ensures i in later
    {
      assert |tail[i - 1]| == 1;
      AmongLater(rest, later, i - 1);
    }
  }

  lemma AmongLater(rest: seq<nat>, later: seq<nat>, i: nat)
    requires |later| == |rest| && (forall k :: 0 <= k < |rest| ==> later[k] == rest[k] + 1) && i in rest
    ensures i + 1 in later
  {
    var k :| 0 <= k < |rest| && rest[k] == i;
    assert later[k] == i + 1;
  }

  lemma FirstInOrder(inputs: seq<seq<Source>>, elements: seq<Source>, later: seq<nat>)
    requires inputs != [] && |inputs[0]| == 1 && InOrderFrom(inputs, elements, later)
    ensures InOrderOf(inputs, inputs[0] + elements, [0] + later)
  {
    assert inputs[0] == [inputs[0][0]];
    var at: seq<nat> := [0] + later;
    forall i | 0 <= i < |inputs| && |inputs[i]| == 1
      ensures i in at
    {
      assert i == 0 || i in later;
    }
  }

  /** The transitions taken from a selection convergence, and the steps from a simultaneous one, keep its order. */
  lemma ElementsInOrder(inputs: seq<seq<Source>>, input: seq<Source>) returns (at: seq<nat>)
    ensures input == [SelectionConvergence(inputs)] || input == [SimultaneousDivergence([SelectionConvergence(inputs)])]
        ==> InOrderOf(inputs, TransitionElements(Some(input)), at)
    ensures || input == [SimultaneousConvergence(inputs)]
            || input == [SelectionDivergence([SimultaneousConvergence(inputs)])]
        ==> InOrderOf(inputs, StepElements(input), at)
  {
    at := ConvergenceInOrder(inputs);
  }

  // ----- How often

  lemma {:induction false} ShiftedSize(a: set<nat>, b: set<nat>)
    requires forall i: nat :: i in b <==> i > 0 && i - 1 in a
    ensures |a| == |b|
    decreases |a|
  {
    if x :| x in a {
      assert x + 1 in b;
      ShiftedSize(a - {x}, b - {x + 1});
    } else {
      assert b == {};
    }
  }

  lemma FirstInput(inputs: seq<seq<Source>>, e: Source)
    requires inputs != []
    ensures |InputsFrom(inputs, e)| == |InputsFrom(inputs[1..], e)| + if LeadsTo(inputs[0], e) then 1 else 0
  {
    var all, later := InputsFrom(inputs, e), InputsFrom(inputs[1..], e);
    forall i: nat
      ensures i in all - {0} <==> i > 0 && i - 1 in later
    {
      assert 0 < i < |inputs| ==> inputs[i] == inputs[1..][i - 1];
    }
    ShiftedSize(later, all - {0});
  }

  lemma {:induction false} ConvergenceCount(inputs: seq<seq<Source>>, e: Source)
    ensures multiset(ConvergenceInputs(inputs))[e] == |InputsFrom(inputs, e)|
    decreases |inputs|
  {
    if inputs == [] {
      assert InputsFrom(inputs, e) == {};
    } else {
      ConvergenceCount(inputs[1..], e);
      FirstInput(inputs, e);
      assert |inputs[0]| == 1 ==> inputs[0] == [inputs[0][0]];
    }
  }

  lemma {:induction false} IdCount(sources: seq<Source>, t: nat)
    ensures multiset(TransitionIds(sources))[t] == multiset(sources)[TransitionSource(t)]
    decreases |sources|
  {
    if sources != [] {
      IdCount(sources[1..], t);
      assert sources == [sources[0]] + sources[1..];
    }
  }

  lemma {:induction false} NameCount(sources: seq<Source>, s: string)
    ensures multiset(StepNames(sources))[s] == multiset(sources)[StepSource(s)]
    decreases |sources|
  {
    if sources != [] {
      NameCount(sources[1..], s);
      assert sources == [sources[0]] + sources[1..];
    }
  }

  lemma ElementCount(input: Option<seq<Source>>, e: Source)
    ensures multiset(TransitionElements(input))[e] == WaysToStep(input, e)
  {
    if input.Some? && |input.value| == 1 {
      var c := input.value[0];
      assert input.value == [c];
      if c.SelectionConvergence? {
        ConvergenceCount(c.inputs, e);
      } else if c.SimultaneousDivergence? && |c.input| == 1 {
        assert c.input == [c.input[0]];
        if c.input[0].SelectionConvergence? {
          ConvergenceCount(c.input[0].inputs, e);
        }
      }
    }
  }

  lemma StepElementCount(input: seq<Source>, e: Source)
    ensures multiset(StepElements(input))[e] == WaysToTransition(Some(input), e)
  {
    if |input| == 1 {
      var c := input[0];
      assert input == [c];
      if c.SimultaneousConvergence? {
        ConvergenceCount(c.inputs, e);
      } else if c.SelectionDivergence? && |c.input| == 1 {
        assert c.input == [c.input[0]];
        if c.input[0].SimultaneousConvergence? {
          ConvergenceCount(c.input[0].inputs, e);
        }
      }
    }
  }

  // ----- The links are those that are wired

  /** A transition is taken for one in front of a step or jump exactly if it stands there, as often as it is wired. */
  lemma BeforeStep(input: Option<seq<Source>>, t: nat)
    ensures multiset(TransitionsBefore(input))[t] == WaysToStep(input, TransitionSource(t))
    ensures t in TransitionsBefore(input) <==> PrecedesStep(t, input)
  {
    ElementCount(input, TransitionSource(t));
    IdCount(TransitionElements(input), t);
    WaysExact(input, t);
  }

  lemma WaysExact(input: Option<seq<Source>>, t: nat)
    ensures WaysToStep(input, TransitionSource(t)) > 0 <==> PrecedesStep(t, input)
  {
    if input.Some? && |input.value| == 1 {
      WaysAt(TransitionSource(t), input.value);
      if input.value[0].SimultaneousDivergence? {
        WaysAt(TransitionSource(t), input.value[0].input);
      }
    }
  }

  lemma WaysAt(e: Source, connections: seq<Source>)
    requires e.TransitionSource?
    ensures WaysFromTransition(connections, e) > 0 <==> PrecedesAt(e, connections)
  {
    if |connections| == 1 && connections[0].SelectionConvergence? {
      SomeInput(connections[0].inputs, e);
    }
  }

  lemma SomeInput(inputs: seq<seq<Source>>, e: Source)
    ensures |InputsFrom(inputs, e)| > 0 <==> exists i :: 0 <= i < |inputs| && LeadsTo(inputs[i], e)
  {
    if i :| 0 <= i < |inputs| && LeadsTo(inputs[i], e) {
      assert i in InputsFrom(inputs, e);
    } else {
      assert InputsFrom(inputs, e) == {};
    }
  }

  /** A step is taken for one in front of a transition exactly if it stands there, as often as it is wired. */
  lemma BeforeTransition(input: Option<seq<Source>>, s: string)
    ensures multiset(StepsBefore(input))[s] == WaysToTransition(input, StepSource(s))
    ensures s in StepsBefore(input) <==> PrecedesTransition(s, input)
  {
    if input.Some? {
      StepElementCount(input.value, StepSource(s));
      NameCount(StepElements(input.value), s);
      StepWaysExact(input, s);
    }
  }

  lemma StepWaysExact(input: Option<seq<Source>>, s: string)
    ensures WaysToTransition(input, StepSource(s)) > 0 <==> PrecedesTransition(s, input)
  {
    if input.Some? && |input.value| == 1 {
      StepWaysAt(StepSource(s), input.value);
      if input.value[0].SelectionDivergence? {
        StepWaysAt(StepSource(s), input.value[0].input);
      }
    }
  }

  lemma StepWaysAt(e: Source, connections: seq<Source>)
    requires e.StepSource?
    ensures WaysFromStep(connections, e) > 0 <==> PrecedesThere(e, connections)
  {
    if |connections| == 1 && connections[0].SimultaneousConvergence? {
      SomeInput(connections[0].inputs, e);
    }
  }

  /** Something that is no transition stops the generation of a step exactly if it stands where a transition should. */
  lemma StepFineExact(body: Body, s: string)
    requires s in body.steps
    ensures StepFine(body, s) <==> forall e :: WaysToStep(body.steps[s].input, e) > 0 ==> e.TransitionSource?
  {
    var elements := TransitionElements(body.steps[s].input);
    forall e
      ensures WaysToStep(body.steps[s].input, e) > 0 <==> e in elements
    {
      ElementCount(body.steps[s].input, e);
    }
  }

  lemma TransitionFineExact(body: Body, t: nat)
    requires t in body.transitions
    ensures TransitionFine(body, t) <==>
            && body.transitions[t].Some?
            && forall e :: WaysToTransition(body.transitions[t], e) > 0 ==> e.StepSource?
  {
    if body.transitions[t].Some? {
      var elements := StepElements(body.transitions[t].value);
      forall e
        ensures WaysToTransition(body.transitions[t], e) > 0 <==> e in elements
      {
        StepElementCount(body.transitions[t].value, e);
      }
    }
  }

  lemma JumpCount(before: seq<nat>, target: string, t: nat, s: string)
    ensures LinksOf(before, target)[(t, s)] == if s == target then multiset(before)[t] else 0
  {
    if before != [] {
      var n := |before| - 1;
      JumpCount(before[..n], target, t, s);
      assert before == before[..n] + [before[n]];
    }
  }

  /** A jump adds its target behind the transitions in front of it, as often as they are wired, and nothing else. */
  lemma JumpWired(i: Instance, t: nat, s: string)
    ensures InstanceLinks(i)[(t, s)]
         == if i.JumpInstance? && i.target == s then WaysToStep(i.input, TransitionSource(t)) else 0
  {
    if i.JumpInstance? {
      JumpCount(TransitionsBefore(i.input), i.target, t, s);
      BeforeStep(i.input, t);
    }
  }

  /**
   Whatever the order of the instances, the tables have every transition from exactly the steps that stand in front of
   it, and to exactly the steps that it stands in front of, and those of the jumps, each as often as it is wired.
   */
  lemma TablesWired(body: Body, instances: seq<Instance>, t: nat, s: string)
    requires WellFormed(Resolve(body)) && Instances(Resolve(body), instances)
    requires t in body.transitions && s in body.steps
    ensures var x := ProcessAll(Resolve(body), instances);
            && multiset(FromOf(x, t))[s] == WaysToTransition(body.transitions[t], StepSource(s))
            && InTo(x, t, s) == WaysToStep(body.steps[s].input, TransitionSource(t)) + JumpLinks(instances)[(t, s)]
  {
    TablesComplete(Resolve(body), instances);
    BeforeTransition(body.transitions[t], s);
    BeforeStep(body.steps[s].input, t);
  }
}
