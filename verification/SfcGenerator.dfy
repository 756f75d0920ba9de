/**
 Building the step and transition tables of a sequential function chart. The generation of steps and that
 of transitions call each other; each is entered in its table before its predecessors are followed, so the
 walk ends on every chart, loops included.
 */
module SfcGenerator {
  import opened Seals
  import opened Results
  import opened Sfc

  datatype Instance =
    | StepInstance(name: string)
    | TransitionInstance(id: nat)
    | JumpInstance(target: string, input: Option<seq<Source>>)

  /** A jump to a step that does not exist is an error; anything else that is taken for what it is not raises one. */
  datatype Fault = UnknownJumpTarget(target: string) | NotATransition | NotAStep | NoConnectionPoint(id: nat)

  /** The instance makes the generator stop. */
  ghost predicate InstanceFine(body: Body, i: Instance) {
    match i
    case StepInstance(name) => StepFine(body, name)
    case TransitionInstance(id) => TransitionFine(body, id)
    case JumpInstance(target, input) => HasStep(body, target) && AllTransitions(TransitionElements(input))
  }

  /** The instances are all the steps and transitions of the body, and any jumps. */
  ghost predicate InstancesOf(body: Body, instances: seq<Instance>) {
    && (forall i :: i in instances && i.StepInstance? ==> i.name in body.steps)
    && (forall i :: i in instances && i.TransitionInstance? ==> i.id in body.transitions)
    && (forall s :: s in body.steps ==> StepInstance(s) in instances)
    && (forall t :: t in body.transitions ==> TransitionInstance(t) in instances)
  }

  /** The links the jumps among the instances stand for. */
  ghost function JumpLinks(instances: seq<Instance>): Jumped {
    if instances == [] then multiset{}
    else
      var n := |instances| - 1;
      JumpLinks(instances[..n]) + InstanceLinks(instances[n])
  }

  ghost function InstanceLinks(i: Instance): Jumped {
    if i.JumpInstance? then LinksOf(TransitionsBefore(i.input), i.target) else multiset{}
  }

  ghost function LinksOf(before: seq<nat>, target: string): Jumped {
    if before == [] then multiset{}
    else LinksOf(before[..|before| - 1], target) + multiset{(before[|before| - 1], target)}
  }

  // ----- Processing the instances, as a function

  const EMPTY: Tables := Tables(map[], map[], [])

  function Jumps(chart: Chart, x: Tables, before: seq<nat>, target: string): Tables {
    if before == [] then x
    else
      var n := |before| - 1;
      AddTo(VisitTransition(chart, Jumps(chart, x, before[..n], target), before[n]), before[n], target)
  }

  function Process(chart: Chart, x: Tables, i: Instance): Tables {
    match i
    case StepInstance(name) => VisitStep(chart, x, name)
    case TransitionInstance(id) => VisitTransition(chart, x, id)
    case JumpInstance(target, input) => Jumps(chart, x, TransitionsBefore(input), target)
  }

  function ProcessAll(chart: Chart, instances: seq<Instance>): Tables {
    if instances == [] then EMPTY
    else Process(chart, ProcessAll(chart, instances[..|instances| - 1]), instances[|instances| - 1])
  }

  /** The instance's connection, if it is a jump's, leads to transitions of the chart. */
  ghost predicate Connected(chart: Chart, i: Instance) {
    match i
    case StepInstance(name) => name in chart.steps
    case TransitionInstance(id) => id in chart.transitions
    case JumpInstance(_, input) => forall t :: t in TransitionsBefore(input) ==> t in chart.transitions
  }

  ghost predicate Ok(chart: Chart, x: Tables, behind: Behind, jumped: Jumped) {
    WalkOk(chart, x, behind, jumped, {}, {}) && Sound(chart, x)
  }

  lemma {:induction false} JumpsOk(chart: Chart, x: Tables, behind: Behind, jumped: Jumped, before: seq<nat>,
          target: string)
    returns (behind': Behind)
    requires WellFormed(chart) && Ok(chart, x, behind, jumped)
    requires forall t :: t in before ==> t in chart.transitions
    ensures Ok(chart, Jumps(chart, x, before, target), behind', jumped + LinksOf(before, target))
    ensures Grows(x, Jumps(chart, x, before, target))
    decreases |before|
  {
    if before == [] {
      assert jumped + multiset{} == jumped;
      return behind;
    }
    var front, t := before[..|before| - 1], before[|before| - 1];
    var b := JumpsOk(chart, x, behind, jumped, front, target);
    behind' := JumpOk(chart, Jumps(chart, x, front, target), b, jumped + LinksOf(front, target), t, target);
    LinksAdded(jumped, before, target);
  }

  lemma LinksAdded(jumped: Jumped, before: seq<nat>, target: string)
    requires before != []
    ensures var n := |before| - 1;
            jumped + LinksOf(before, target) == jumped + LinksOf(before[..n], target) + multiset{(before[n], target)}
  {
  }

  lemma JumpOk(chart: Chart, y: Tables, behind: Behind, jumped: Jumped, t: nat, target: string)
    returns (behind': Behind)
    requires WellFormed(chart) && Ok(chart, y, behind, jumped) && t in chart.transitions
    ensures var z := AddTo(VisitTransition(chart, y, t), t, target);
            Ok(chart, z, behind', jumped + multiset{(t, target)}) && Grows(y, z)
  {
    behind' := VisitTransitionOk(chart, y, behind, jumped, {}, {}, t);
    JumpRecorded(chart, VisitTransition(chart, y, t), behind', jumped, t, target);
    VisitTransitionSound(chart, y, t);
    ToAddedSound(chart, VisitTransition(chart, y, t), t, target);
  }

  lemma ProcessOk(chart: Chart, x: Tables, behind: Behind, jumped: Jumped, i: Instance) returns (behind': Behind)
    requires WellFormed(chart) && Ok(chart, x, behind, jumped) && Connected(chart, i)
    ensures Ok(chart, Process(chart, x, i), behind', jumped + InstanceLinks(i))
    ensures Grows(x, Process(chart, x, i))
    ensures i.StepInstance? ==> i.name in Process(chart, x, i).steps
    ensures i.TransitionInstance? ==> i.id in Process(chart, x, i).transitions
  {
    assert jumped + multiset{} == jumped;
    match i
    case StepInstance(name) =>
      behind' := VisitStepOk(chart, x, behind, jumped, {}, {}, name);
      VisitStepSound(chart, x, name);
    case TransitionInstance(id) =>
      behind' := VisitTransitionOk(chart, x, behind, jumped, {}, {}, id);
      VisitTransitionSound(chart, x, id);
    case JumpInstance(target, input) =>
      behind' := JumpsOk(chart, x, behind, jumped, TransitionsBefore(input), target);
  }

  lemma {:induction false} ProcessAllOk(chart: Chart, instances: seq<Instance>) returns (behind: Behind)
    requires WellFormed(chart) && forall i :: i in instances ==> Connected(chart, i)
    ensures Ok(chart, ProcessAll(chart, instances), behind, JumpLinks(instances))
    ensures forall i :: i in instances && i.StepInstance? ==> i.name in ProcessAll(chart, instances).steps
    ensures forall i :: i in instances && i.TransitionInstance? ==> i.id in ProcessAll(chart, instances).transitions
    decreases |instances|
  {
    behind := map[];
    if instances != [] {
      var n := |instances| - 1;
      var front := instances[..n];
      assert instances == front + [instances[n]];
      var b := ProcessAllOk(chart, front);
      behind := ProcessOk(chart, ProcessAll(chart, front), b, JumpLinks(front), instances[n]);
    }
  }

  /** All links of the chart are in the tables, each as often as the chart has it. */
  ghost predicate Complete(chart: Chart, x: Tables, jumped: Jumped) {
    && x.steps.Keys == chart.steps.Keys && x.transitions.Keys == chart.transitions.Keys
    && Mirror(x) && EntriesOk(chart, x)
    && (forall t :: t in chart.transitions ==> FromOf(x, t) == PredS(chart, t))
    && (forall t: nat, s: string :: InTo(x, t, s) == multiset(PredT(chart, s))[t] + jumped[(t, s)])
  }

  /** The instances are all the steps and transitions of the chart, and any jumps. */
  ghost predicate Instances(chart: Chart, instances: seq<Instance>) {
    && (forall i :: i in instances ==> Connected(chart, i))
    && (forall s :: s in chart.steps ==> StepInstance(s) in instances)
    && (forall t :: t in chart.transitions ==> TransitionInstance(t) in instances)
  }

  /**
   Whatever the order of the instances, the tables end up with every step, every transition and every link
   of the chart and of its jumps exactly once.
   */
  lemma TablesComplete(chart: Chart, instances: seq<Instance>)
    requires WellFormed(chart) && Instances(chart, instances)
    ensures Complete(chart, ProcessAll(chart, instances), JumpLinks(instances))
  {
    var x := ProcessAll(chart, instances);
    var behind := ProcessAllOk(chart, instances);
    forall s | s in chart.steps
      ensures s in x.steps
    {
      assert StepInstance(s) in instances;
    }
    forall t | t in chart.transitions
      ensures t in x.transitions && FromOf(x, t) == PredS(chart, t)
    {
      assert TransitionInstance(t) in instances;
      assert TransitionSettled(chart, x, t);
    }
    LinksComplete(chart, x, behind, JumpLinks(instances));
  }

  /** When nothing is being generated any more, the transition-to-step links are those of the chart and of the jumps. */
  lemma LinksComplete(chart: Chart, x: Tables, behind: Behind, jumped: Jumped)
    requires ToLinks(x, behind, jumped) && (forall s :: StepSettled(chart, x, behind, s))
    requires x.steps.Keys == chart.steps.Keys
    ensures forall t: nat, s: string :: InTo(x, t, s) == multiset(PredT(chart, s))[t] + jumped[(t, s)]
  {
    forall t: nat, s: string
      ensures InTo(x, t, s) == multiset(PredT(chart, s))[t] + jumped[(t, s)]
    {
      assert StepSettled(chart, x, behind, s);
      assert InTo(x, t, s) == InBehind(behind, s, t) + jumped[(t, s)];
    }
  }

  lemma LoopGoesOn(chart: Chart, x: Tables, t: nat, k: nat)
    requires k < |PredS(chart, t)|
    ensures var s := PredS(chart, t)[k];
            TransitionLoop(chart, x, t, k) == TransitionLoop(chart, AddFrom(VisitStep(chart, x, s), t, s), t, k + 1)
  {
  }

  lemma LoopEnds(chart: Chart, x: Tables, t: nat, k: nat)
    requires k >= |PredS(chart, t)|
    ensures TransitionLoop(chart, x, t, k) == x
  {
  }

  class PouSfcGenerator {
    const body: Body
    const chart: Chart

    var steps: Steps
    var transitions: Transitions
    var initialSteps: seq<string>

    /** The chart is that of the body; sealed, because only the walks need to know. */
    ghost predicate Valid() {
      forall key {:trigger Unsealed(key)} :: Unsealed(key) ==> chart == Resolve(body)
    }

    ghost function Now(): Tables
      reads this
    {
      Tables(steps, transitions, initialSteps)
    }

    /** Nothing that was entered since makes the generator stop. */
    ghost predicate FineSince(earlier: Tables)
      reads this
    {
      && (forall s :: s in steps && s !in earlier.steps ==> StepFine(body, s))
      && (forall t :: t in transitions && t !in earlier.transitions ==> TransitionFine(body, t))
    }

    constructor (body: Body)
      ensures this.body == body && chart == Resolve(body) && Valid() && Now() == EMPTY
    {
      this.body, chart := body, Resolve(body);
      steps, transitions, initialSteps := map[], map[], [];
    }

    /** What is in front of a step, as elements. */
    lemma StepInBody(name: string)
      requires Valid()
      ensures name in chart.steps <==> name in body.steps
      ensures name in chart.steps ==> PredT(chart, name) == TransitionIds(TransitionElements(body.steps[name].input))
    {
      assert Unsealed(0);
    }

    lemma TransitionInBody(t: nat)
      requires Valid()
      ensures t in chart.transitions <==> t in body.transitions
      ensures t in chart.transitions ==> PredS(chart, t) == StepsBefore(body.transitions[t])
    {
      assert Unsealed(0);
    }

    method GenerateSFCStep(name: string) returns (r: Result<(), Fault>)
      requires Valid()
      modifies this`steps, this`transitions, this`initialSteps
      ensures r.Ok? ==> Now() == VisitStep(chart, old(Now()), name) && FineSince(old(Now()))
      ensures r.Err? ==> !BodyFine(body)
      decreases chart.steps.Keys - steps.Keys, chart.transitions.Keys - transitions.Keys, 0
    {
      if name in steps || name !in chart.steps {
        return Ok(());
      }
      ghost var start := Now();
      if chart.steps[name].initial {
        initialSteps := initialSteps + [name];
      }
      steps := steps[name := StepInfo(chart.steps[name].initial, [], [])];
      assert Now() == AddStep(chart, start, name);
      StepInBody(name);
      assert name in chart.steps.Keys - start.steps.Keys && name !in chart.steps.Keys - steps.Keys;
      assert !AllTransitions(TransitionElements(body.steps[name].input)) ==> !StepFine(body, name);
      var _ :- AllBehind(TransitionElements(body.steps[name].input), name);
      return Ok(());
    }

    /** Generates the transitions in front of a step that was just entered, and puts the step behind each. */
    method AllBehind(elements: seq<Source>, name: string) returns (r: Result<(), Fault>)
      requires Valid() && PredT(chart, name) == TransitionIds(elements)
      modifies this`steps, this`transitions, this`initialSteps
      ensures r.Ok? ==> Now() == StepLoop(chart, old(Now()), name, 0) && FineSince(old(Now()))
      ensures r.Ok? ==> AllTransitions(elements)
      ensures r.Err? && AllTransitions(elements) ==> !BodyFine(body)
      decreases chart.steps.Keys - steps.Keys, chart.transitions.Keys - transitions.Keys, 2
    {
      ghost var start := Now();
      for k := 0 to |elements|
        invariant StepLoop(chart, Now(), name, k) == StepLoop(chart, start, name, 0)
        invariant Grows(start, Now()) && FineSince(start)
        invariant forall i :: 0 <= i < k ==> elements[i].TransitionSource?
      {
        ghost var before := Now();
        var _ :- Behind(elements[k], name);
        TransitionIdAt(elements, k);
        Onwards(start, before);
      }
      TransitionIdAt(elements, |elements|);
      return Ok(());
    }

    /** Generates what stands before the step or jump, which must be a transition, and puts the target behind it. */
    method Behind(element: Source, target: string) returns (r: Result<(), Fault>)
      requires Valid()
      modifies this`steps, this`transitions, this`initialSteps
      ensures r.Ok? ==> element.TransitionSource?
      ensures r.Ok? ==> Now() == AddTo(VisitTransition(chart, old(Now()), element.id), element.id, target)
      ensures r.Ok? ==> Grows(old(Now()), Now()) && FineSince(old(Now()))
      ensures r.Err? && element.TransitionSource? ==> !BodyFine(body)
      decreases chart.steps.Keys - steps.Keys, chart.transitions.Keys - transitions.Keys, 1
    {
      if !element.TransitionSource? {
        return Err(NotATransition);
      }
      var t := element.id;
      var _ :- GenerateSFCTransition(t);
      if t in transitions {
        transitions := transitions[t := transitions[t].(to := transitions[t].to + [target])];
      }
      return Ok(());
    }

    method GenerateSFCTransition(t: nat) returns (r: Result<(), Fault>)
      requires Valid()
      modifies this`steps, this`transitions, this`initialSteps
      ensures r.Ok? ==> Now() == VisitTransition(chart, old(Now()), t) && FineSince(old(Now()))
      ensures r.Err? ==> !BodyFine(body)
      decreases chart.steps.Keys - steps.Keys, chart.transitions.Keys - transitions.Keys, 0
    {
      if t in transitions || t !in chart.transitions {
        return Ok(());
      }
      TransitionInBody(t);
      if body.transitions[t].None? {
        assert !TransitionFine(body, t);
        return Err(NoConnectionPoint(t));
      }
      ghost var start := Now();
      transitions := transitions[t := TransitionInfo([], [])];
      assert Now() == AddTransition(start, t);
      assert t in chart.transitions.Keys - start.transitions.Keys && t !in chart.transitions.Keys - transitions.Keys;
      assert !AllSteps(StepElements(body.transitions[t].value)) ==> !TransitionFine(body, t);
      var _ :- AllInFront(StepElements(body.transitions[t].value), t);
      return Ok(());
    }

    /** Generates the steps in front of a transition that was just entered, and records each with it. */
    method AllInFront(elements: seq<Source>, t: nat) returns (r: Result<(), Fault>)
      requires Valid() && t in transitions && PredS(chart, t) == StepNames(elements)
      modifies this`steps, this`transitions, this`initialSteps
      ensures r.Ok? ==> Now() == TransitionLoop(chart, old(Now()), t, 0) && FineSince(old(Now()))
      ensures r.Ok? ==> AllSteps(elements)
      ensures r.Err? && AllSteps(elements) ==> !BodyFine(body)
      decreases chart.steps.Keys - steps.Keys, chart.transitions.Keys - transitions.Keys, 2
    {
      ghost var start := Now();
      for k := 0 to |elements|
        invariant TransitionLoop(chart, Now(), t, k) == TransitionLoop(chart, start, t, 0)
        invariant Grows(start, Now()) && FineSince(start)
        invariant forall i :: 0 <= i < k ==> elements[i].StepSource?
      {
        ghost var before := Now();
        var _ :- InFront(elements[k], t);
        StepNameAt(elements, k);
        LoopGoesOn(chart, before, t, k);
        Onwards(start, before);
      }
      StepNameAt(elements, |elements|);
      LoopEnds(chart, Now(), t, |elements|);
      return Ok(());
    }

    /** Generates what stands in front of the transition, which must be a step, and records both with each other. */
    method InFront(element: Source, t: nat) returns (r: Result<(), Fault>)
      requires Valid() && t in transitions
      modifies this`steps, this`transitions, this`initialSteps
      ensures r.Ok? ==> element.StepSource?
      ensures r.Ok? ==> Now() == AddFrom(VisitStep(chart, old(Now()), element.name), t, element.name)
      ensures r.Ok? ==> Grows(old(Now()), Now()) && FineSince(old(Now()))
      ensures r.Err? && element.StepSource? ==> !BodyFine(body)
      decreases chart.steps.Keys - steps.Keys, chart.transitions.Keys - transitions.Keys, 1
    {
      if !element.StepSource? {
        return Err(NotAStep);
      }
      var s := element.name;
      var _ :- GenerateSFCStep(s);
      if s in steps {
        transitions := transitions[t := transitions[t].(from := transitions[t].from + [s])];
        steps := steps[s := steps[s].(transitions := steps[s].transitions + [t])];
      }
      return Ok(());
    }

    lemma Onwards(start: Tables, before: Tables)
      requires FineSince(before)
      requires forall s :: s in before.steps && s !in start.steps ==> StepFine(body, s)
      requires forall t :: t in before.transitions && t !in start.transitions ==> TransitionFine(body, t)
      ensures FineSince(start)
    {
    }

    method GenerateSFCJump(target: string, input: Option<seq<Source>>) returns (r: Result<(), Fault>)
      requires Valid()
      modifies this`steps, this`transitions, this`initialSteps
      ensures r.Ok? ==> Now() == Process(chart, old(Now()), JumpInstance(target, input)) && FineSince(old(Now()))
      ensures r.Ok? ==> InstanceFine(body, JumpInstance(target, input))
      ensures r.Err? ==> !InstanceFine(body, JumpInstance(target, input)) || !BodyFine(body)
    {
      if !HasStep(body, target) {
        return Err(UnknownJumpTarget(target));
      }
      r := TargetBehind(TransitionElements(input), target);
    }

    /** Generates the transitions in front of a jump, and puts its target behind each. */
    method TargetBehind(elements: seq<Source>, target: string) returns (r: Result<(), Fault>)
      requires Valid()
      modifies this`steps, this`transitions, this`initialSteps
      ensures r.Ok? ==> Now() == Jumps(chart, old(Now()), TransitionIds(elements), target) && FineSince(old(Now()))
      ensures r.Ok? ==> AllTransitions(elements)
      ensures r.Err? && AllTransitions(elements) ==> !BodyFine(body)
    {
      ghost var before, start := TransitionIds(elements), Now();
      for k := 0 to |elements|
        invariant k <= |before| && forall i :: 0 <= i < k ==> elements[i].TransitionSource?
        invariant Now() == Jumps(chart, start, before[..k], target)
        invariant FineSince(start)
      {
        ghost var now := Now();
        var _ :- Behind(elements[k], target);
        TransitionIdAt(elements, k);
        JumpsTurn(chart, start, before, k, target);
        Onwards(start, now);
      }
      TransitionIdAt(elements, |elements|);
      assert before[..|elements|] == before;
      return Ok(());
    }

    method Generate(i: Instance) returns (r: Result<(), Fault>)
      requires Valid()
      modifies this`steps, this`transitions, this`initialSteps
      ensures r.Ok? ==> Now() == Process(chart, old(Now()), i) && FineSince(old(Now()))
      ensures r.Ok? && i.JumpInstance? ==> InstanceFine(body, i)
      ensures r.Err? ==> (i.JumpInstance? && !InstanceFine(body, i)) || !BodyFine(body)
    {
      match i
      case StepInstance(name) =>
        r := GenerateSFCStep(name);
      case TransitionInstance(id) =>
        r := GenerateSFCTransition(id);
      case JumpInstance(target, input) =>
        r := GenerateSFCJump(target, input);
    }

    /** Generates the tables from the instances in the order in which they come. */
    method GenerateTables(instances: seq<Instance>) returns (r: Result<(), Fault>)
      requires Valid() && Now() == EMPTY && InstancesOf(body, instances)
      modifies this`steps, this`transitions, this`initialSteps
      ensures r.Err? <==> exists i :: i in instances && !InstanceFine(body, i)
      ensures r.Ok? ==> Now() == ProcessAll(chart, instances)
    {
      for k := 0 to |instances|
        invariant Now() == ProcessAll(chart, instances[..k]) && FineSince(EMPTY)
        invariant AllEntered(instances[..k])
      {
        ghost var now := Now();
        r := Generate(instances[k]);
        if r.Err? {
          FaultAmong(body, instances, instances[k]);
          return;
        }
        ProcessAllTurn(chart, instances, k);
        OneMoreEntered(now, instances, k);
        Onwards(EMPTY, now);
      }
      assert instances[..|instances|] == instances;
      AllFine(instances);
      return Ok(());
    }

    /** The steps and transitions among the instances are in the tables; the jumps among them are fine. */
    ghost predicate AllEntered(instances: seq<Instance>)
      reads this
    {
      EnteredIn(body, Now(), instances)
    }

    lemma OneMoreEntered(before: Tables, instances: seq<Instance>, k: nat)
      requires k < |instances| && EnteredIn(body, before, instances[..k])
      requires Valid() && Now() == Process(chart, before, instances[k]) && InstancesOf(body, instances)
      requires instances[k].JumpInstance? ==> InstanceFine(body, instances[k])
      ensures AllEntered(instances[..k + 1])
    {
      var i := instances[k];
      assert i in instances;
      Entered(chart, before, i);
      if i.StepInstance? {
        StepInBody(i.name);
      } else if i.TransitionInstance? {
        TransitionInBody(i.id);
      }
      assert instances[..k + 1] == instances[..k] + [i];
    }

    lemma AllFine(instances: seq<Instance>)
      requires FineSince(EMPTY) && AllEntered(instances)
      ensures forall i :: i in instances ==> InstanceFine(body, i)
    {
    }
  }

  ghost predicate EnteredIn(body: Body, x: Tables, instances: seq<Instance>) {
    forall i :: i in instances ==>
      match i
      case StepInstance(name) => name in x.steps
      case TransitionInstance(id) => id in x.transitions
      case JumpInstance(_, _) => InstanceFine(body, i)
  }

  lemma JumpsTurn(chart: Chart, x: Tables, before: seq<nat>, k: nat, target: string)
    requires k < |before|
    ensures Jumps(chart, x, before[..k + 1], target)
         == AddTo(VisitTransition(chart, Jumps(chart, x, before[..k], target), before[k]), before[k], target)
  {
    assert before[..k + 1][..k] == before[..k];
  }

  lemma ProcessAllTurn(chart: Chart, instances: seq<Instance>, k: nat)
    requires k < |instances|
    ensures ProcessAll(chart, instances[..k + 1]) == Process(chart, ProcessAll(chart, instances[..k]), instances[k])
  {
    assert instances[..k + 1][..k] == instances[..k];
  }

  /** A fault of the body is one of an instance. */
  lemma FaultAmong(body: Body, instances: seq<Instance>, i: Instance)
    requires InstancesOf(body, instances) && i in instances
    requires (i.JumpInstance? && !InstanceFine(body, i)) || !BodyFine(body)
    ensures exists j :: j in instances && !InstanceFine(body, j)
  {
    if s :| !StepFine(body, s) {
      assert StepInstance(s) in instances && !InstanceFine(body, StepInstance(s));
    } else if t :| !TransitionFine(body, t) {
      assert TransitionInstance(t) in instances && !InstanceFine(body, TransitionInstance(t));
    } else {
      assert i in instances && !InstanceFine(body, i);
    }
  }

  /** An instance that was processed is in the tables, and nothing has left them. */
  lemma Entered(chart: Chart, x: Tables, i: Instance)
    ensures Grows(x, Process(chart, x, i))
    ensures i.StepInstance? && i.name in chart.steps ==> i.name in Process(chart, x, i).steps
    ensures i.TransitionInstance? && i.id in chart.transitions ==> i.id in Process(chart, x, i).transitions
  {
    if i.JumpInstance? {
      JumpsGrow(chart, x, TransitionsBefore(i.input), i.target);
    }
  }

  lemma {:induction false} JumpsGrow(chart: Chart, x: Tables, before: seq<nat>, target: string)
    ensures Grows(x, Jumps(chart, x, before, target))
    decreases |before|
  {
    if before != [] {
      JumpsGrow(chart, x, before[..|before| - 1], target);
    }
  }
}
