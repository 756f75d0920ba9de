/**
 Sequential function charts: the steps, transitions and jumps of a body, and what precedes what.
 */
module Sfc {
  import opened Results
  import opened Texts

  /** What a connection leads back to. Divergences and convergences carry their own connections. */
  datatype Source =
    | StepSource(name: string)
    | TransitionSource(id: nat)
    | SelectionConvergence(inputs: seq<seq<Source>>)
    | SelectionDivergence(input: seq<Source>)
    | SimultaneousConvergence(inputs: seq<seq<Source>>)
    | SimultaneousDivergence(input: seq<Source>)
    | OtherSource

  /** A step without a connection point has no input at all. */
  datatype StepDef = StepDef(initial: bool, input: Option<seq<Source>>)

  datatype JumpDef = JumpDef(target: string, input: Option<seq<Source>>)

  /** A transition without a connection point has no input at all either. */
  datatype Body = Body(steps: map<string, StepDef>, transitions: map<nat, Option<seq<Source>>>)

  /** The inputs of a convergence that have exactly one connection. */
  function ConvergenceInputs(inputs: seq<seq<Source>>): seq<Source> {
    if inputs == [] then []
    else (if |inputs[0]| == 1 then inputs[0] else []) + ConvergenceInputs(inputs[1..])
  }

  /** What is taken for the transitions in front of a step or a jump. The inputs of a convergence may be anything. */
  function TransitionElements(input: Option<seq<Source>>): seq<Source> {
    if input.None? || |input.value| != 1 then []
    else
      match input.value[0]
      case TransitionSource(_) => input.value
      case SelectionConvergence(inputs) => ConvergenceInputs(inputs)
      case SimultaneousDivergence(above) =>
        if |above| != 1 then []
        else (match above[0]
              case TransitionSource(_) => above
              case SelectionConvergence(inputs) => ConvergenceInputs(inputs)
              case _ => [])
      case _ => []
  }

  /** What is taken for the steps in front of a transition. */
  function StepElements(input: seq<Source>): seq<Source> {
    if |input| != 1 then []
    else
      match input[0]
      case StepSource(_) => input
      case SelectionDivergence(above) =>
        if |above| != 1 then []
        else (match above[0]
              case StepSource(_) => above
              case SimultaneousConvergence(inputs) => ConvergenceInputs(inputs)
              case _ => [])
      case SimultaneousConvergence(inputs) => ConvergenceInputs(inputs)
      case _ => []
  }

  function TransitionIds(sources: seq<Source>): seq<nat> {
    if sources == [] then []
    else (if sources[0].TransitionSource? then [sources[0].id] else []) + TransitionIds(sources[1..])
  }

  function StepNames(sources: seq<Source>): seq<string> {
    if sources == [] then []
    else (if sources[0].StepSource? then [sources[0].name] else []) + StepNames(sources[1..])
  }

  predicate AllTransitions(sources: seq<Source>) {
    forall i :: 0 <= i < |sources| ==> sources[i].TransitionSource?
  }

  predicate AllSteps(sources: seq<Source>) {
    forall i :: 0 <= i < |sources| ==> sources[i].StepSource?
  }

  /** While the elements are transitions, they are the transitions counted. */
  lemma {:induction false} TransitionIdAt(sources: seq<Source>, k: nat)
    requires k <= |sources| && forall i :: 0 <= i < k ==> sources[i].TransitionSource?
    ensures k < |sources| && sources[k].TransitionSource? ==>
              k < |TransitionIds(sources)| && TransitionIds(sources)[k] == sources[k].id
    ensures k == |sources| ==> |TransitionIds(sources)| == k
    decreases k
  {
    if k > 0 {
      TransitionIdAt(sources[1..], k - 1);
    }
  }

  lemma {:induction false} StepNameAt(sources: seq<Source>, k: nat)
    requires k <= |sources| && forall i :: 0 <= i < k ==> sources[i].StepSource?
    ensures k < |sources| && sources[k].StepSource? ==>
              k < |StepNames(sources)| && StepNames(sources)[k] == sources[k].name
    ensures k == |sources| ==> |StepNames(sources)| == k
    decreases k
  {
    if k > 0 {
      StepNameAt(sources[1..], k - 1);
    }
  }

  /** The transitions in front of a step or a jump. */
  function TransitionsBefore(input: Option<seq<Source>>): seq<nat> {
    TransitionIds(TransitionElements(input))
  }

  /** The steps in front of a transition. */
  function StepsBefore(input: Option<seq<Source>>): seq<string> {
    if input.None? then [] else StepNames(StepElements(input.value))
  }

  // ----- What the generator stops at

  /** Only transitions are taken for transitions. */
  predicate StepFine(body: Body, s: string) {
    s in body.steps ==> AllTransitions(TransitionElements(body.steps[s].input))
  }

  /** There is a connection point, and only steps are taken for steps. */
  predicate TransitionFine(body: Body, t: nat) {
    t in body.transitions ==> body.transitions[t].Some? && AllSteps(StepElements(body.transitions[t].value))
  }

  ghost predicate BodyFine(body: Body) {
    (forall s :: StepFine(body, s)) && forall t :: TransitionFine(body, t)
  }

  /** A jump's target is looked for with letter case apart. */
  predicate HasStep(body: Body, target: string) {
    exists s :: s in body.steps && TextMatched(s, target)
  }

  /** The chart with predecessors resolved: what each step and each transition directly follows. */
  datatype ChartStep = ChartStep(initial: bool, before: seq<nat>)

  datatype Chart = Chart(steps: map<string, ChartStep>, transitions: map<nat, seq<string>>)

  function Resolve(body: Body): Chart {
    Chart(map s | s in body.steps :: ChartStep(body.steps[s].initial, TransitionsBefore(body.steps[s].input)),
          map t | t in body.transitions :: StepsBefore(body.transitions[t]))
  }

  function PredT(chart: Chart, s: string): seq<nat> {
    if s in chart.steps then chart.steps[s].before else []
  }

  function PredS(chart: Chart, t: nat): seq<string> {
    if t in chart.transitions then chart.transitions[t] else []
  }

  /** Connections lead to elements of the body. */
  ghost predicate WellFormed(chart: Chart) {
    && (forall s, t :: t in PredT(chart, s) ==> t in chart.transitions)
    && (forall t, s :: s in PredS(chart, t) ==> s in chart.steps)
  }

  // ----- The tables

  /** An action of the POU, by name, or the inline action with this number. */
  datatype ActionName = Declared(name: string) | Inline(number: nat)

  datatype StepInfo = StepInfo(initial: bool, transitions: seq<nat>, actions: seq<ActionName>)

  datatype TransitionInfo = TransitionInfo(from: seq<string>, to: seq<string>)

  type Steps = map<string, StepInfo>
  type Transitions = map<nat, TransitionInfo>
  /** What the generator has built so far: the two tables and the initial steps in order of discovery. */
  datatype Tables = Tables(steps: Steps, transitions: Transitions, initials: seq<string>)

  function AddStep(chart: Chart, x: Tables, s: string): Tables
    requires s in chart.steps
  {
    var initial := chart.steps[s].initial;
    Tables(x.steps[s := StepInfo(initial, [], [])], x.transitions, if initial then x.initials + [s] else x.initials)
  }

  function AddTransition(x: Tables, t: nat): Tables {
    x.(transitions := x.transitions[t := TransitionInfo([], [])])
  }

  /** Step `s` goes behind transition `t`, if that is in its table. */
  function AddTo(x: Tables, t: nat, s: string): Tables {
    if t in x.transitions
    then x.(transitions := x.transitions[t := x.transitions[t].(to := x.transitions[t].to + [s])])
    else x
  }

  /** Transition `t` and the step `s` in front of it record each other, if the step is in its table. */
  function AddFrom(x: Tables, t: nat, s: string): Tables {
    if t in x.transitions && s in x.steps
    then x.(transitions := x.transitions[t := x.transitions[t].(from := x.transitions[t].from + [s])],
            steps := x.steps[s := x.steps[s].(transitions := x.steps[s].transitions + [t])])
    else x
  }

  // ----- The walk, as a function from tables to tables

  /** The walk only adds entries. */
  ghost predicate Grows(x: Tables, y: Tables) {
    x.steps.Keys <= y.steps.Keys && x.transitions.Keys <= y.transitions.Keys
  }

  function VisitStep(chart: Chart, x: Tables, s: string): (r: Tables)
    ensures Grows(x, r) && (s in chart.steps ==> s in r.steps)
    decreases chart.steps.Keys - x.steps.Keys, chart.transitions.Keys - x.transitions.Keys, 0
  {
    if s in x.steps || s !in chart.steps then x
    else
      var y := AddStep(chart, x, s);
      assert s in chart.steps.Keys - x.steps.Keys && s !in chart.steps.Keys - y.steps.Keys;
      StepLoop(chart, y, s, 0)
  }

  /** The predecessors of step `s` from the `k`-th on. */
  function StepLoop(chart: Chart, x: Tables, s: string, k: nat): (r: Tables)
    ensures Grows(x, r)
    decreases chart.steps.Keys - x.steps.Keys, chart.transitions.Keys - x.transitions.Keys, 1 + |PredT(chart, s)| - k
  {
    if k >= |PredT(chart, s)| then x
    else
      var t := PredT(chart, s)[k];
      var y := VisitTransition(chart, x, t);
      StepLoop(chart, AddTo(y, t, s), s, k + 1)
  }

  function VisitTransition(chart: Chart, x: Tables, t: nat): (r: Tables)
    ensures Grows(x, r) && (t in chart.transitions ==> t in r.transitions)
    decreases chart.steps.Keys - x.steps.Keys, chart.transitions.Keys - x.transitions.Keys, 0
  {
    if t in x.transitions || t !in chart.transitions then x
    else
      var y := AddTransition(x, t);
      assert t in chart.transitions.Keys - x.transitions.Keys && t !in chart.transitions.Keys - y.transitions.Keys;
      TransitionLoop(chart, y, t, 0)
  }

  function TransitionLoop(chart: Chart, x: Tables, t: nat, k: nat): (r: Tables)
    ensures Grows(x, r)
    decreases chart.steps.Keys - x.steps.Keys, chart.transitions.Keys - x.transitions.Keys, 1 + |PredS(chart, t)| - k
  {
    if k >= |PredS(chart, t)| then x
    else
      var s := PredS(chart, t)[k];
      var y := VisitStep(chart, x, s);
      TransitionLoop(chart, AddFrom(y, t, s), t, k + 1)
  }

  // ----- How often a link is in the tables

  function FromOf(x: Tables, t: nat): seq<string> {
    if t in x.transitions then x.transitions[t].from else []
  }

  ghost function InStep(x: Tables, s: string, t: nat): nat {
    if s in x.steps then multiset(x.steps[s].transitions)[t] else 0
  }

  ghost function InFrom(x: Tables, t: nat, s: string): nat {
    multiset(FromOf(x, t))[s]
  }

  ghost function InTo(x: Tables, t: nat, s: string): nat {
    if t in x.transitions then multiset(x.transitions[t].to)[s] else 0
  }

  /** For each step, the transitions behind which it was put so far, in order. */
  type Behind = map<string, seq<nat>>

  /** The jump links in the tables. */
  type Jumped = multiset<(nat, string)>

  ghost function BehindOf(behind: Behind, s: string): seq<nat> {
    if s in behind then behind[s] else []
  }

  ghost function InBehind(behind: Behind, s: string, t: nat): nat {
    multiset(BehindOf(behind, s))[t]
  }

  /** The step side of the step-to-transition links mirrors the "from" side. */
  ghost predicate Mirror(x: Tables) {
    forall s: string, t: nat :: InStep(x, s, t) == InFrom(x, t, s)
  }

  /** The transition-to-step links are those of the steps put behind transitions, and the jumps. */
  ghost predicate ToLinks(x: Tables, behind: Behind, jumped: Jumped) {
    forall t: nat, s: string :: InTo(x, t, s) == InBehind(behind, s, t) + jumped[(t, s)]
  }

  /** Outside the steps and transitions being generated, every visited one has recorded exactly its predecessors. */
  ghost predicate Settled(chart: Chart, x: Tables, behind: Behind, openSteps: set<string>, openTransitions: set<nat>) {
    && (forall s :: s in openSteps ==> s in x.steps)
    && (forall t :: t in openTransitions ==> t in x.transitions)
    && (forall s :: s !in openSteps ==> StepSettled(chart, x, behind, s))
    && (forall t :: t !in openTransitions ==> TransitionSettled(chart, x, t))
  }

  ghost predicate StepSettled(chart: Chart, x: Tables, behind: Behind, s: string) {
    BehindOf(behind, s) == if s in x.steps then PredT(chart, s) else []
  }

  ghost predicate TransitionSettled(chart: Chart, x: Tables, t: nat) {
    FromOf(x, t) == if t in x.transitions then PredS(chart, t) else []
  }

  /** Entries are elements of the chart; the initial steps found so far are listed once each. */
  ghost predicate EntriesOk(chart: Chart, x: Tables) {
    && (forall s :: s in x.steps ==> s in chart.steps && x.steps[s].initial == chart.steps[s].initial)
    && (forall t :: t in x.transitions ==> t in chart.transitions)
    && (forall s :: s in x.initials <==> s in x.steps && x.steps[s].initial)
    && (forall i, j :: 0 <= i < j < |x.initials| ==> x.initials[i] != x.initials[j])
  }

  ghost predicate Sound(chart: Chart, x: Tables) {
    Mirror(x) && EntriesOk(chart, x)
  }

  ghost predicate WalkOk(chart: Chart, x: Tables, behind: Behind, jumped: Jumped, openSteps: set<string>,
          openTransitions: set<nat>)
  {
    ToLinks(x, behind, jumped) && Settled(chart, x, behind, openSteps, openTransitions)
  }

  // ----- What each recording does

  lemma StepAddedSound(chart: Chart, x: Tables, s: string)
    requires s in chart.steps && s !in x.steps
    requires Sound(chart, x)
    ensures Sound(chart, AddStep(chart, x, s))
  {
    var y := AddStep(chart, x, s);
    assert forall u: string, t: nat :: InStep(y, u, t) == InStep(x, u, t) && InFrom(y, t, u) == InFrom(x, t, u);
  }

  lemma StepAdded(chart: Chart, x: Tables, behind: Behind, jumped: Jumped, openSteps: set<string>,
          openTransitions: set<nat>, s: string)
    requires WalkOk(chart, x, behind, jumped, openSteps, openTransitions) && s in chart.steps && s !in x.steps
    ensures WalkOk(chart, AddStep(chart, x, s), behind, jumped, openSteps + {s}, openTransitions)
  {
    assert forall t: nat, u: string :: InTo(AddStep(chart, x, s), t, u) == InTo(x, t, u);
  }

  lemma TransitionAddedSound(chart: Chart, x: Tables, t: nat)
    requires t !in x.transitions && t in chart.transitions
    requires Sound(chart, x)
    ensures Sound(chart, AddTransition(x, t))
  {
    var y := AddTransition(x, t);
    assert forall s: string, u: nat :: InStep(y, s, u) == InStep(x, s, u) && InFrom(y, u, s) == InFrom(x, u, s);
  }

  lemma TransitionAdded(chart: Chart, x: Tables, behind: Behind, jumped: Jumped, openSteps: set<string>,
          openTransitions: set<nat>, t: nat)
    requires WalkOk(chart, x, behind, jumped, openSteps, openTransitions) && t in chart.transitions
    requires t !in x.transitions
    ensures WalkOk(chart, AddTransition(x, t), behind, jumped, openSteps, openTransitions + {t})
  {
    assert forall u: nat, s: string :: InTo(AddTransition(x, t), u, s) == InTo(x, u, s);
  }

  lemma ToAddedSound(chart: Chart, x: Tables, t: nat, s: string)
    requires Sound(chart, x)
    ensures Sound(chart, AddTo(x, t, s))
  {
    var y := AddTo(x, t, s);
    assert forall v: string, u: nat :: InStep(y, v, u) == InStep(x, v, u) && InFrom(y, u, v) == InFrom(x, u, v);
  }

  lemma ToCounts(x: Tables, t: nat, s: string)
    requires t in x.transitions
    ensures forall u: nat, v: string ::
              InTo(AddTo(x, t, s), u, v) == InTo(x, u, v) + (if (u, v) == (t, s) then 1 else 0)
    ensures forall u :: FromOf(AddTo(x, t, s), u) == FromOf(x, u)
  {
  }

  ghost function Put(behind: Behind, s: string, t: nat): Behind {
    behind[s := BehindOf(behind, s) + [t]]
  }

  lemma StepRecorded(chart: Chart, x: Tables, behind: Behind, jumped: Jumped, openSteps: set<string>,
          openTransitions: set<nat>, s: string, t: nat)
    requires WalkOk(chart, x, behind, jumped, openSteps, openTransitions) && s in openSteps && t in x.transitions
    ensures WalkOk(chart, AddTo(x, t, s), Put(behind, s, t), jumped, openSteps, openTransitions)
    ensures BehindOf(Put(behind, s, t), s) == BehindOf(behind, s) + [t]
    ensures forall u :: u != s ==> BehindOf(Put(behind, s, t), u) == BehindOf(behind, u)
    ensures forall u :: FromOf(AddTo(x, t, s), u) == FromOf(x, u)
  {
    StepLinked(x, behind, jumped, s, t);
    LinkKeepsSettled(chart, x, behind, openSteps, openTransitions, s, t);
  }

  lemma StepLinked(x: Tables, behind: Behind, jumped: Jumped, s: string, t: nat)
    requires ToLinks(x, behind, jumped) && t in x.transitions
    ensures ToLinks(AddTo(x, t, s), Put(behind, s, t), jumped)
  {
    ToCounts(x, t, s);
    forall u: nat, v: string
      ensures InTo(AddTo(x, t, s), u, v) == InBehind(Put(behind, s, t), v, u) + jumped[(u, v)]
    {
      assert InTo(x, u, v) == InBehind(behind, v, u) + jumped[(u, v)];
      assert InBehind(Put(behind, s, t), v, u) == InBehind(behind, v, u) + (if (u, v) == (t, s) then 1 else 0);
    }
  }

  lemma LinkKeepsSettled(chart: Chart, x: Tables, behind: Behind, openSteps: set<string>, openTransitions: set<nat>,
          s: string, t: nat)
    requires Settled(chart, x, behind, openSteps, openTransitions) && s in openSteps && t in x.transitions
    ensures Settled(chart, AddTo(x, t, s), Put(behind, s, t), openSteps, openTransitions)
  {
    ToCounts(x, t, s);
    forall u | u !in openSteps
      ensures StepSettled(chart, AddTo(x, t, s), Put(behind, s, t), u)
    {
      assert StepSettled(chart, x, behind, u);
    }
    forall u | u !in openTransitions
      ensures TransitionSettled(chart, AddTo(x, t, s), u)
    {
      assert TransitionSettled(chart, x, u);
    }
  }

  lemma JumpRecorded(chart: Chart, x: Tables, behind: Behind, jumped: Jumped, t: nat, s: string)
    requires WalkOk(chart, x, behind, jumped, {}, {}) && t in x.transitions
    ensures WalkOk(chart, AddTo(x, t, s), behind, jumped + multiset{(t, s)}, {}, {})
  {
    ToCounts(x, t, s);
    forall u: nat, v: string
      ensures InTo(AddTo(x, t, s), u, v) == InBehind(behind, v, u) + (jumped + multiset{(t, s)})[(u, v)]
    {
      assert InTo(x, u, v) == InBehind(behind, v, u) + jumped[(u, v)];
    }
    forall u
      ensures StepSettled(chart, AddTo(x, t, s), behind, u)
    {
      assert StepSettled(chart, x, behind, u);
    }
    forall u
      ensures TransitionSettled(chart, AddTo(x, t, s), u)
    {
      assert TransitionSettled(chart, x, u);
    }
  }

  lemma FromAddedSound(chart: Chart, x: Tables, t: nat, s: string)
    requires Sound(chart, x)
    ensures Sound(chart, AddFrom(x, t, s))
  {
    if t in x.transitions && s in x.steps {
      FromCounts(x, t, s);
    }
  }

  lemma FromCounts(x: Tables, t: nat, s: string)
    requires t in x.transitions && s in x.steps
    ensures forall u: nat, v: string ::
              InFrom(AddFrom(x, t, s), u, v) == InFrom(x, u, v) + (if (u, v) == (t, s) then 1 else 0)
    ensures forall u: nat, v: string ::
              InStep(AddFrom(x, t, s), v, u) == InStep(x, v, u) + (if (u, v) == (t, s) then 1 else 0)
  {
  }

  lemma TransitionRecorded(chart: Chart, x: Tables, behind: Behind, jumped: Jumped, openSteps: set<string>,
          openTransitions: set<nat>, t: nat, s: string)
    requires WalkOk(chart, x, behind, jumped, openSteps, openTransitions) && t in openTransitions && s in x.steps
    ensures WalkOk(chart, AddFrom(x, t, s), behind, jumped, openSteps, openTransitions)
    ensures FromOf(AddFrom(x, t, s), t) == FromOf(x, t) + [s]
    ensures forall u :: u != t ==> FromOf(AddFrom(x, t, s), u) == FromOf(x, u)
  {
    assert forall u: nat, v: string :: InTo(AddFrom(x, t, s), u, v) == InTo(x, u, v);
  }

  // ----- The walk keeps both sides of the step-to-transition links equal

  lemma {:induction false} VisitStepSound(chart: Chart, x: Tables, s: string)
    requires Sound(chart, x)
    ensures Sound(chart, VisitStep(chart, x, s))
    decreases chart.steps.Keys - x.steps.Keys, chart.transitions.Keys - x.transitions.Keys, 0
  {
    if s !in x.steps && s in chart.steps {
      var y := AddStep(chart, x, s);
      assert s in chart.steps.Keys - x.steps.Keys && s !in chart.steps.Keys - y.steps.Keys;
      StepAddedSound(chart, x, s);
      StepLoopSound(chart, y, s, 0);
    }
  }

  lemma {:induction false} StepLoopSound(chart: Chart, x: Tables, s: string, k: nat)
    requires Sound(chart, x)
    ensures Sound(chart, StepLoop(chart, x, s, k))
    decreases chart.steps.Keys - x.steps.Keys, chart.transitions.Keys - x.transitions.Keys, 1 + |PredT(chart, s)| - k
  {
    if k < |PredT(chart, s)| {
      var t := PredT(chart, s)[k];
      var y := VisitTransition(chart, x, t);
      VisitTransitionSound(chart, x, t);
      ToAddedSound(chart, y, t, s);
      StepLoopSound(chart, AddTo(y, t, s), s, k + 1);
    }
  }

  lemma {:induction false} VisitTransitionSound(chart: Chart, x: Tables, t: nat)
    requires Sound(chart, x)
    ensures Sound(chart, VisitTransition(chart, x, t))
    decreases chart.steps.Keys - x.steps.Keys, chart.transitions.Keys - x.transitions.Keys, 0
  {
    if t !in x.transitions && t in chart.transitions {
      var y := AddTransition(x, t);
      assert t in chart.transitions.Keys - x.transitions.Keys && t !in chart.transitions.Keys - y.transitions.Keys;
      TransitionAddedSound(chart, x, t);
      TransitionLoopSound(chart, y, t, 0);
    }
  }

  lemma {:induction false} TransitionLoopSound(chart: Chart, x: Tables, t: nat, k: nat)
    requires Sound(chart, x)
    ensures Sound(chart, TransitionLoop(chart, x, t, k))
    decreases chart.steps.Keys - x.steps.Keys, chart.transitions.Keys - x.transitions.Keys, 1 + |PredS(chart, t)| - k
  {
    if k < |PredS(chart, t)| {
      var s := PredS(chart, t)[k];
      var y := VisitStep(chart, x, s);
      VisitStepSound(chart, x, s);
      FromAddedSound(chart, y, t, s);
      TransitionLoopSound(chart, AddFrom(y, t, s), t, k + 1);
    }
  }

  // ----- The walk keeps the tables right

  /** What is under way has recorded nothing more. */
  ghost predicate Undisturbed(x: Tables, behind: Behind, y: Tables, behind': Behind, openSteps: set<string>,
          openTransitions: set<nat>)
  {
    && (forall u :: u in openSteps ==> BehindOf(behind', u) == BehindOf(behind, u))
    && (forall t :: t in openTransitions ==> FromOf(y, t) == FromOf(x, t))
  }

  lemma StillUndisturbed(x: Tables, b: Behind, y: Tables, b': Behind, z: Tables, b'': Behind, openSteps: set<string>,
          openTransitions: set<nat>)
    requires Undisturbed(x, b, y, b', openSteps, openTransitions)
    requires Undisturbed(y, b', z, b'', openSteps, openTransitions)
    ensures Undisturbed(x, b, z, b'', openSteps, openTransitions)
  {
  }

  /** A step that has recorded all its predecessors is settled. */
  lemma CloseStep(chart: Chart, x: Tables, behind: Behind, jumped: Jumped, openSteps: set<string>,
          openTransitions: set<nat>, s: string)
    requires WalkOk(chart, x, behind, jumped, openSteps, openTransitions) && s in openSteps
    requires BehindOf(behind, s) == PredT(chart, s)
    ensures WalkOk(chart, x, behind, jumped, openSteps - {s}, openTransitions)
    ensures StepLoop(chart, x, s, |PredT(chart, s)|) == x
  {
    assert StepSettled(chart, x, behind, s);
  }

  lemma CloseTransition(chart: Chart, x: Tables, behind: Behind, jumped: Jumped, openSteps: set<string>,
          openTransitions: set<nat>, t: nat)
    requires WalkOk(chart, x, behind, jumped, openSteps, openTransitions) && t in openTransitions
    requires FromOf(x, t) == PredS(chart, t)
    ensures WalkOk(chart, x, behind, jumped, openSteps, openTransitions - {t})
    ensures TransitionLoop(chart, x, t, |PredS(chart, t)|) == x
  {
    assert TransitionSettled(chart, x, t);
  }

  lemma {:induction false} VisitStepOk(chart: Chart, x: Tables, behind: Behind, jumped: Jumped, openSteps: set<string>,
          openTransitions: set<nat>, s: string)
    returns (behind': Behind)
    requires WellFormed(chart) && WalkOk(chart, x, behind, jumped, openSteps, openTransitions) && s in chart.steps
    ensures WalkOk(chart, VisitStep(chart, x, s), behind', jumped, openSteps, openTransitions)
    ensures Undisturbed(x, behind, VisitStep(chart, x, s), behind', openSteps, openTransitions)
    decreases chart.steps.Keys - x.steps.Keys, chart.transitions.Keys - x.transitions.Keys, 0
  {
    behind' := behind;
    if s !in x.steps {
      var y := AddStep(chart, x, s);
      assert s in chart.steps.Keys - x.steps.Keys && s !in chart.steps.Keys - y.steps.Keys;
      StepAdded(chart, x, behind, jumped, openSteps, openTransitions, s);
      behind' := StepLoopOk(chart, y, behind, jumped, openSteps + {s}, openTransitions, s, 0);
      assert openSteps + {s} - {s} == openSteps;
    }
  }

  lemma {:induction false} StepLoopOk(chart: Chart, x: Tables, behind: Behind, jumped: Jumped, openSteps: set<string>,
          openTransitions: set<nat>, s: string, k: nat)
    returns (behind': Behind)
    requires WellFormed(chart) && WalkOk(chart, x, behind, jumped, openSteps, openTransitions)
    requires s in openSteps && s in chart.steps && k <= |PredT(chart, s)| && BehindOf(behind, s) == PredT(chart, s)[..k]
    ensures WalkOk(chart, StepLoop(chart, x, s, k), behind', jumped, openSteps - {s}, openTransitions)
    ensures Undisturbed(x, behind, StepLoop(chart, x, s, k), behind', openSteps - {s}, openTransitions)
    decreases chart.steps.Keys - x.steps.Keys, chart.transitions.Keys - x.transitions.Keys, 1 + |PredT(chart, s)| - k
  {
    if k == |PredT(chart, s)| {
      assert PredT(chart, s)[..k] == PredT(chart, s);
      CloseStep(chart, x, behind, jumped, openSteps, openTransitions, s);
      return behind;
    }
    var y, b := StepTurnOk(chart, x, behind, jumped, openSteps, openTransitions, s, k);
    var z := StepLoop(chart, y, s, k + 1);
    assert StepLoop(chart, x, s, k) == z;
    behind' := StepLoopOk(chart, y, b, jumped, openSteps, openTransitions, s, k + 1);
    StillUndisturbed(x, behind, y, b, z, behind', openSteps - {s}, openTransitions);
  }

  /** One turn of the loop over the predecessors of a step. */
  lemma {:induction false} StepTurnOk(chart: Chart, x: Tables, behind: Behind, jumped: Jumped, openSteps: set<string>,
          openTransitions: set<nat>, s: string, k: nat)
    returns (y: Tables, behind': Behind)
    requires WellFormed(chart) && WalkOk(chart, x, behind, jumped, openSteps, openTransitions)
    requires s in openSteps && k < |PredT(chart, s)| && BehindOf(behind, s) == PredT(chart, s)[..k]
    ensures y == AddTo(VisitTransition(chart, x, PredT(chart, s)[k]), PredT(chart, s)[k], s)
    ensures WalkOk(chart, y, behind', jumped, openSteps, openTransitions)
    ensures BehindOf(behind', s) == PredT(chart, s)[..k + 1]
    ensures Undisturbed(x, behind, y, behind', openSteps - {s}, openTransitions)
    decreases chart.steps.Keys - x.steps.Keys, chart.transitions.Keys - x.transitions.Keys, 1
  {
    var t := PredT(chart, s)[k];
    var z := VisitTransition(chart, x, t);
    var b := VisitTransitionOk(chart, x, behind, jumped, openSteps, openTransitions, t);
    StepRecorded(chart, z, b, jumped, openSteps, openTransitions, s, t);
    y, behind' := AddTo(z, t, s), Put(b, s, t);
    assert PredT(chart, s)[..k + 1] == PredT(chart, s)[..k] + [t];
  }

  lemma {:induction false} VisitTransitionOk(chart: Chart, x: Tables, behind: Behind, jumped: Jumped,
          openSteps: set<string>, openTransitions: set<nat>, t: nat)
    returns (behind': Behind)
    requires WellFormed(chart) && WalkOk(chart, x, behind, jumped, openSteps, openTransitions) && t in chart.transitions
    ensures WalkOk(chart, VisitTransition(chart, x, t), behind', jumped, openSteps, openTransitions)
    ensures Undisturbed(x, behind, VisitTransition(chart, x, t), behind', openSteps, openTransitions)
    decreases chart.steps.Keys - x.steps.Keys, chart.transitions.Keys - x.transitions.Keys, 0
  {
    behind' := behind;
    if t !in x.transitions {
      var y := AddTransition(x, t);
      assert t in chart.transitions.Keys - x.transitions.Keys && t !in chart.transitions.Keys - y.transitions.Keys;
      TransitionAdded(chart, x, behind, jumped, openSteps, openTransitions, t);
      behind' := TransitionLoopOk(chart, y, behind, jumped, openSteps, openTransitions + {t}, t, 0);
      assert openTransitions + {t} - {t} == openTransitions;
    }
  }

  lemma {:induction false} TransitionLoopOk(chart: Chart, x: Tables, behind: Behind, jumped: Jumped,
          openSteps: set<string>, openTransitions: set<nat>, t: nat, k: nat)
    returns (behind': Behind)
    requires WellFormed(chart) && WalkOk(chart, x, behind, jumped, openSteps, openTransitions)
    requires t in openTransitions && t in chart.transitions && k <= |PredS(chart, t)|
    requires FromOf(x, t) == PredS(chart, t)[..k]
    ensures WalkOk(chart, TransitionLoop(chart, x, t, k), behind', jumped, openSteps, openTransitions - {t})
    ensures Undisturbed(x, behind, TransitionLoop(chart, x, t, k), behind', openSteps, openTransitions - {t})
    decreases chart.steps.Keys - x.steps.Keys, chart.transitions.Keys - x.transitions.Keys, 1 + |PredS(chart, t)| - k
  {
    if k == |PredS(chart, t)| {
      assert PredS(chart, t)[..k] == PredS(chart, t);
      CloseTransition(chart, x, behind, jumped, openSteps, openTransitions, t);
      return behind;
    }
    var y, b := TransitionTurnOk(chart, x, behind, jumped, openSteps, openTransitions, t, k);
    var z := TransitionLoop(chart, y, t, k + 1);
    assert TransitionLoop(chart, x, t, k) == z;
    behind' := TransitionLoopOk(chart, y, b, jumped, openSteps, openTransitions, t, k + 1);
    StillUndisturbed(x, behind, y, b, z, behind', openSteps, openTransitions - {t});
  }

  /** One turn of the loop over the predecessors of a transition. */
  lemma {:induction false} TransitionTurnOk(chart: Chart, x: Tables, behind: Behind, jumped: Jumped,
          openSteps: set<string>, openTransitions: set<nat>, t: nat, k: nat)
    returns (y: Tables, behind': Behind)
    requires WellFormed(chart) && WalkOk(chart, x, behind, jumped, openSteps, openTransitions)
    requires t in openTransitions && k < |PredS(chart, t)| && FromOf(x, t) == PredS(chart, t)[..k]
    ensures y == AddFrom(VisitStep(chart, x, PredS(chart, t)[k]), t, PredS(chart, t)[k])
    ensures WalkOk(chart, y, behind', jumped, openSteps, openTransitions) && FromOf(y, t) == PredS(chart, t)[..k + 1]
    ensures Undisturbed(x, behind, y, behind', openSteps, openTransitions - {t})
    decreases chart.steps.Keys - x.steps.Keys, chart.transitions.Keys - x.transitions.Keys, 1
  {
    var s := PredS(chart, t)[k];
    var z := VisitStep(chart, x, s);
    behind' := VisitStepOk(chart, x, behind, jumped, openSteps, openTransitions, s);
    TransitionRecorded(chart, z, behind', jumped, openSteps, openTransitions, t, s);
    y := AddFrom(z, t, s);
    assert PredS(chart, t)[..k + 1] == PredS(chart, t)[..k] + [s];
  }
}
