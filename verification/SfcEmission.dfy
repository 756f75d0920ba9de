/**
 Emission of a sequential function chart: a depth-first walk from the initial steps that takes every step,
 transition and action out of its table when it writes it.
 */
module SfcEmission {
  import opened Results
  import opened Sfc
  import SfcGenerator

  datatype Chunk =
    | StepText(name: string, info: StepInfo)
    | TransitionText(id: nat, links: TransitionInfo)
    | ActionText(action: ActionName)

  /** What is still in the tables, and the program so far. */
  datatype Pending = Pending(steps: Steps, transitions: Transitions, actions: set<ActionName>, program: seq<Chunk>)

  /** A transition that no step precedes, or none follows. */
  datatype Fault = NotFromStep(id: nat) | NotToStep(id: nat)

  // ----- The walk, as a function

  ghost predicate Shrinks(x: Pending, r: Result<Pending, Fault>) {
    r.Ok? ==> r.value.steps.Keys <= x.steps.Keys && r.value.transitions.Keys <= x.transitions.Keys
  }

  function TakeStep(x: Pending, s: string): Pending
    requires s in x.steps
  {
    x.(steps := x.steps - {s}, program := x.program + [StepText(s, x.steps[s])])
  }

  function TakeTransition(x: Pending, t: nat): Pending
    requires t in x.transitions
  {
    x.(transitions := x.transitions - {t}, program := x.program + [TransitionText(t, x.transitions[t])])
  }

  function ComputeAction(x: Pending, a: ActionName): Pending {
    if a in x.actions then x.(actions := x.actions - {a}, program := x.program + [ActionText(a)]) else x
  }

  function ComputeActions(x: Pending, actions: seq<ActionName>): (r: Pending)
    ensures r.steps == x.steps && r.transitions == x.transitions
  {
    if actions == [] then x else ComputeAction(ComputeActions(x, actions[..|actions| - 1]), actions[|actions| - 1])
  }

  function ComputeStep(x: Pending, s: string): (r: Result<Pending, Fault>)
    ensures Shrinks(x, r)
    decreases x.steps.Keys, x.transitions.Keys, 0
  {
    if s !in x.steps then Ok(x)
    else
      var y := TakeStep(x, s);
      assert s in x.steps.Keys && s !in y.steps.Keys;
      ComputeTransitions(ComputeActions(y, x.steps[s].actions), x.steps[s].transitions, 0)
  }

  function ComputeTransitions(x: Pending, ts: seq<nat>, k: nat): (r: Result<Pending, Fault>)
    ensures Shrinks(x, r)
    decreases x.steps.Keys, x.transitions.Keys, 1 + |ts| - k
  {
    if k >= |ts| then Ok(x)
    else
      var y := ComputeTransition(x, ts[k]);
      if y.Err? then y else ComputeTransitions(y.value, ts, k + 1)
  }

  function ComputeTransition(x: Pending, t: nat): (r: Result<Pending, Fault>)
    ensures Shrinks(x, r)
    decreases x.steps.Keys, x.transitions.Keys, 0
  {
    if t !in x.transitions then Ok(x)
    else if x.transitions[t].from == [] then Err(NotFromStep(t))
    else if x.transitions[t].to == [] then Err(NotToStep(t))
    else
      var y := TakeTransition(x, t);
      assert t in x.transitions.Keys && t !in y.transitions.Keys;
      ComputeSteps(y, x.transitions[t].to, 0)
  }

  function ComputeSteps(x: Pending, ss: seq<string>, k: nat): (r: Result<Pending, Fault>)
    ensures Shrinks(x, r)
    decreases x.steps.Keys, x.transitions.Keys, 1 + |ss| - k
  {
    if k >= |ss| then Ok(x)
    else
      var y := ComputeStep(x, ss[k]);
      if y.Err? then y else ComputeSteps(y.value, ss, k + 1)
  }

  // ----- Reachability in the tables

  /** `b` directly follows `a` across a transition. */
  ghost predicate Follows(x: Pending, a: string, b: string) {
    && a in x.steps && b in x.steps
    && exists t :: t in x.steps[a].transitions && t in x.transitions && b in x.transitions[t].to
  }

  ghost predicate Trail(x: Pending, roots: seq<string>, trail: seq<string>) {
    && trail != [] && trail[0] in roots && trail[0] in x.steps
    && forall i :: 0 <= i < |trail| - 1 ==> Follows(x, trail[i], trail[i + 1])
  }

  ghost predicate Reached(x: Pending, roots: seq<string>, s: string) {
    exists trail :: Trail(x, roots, trail) && trail[|trail| - 1] == s
  }

  lemma RootReached(x: Pending, roots: seq<string>, s: string)
    requires s in roots && s in x.steps
    ensures Reached(x, roots, s)
  {
    assert Trail(x, roots, [s]);
  }

  lemma FollowerReached(x: Pending, roots: seq<string>, a: string, b: string)
    requires Reached(x, roots, a) && Follows(x, a, b)
    ensures Reached(x, roots, b)
  {
    var trail :| Trail(x, roots, trail) && trail[|trail| - 1] == a;
    var longer := trail + [b];
    forall i | 0 <= i < |longer| - 1
      ensures Follows(x, longer[i], longer[i + 1])
    {
      if i < |trail| - 1 {
        assert Follows(x, trail[i], trail[i + 1]);
      }
    }
    assert Trail(x, roots, longer);
  }

  /** A set that holds the roots and is closed under following holds everything reached. */
  lemma {:induction false} ClosedHoldsReached(x: Pending, roots: seq<string>, inside: set<string>, trail: seq<string>)
    requires Trail(x, roots, trail)
    requires forall s :: s in roots && s in x.steps ==> s in inside
    requires forall a, b :: a in inside && Follows(x, a, b) ==> b in inside
    ensures trail[|trail| - 1] in inside
    decreases |trail|
  {
    if |trail| > 1 {
      var front := trail[..|trail| - 1];
      forall i | 0 <= i < |front| - 1
        ensures Follows(x, front[i], front[i + 1])
      {
        assert Follows(x, trail[i], trail[i + 1]);
      }
      ClosedHoldsReached(x, roots, inside, front);
      assert Follows(x, trail[|trail| - 2], trail[|trail| - 1]);
    }
  }

  // ----- What holds during the walk, compared with the tables `o` it started from

  ghost predicate TransitionReached(o: Pending, roots: seq<string>, t: nat) {
    t in o.transitions && exists s :: Reached(o, roots, s) && s in o.steps && t in o.steps[s].transitions
  }

  ghost predicate ActionReached(o: Pending, roots: seq<string>, a: ActionName) {
    a in o.actions && exists s :: Reached(o, roots, s) && s in o.steps && a in o.steps[s].actions
  }

  ghost predicate StepGone(o: Pending, x: Pending, s: string) {
    s in o.steps && s !in x.steps
  }

  ghost predicate TransitionGone(o: Pending, x: Pending, t: nat) {
    t in o.transitions && t !in x.transitions
  }

  ghost predicate ActionGone(o: Pending, x: Pending, a: ActionName) {
    a in o.actions && a !in x.actions
  }

  /** What is left is unchanged. */
  ghost predicate Left(o: Pending, x: Pending) {
    && (forall s :: s in x.steps ==> s in o.steps && x.steps[s] == o.steps[s])
    && (forall t :: t in x.transitions ==> t in o.transitions && x.transitions[t] == o.transitions[t])
    && x.actions <= o.actions
  }

  /** A chunk is the text of an element that was taken out of its table. */
  ghost predicate Genuine(o: Pending, x: Pending, c: Chunk) {
    match c
    case StepText(s, info) => StepGone(o, x, s) && info == o.steps[s]
    case TransitionText(t, links) =>
      TransitionGone(o, x, t) && links == o.transitions[t] && links.from != [] && links.to != []
    case ActionText(a) => ActionGone(o, x, a)
  }

  /** The program holds exactly the elements taken out, each once. */
  ghost predicate Written(o: Pending, x: Pending) {
    && (forall c :: c in x.program ==> Genuine(o, x, c))
    && (forall s :: StepGone(o, x, s) ==> StepText(s, o.steps[s]) in x.program)
    && (forall t :: TransitionGone(o, x, t) ==> TransitionText(t, o.transitions[t]) in x.program)
    && (forall a :: ActionGone(o, x, a) ==> ActionText(a) in x.program)
    && (forall i, j :: 0 <= i < j < |x.program| ==> x.program[i] != x.program[j])
  }

  ghost predicate StepDone(o: Pending, x: Pending, s: string)
    requires s in o.steps
  {
    && (forall a :: a in o.steps[s].actions ==> a !in x.actions)
    && (forall t :: t in o.steps[s].transitions ==> t !in x.transitions)
  }

  ghost predicate TransitionDone(o: Pending, x: Pending, t: nat)
    requires t in o.transitions
  {
    forall s :: s in o.transitions[t].to ==> s !in x.steps
  }

  /** Everything behind an element taken out was taken out too, unless the element is being written. */
  ghost predicate Closed(o: Pending, x: Pending, openSteps: set<string>, openTransitions: set<nat>) {
    && (forall s :: StepGone(o, x, s) && s !in openSteps ==> StepDone(o, x, s))
    && (forall t :: TransitionGone(o, x, t) && t !in openTransitions ==> TransitionDone(o, x, t))
  }

  /** A part of the chart. */
  datatype Part = Part(steps: set<string>, transitions: set<nat>, actions: set<ActionName>)

  /** The part holds all that its steps lead to. */
  ghost predicate ClosedPart(o: Pending, part: Part) {
    && (forall s :: s in part.steps && s in o.steps ==> StepInside(o, part, s))
    && (forall t :: t in part.transitions && t in o.transitions ==> StepsInside(o, part, o.transitions[t].to))
  }

  ghost predicate StepInside(o: Pending, part: Part, s: string)
    requires s in o.steps
  {
    TransitionsInside(o, part, o.steps[s].transitions) && ActionsInside(o, part, o.steps[s].actions)
  }

  ghost predicate TransitionsInside(o: Pending, part: Part, ts: seq<nat>) {
    forall i :: 0 <= i < |ts| && ts[i] in o.transitions ==> ts[i] in part.transitions
  }

  ghost predicate StepsInside(o: Pending, part: Part, ss: seq<string>) {
    forall i :: 0 <= i < |ss| && ss[i] in o.steps ==> ss[i] in part.steps
  }

  ghost predicate ActionsInside(o: Pending, part: Part, actions: seq<ActionName>) {
    forall i :: 0 <= i < |actions| && actions[i] in o.actions ==> actions[i] in part.actions
  }

  ghost predicate OnlyInside(o: Pending, part: Part, x: Pending) {
    && (forall s :: StepGone(o, x, s) ==> s in part.steps)
    && (forall t :: TransitionGone(o, x, t) ==> t in part.transitions)
    && (forall a :: ActionGone(o, x, a) ==> a in part.actions)
  }

  ghost predicate During(o: Pending, part: Part, x: Pending, openSteps: set<string>, openTransitions: set<nat>) {
    && Left(o, x) && Written(o, x)
    && Closed(o, x, openSteps, openTransitions)
    && OnlyInside(o, part, x)
  }

  ghost predicate Broken(o: Pending, part: Part, f: Fault) {
    match f
    case NotFromStep(t) => t in part.transitions && t in o.transitions && o.transitions[t].from == []
    case NotToStep(t) => t in part.transitions && t in o.transitions && o.transitions[t].to == []
  }

  ghost predicate Less(x: Pending, y: Pending) {
    y.steps.Keys <= x.steps.Keys && y.transitions.Keys <= x.transitions.Keys && y.actions <= x.actions
  }

  lemma WriteOne(o: Pending, x: Pending, y: Pending, c: Chunk)
    requires Written(o, x) && y.program == x.program + [c] && Genuine(o, y, c) && !Genuine(o, x, c)
    requires forall d :: Genuine(o, x, d) ==> Genuine(o, y, d)
    requires forall s :: StepGone(o, y, s) ==> StepGone(o, x, s) || c == StepText(s, o.steps[s])
    requires forall t :: TransitionGone(o, y, t) ==> TransitionGone(o, x, t) || c == TransitionText(t, o.transitions[t])
    requires forall a :: ActionGone(o, y, a) ==> ActionGone(o, x, a) || c == ActionText(a)
    ensures Written(o, y)
  {
    assert forall d :: d in y.program <==> d in x.program || d == c;
    forall i, j | 0 <= i < j < |y.program|
      ensures y.program[i] != y.program[j]
    {
      if j == |x.program| {
        assert x.program[i] in x.program;
      }
    }
  }

  lemma TakeStepOk(o: Pending, part: Part, x: Pending, openSteps: set<string>, openTransitions: set<nat>, s: string)
    requires During(o, part, x, openSteps, openTransitions) && s in x.steps && s in part.steps
    ensures During(o, part, TakeStep(x, s), openSteps + {s}, openTransitions)
  {
    WriteOne(o, x, TakeStep(x, s), StepText(s, x.steps[s]));
  }

  lemma TakeTransitionOk(o: Pending, part: Part, x: Pending, openSteps: set<string>, openTransitions: set<nat>, t: nat)
    requires During(o, part, x, openSteps, openTransitions) && t in x.transitions && t in part.transitions
    requires x.transitions[t].from != [] && x.transitions[t].to != []
    ensures During(o, part, TakeTransition(x, t), openSteps, openTransitions + {t})
  {
    var y := TakeTransition(x, t);
    assert Written(o, y) by { TakeTransitionWritten(o, x, t); }
    assert Left(o, y);
    assert OnlyInside(o, part, y);
    forall u | TransitionGone(o, y, u) && u !in openTransitions + {t}
      ensures TransitionDone(o, y, u)
    {
      assert TransitionGone(o, x, u);
    }
  }

  lemma TakeTransitionWritten(o: Pending, x: Pending, t: nat)
    requires Left(o, x) && Written(o, x) && t in x.transitions
    requires x.transitions[t].from != [] && x.transitions[t].to != []
    ensures Written(o, TakeTransition(x, t))
  {
    WriteOne(o, x, TakeTransition(x, t), TransitionText(t, x.transitions[t]));
  }

  lemma ActionOk(o: Pending, part: Part, x: Pending, openSteps: set<string>, openTransitions: set<nat>, a: ActionName)
    requires During(o, part, x, openSteps, openTransitions) && (a in o.actions ==> a in part.actions)
    ensures During(o, part, ComputeAction(x, a), openSteps, openTransitions)
    ensures Less(x, ComputeAction(x, a)) && a !in ComputeAction(x, a).actions
  {
    if a in x.actions {
      WriteOne(o, x, ComputeAction(x, a), ActionText(a));
    }
  }

  lemma {:induction false} ActionsOk(o: Pending, part: Part, x: Pending, openSteps: set<string>,
          openTransitions: set<nat>, actions: seq<ActionName>)
    requires During(o, part, x, openSteps, openTransitions)
    requires ActionsInside(o, part, actions)
    ensures During(o, part, ComputeActions(x, actions), openSteps, openTransitions)
    ensures Less(x, ComputeActions(x, actions)) && forall a :: a in actions ==> a !in ComputeActions(x, actions).actions
    decreases |actions|
  {
    if actions != [] {
      var n := |actions| - 1;
      assert actions == actions[..n] + [actions[n]];
      ActionsOk(o, part, x, openSteps, openTransitions, actions[..n]);
      ActionOk(o, part, ComputeActions(x, actions[..n]), openSteps, openTransitions, actions[n]);
    }
  }

  // ----- The walk keeps it

  /** What a walk from `x` guarantees of its result. */
  ghost predicate Walked(o: Pending, part: Part, x: Pending, openSteps: set<string>, openTransitions: set<nat>,
          r: Result<Pending, Fault>)
  {
    match r
    case Ok(y) => During(o, part, y, openSteps, openTransitions) && Less(x, y)
    case Err(f) => Broken(o, part, f)
  }

  lemma WalkedOn(o: Pending, part: Part, x: Pending, y: Pending, openSteps: set<string>, openTransitions: set<nat>,
          r: Result<Pending, Fault>)
    requires Less(x, y) && Walked(o, part, y, openSteps, openTransitions, r)
    ensures Walked(o, part, x, openSteps, openTransitions, r)
  {
  }

  ghost predicate TransitionsTaken(x: Pending, ts: seq<nat>, k: nat) {
    forall i :: 0 <= i < k && i < |ts| ==> ts[i] !in x.transitions
  }

  ghost predicate StepsTaken(x: Pending, ss: seq<string>, k: nat) {
    forall i :: 0 <= i < k && i < |ss| ==> ss[i] !in x.steps
  }

  lemma {:induction false} ComputeStepOk(o: Pending, part: Part, x: Pending, openSteps: set<string>,
          openTransitions: set<nat>, s: string)
    requires ClosedPart(o, part) && During(o, part, x, openSteps, openTransitions) && (s in o.steps ==> s in part.steps)
    ensures Walked(o, part, x, openSteps, openTransitions, ComputeStep(x, s))
    ensures ComputeStep(x, s).Ok? ==> s !in ComputeStep(x, s).value.steps
    decreases x.steps.Keys, x.transitions.Keys, 0
  {
    if s in x.steps {
      var y := TakeStep(x, s);
      assert s in x.steps.Keys && s !in y.steps.Keys;
      TakeStepOk(o, part, x, openSteps, openTransitions, s);
      var z := ComputeActions(y, x.steps[s].actions);
      ActionsOk(o, part, y, openSteps + {s}, openTransitions, x.steps[s].actions);
      ComputeTransitionsOk(o, part, z, openSteps + {s}, openTransitions, o.steps[s].transitions, 0);
      var r := ComputeTransitions(z, x.steps[s].transitions, 0);
      if r.Ok? {
        CloseStep(o, part, r.value, openSteps, openTransitions, s);
      }
    }
  }

  lemma CloseStep(o: Pending, part: Part, x: Pending, openSteps: set<string>, openTransitions: set<nat>, s: string)
    requires During(o, part, x, openSteps + {s}, openTransitions) && s in o.steps && StepDone(o, x, s)
    ensures During(o, part, x, openSteps, openTransitions)
  {
  }

  lemma CloseTransition(o: Pending, part: Part, x: Pending, openSteps: set<string>, openTransitions: set<nat>, t: nat)
    requires During(o, part, x, openSteps, openTransitions + {t}) && t in o.transitions && TransitionDone(o, x, t)
    ensures During(o, part, x, openSteps, openTransitions)
  {
  }

  lemma {:induction false} ComputeTransitionsOk(o: Pending, part: Part, x: Pending, openSteps: set<string>,
          openTransitions: set<nat>, ts: seq<nat>, k: nat)
    requires During(o, part, x, openSteps, openTransitions) && ClosedPart(o, part) && TransitionsInside(o, part, ts)
    requires k <= |ts| && TransitionsTaken(x, ts, k)
    ensures Walked(o, part, x, openSteps, openTransitions, ComputeTransitions(x, ts, k))
    ensures ComputeTransitions(x, ts, k).Ok? ==> TransitionsTaken(ComputeTransitions(x, ts, k).value, ts, |ts|)
    decreases x.steps.Keys, x.transitions.Keys, 1 + |ts| - k
  {
    if k < |ts| {
      var y := ComputeTransition(x, ts[k]);
      ComputeTransitionOk(o, part, x, openSteps, openTransitions, ts[k]);
      if y.Ok? {
        ComputeTransitionsOk(o, part, y.value, openSteps, openTransitions, ts, k + 1);
        WalkedOn(o, part, x, y.value, openSteps, openTransitions, ComputeTransitions(y.value, ts, k + 1));
      }
    }
  }

  lemma {:induction false} ComputeTransitionOk(o: Pending, part: Part, x: Pending, openSteps: set<string>,
          openTransitions: set<nat>, t: nat)
    requires ClosedPart(o, part) && During(o, part, x, openSteps, openTransitions)
    requires t in o.transitions ==> t in part.transitions
    ensures Walked(o, part, x, openSteps, openTransitions, ComputeTransition(x, t))
    ensures ComputeTransition(x, t).Ok? ==> t !in ComputeTransition(x, t).value.transitions
    decreases x.steps.Keys, x.transitions.Keys, 0
  {
    if t in x.transitions && x.transitions[t].from != [] && x.transitions[t].to != [] {
      var y := TakeTransition(x, t);
      assert t in x.transitions.Keys && t !in y.transitions.Keys;
      TakeTransitionOk(o, part, x, openSteps, openTransitions, t);
      ComputeStepsOk(o, part, y, openSteps, openTransitions + {t}, o.transitions[t].to, 0);
      var r := ComputeSteps(y, x.transitions[t].to, 0);
      if r.Ok? {
        CloseTransition(o, part, r.value, openSteps, openTransitions, t);
      }
    }
  }

  lemma {:induction false} ComputeStepsOk(o: Pending, part: Part, x: Pending, openSteps: set<string>,
          openTransitions: set<nat>, ss: seq<string>, k: nat)
    requires During(o, part, x, openSteps, openTransitions) && ClosedPart(o, part) && StepsInside(o, part, ss)
    requires k <= |ss| && StepsTaken(x, ss, k)
    ensures Walked(o, part, x, openSteps, openTransitions, ComputeSteps(x, ss, k))
    ensures ComputeSteps(x, ss, k).Ok? ==> StepsTaken(ComputeSteps(x, ss, k).value, ss, |ss|)
    decreases x.steps.Keys, x.transitions.Keys, 1 + |ss| - k
  {
    if k < |ss| {
      var y := ComputeStep(x, ss[k]);
      ComputeStepOk(o, part, x, openSteps, openTransitions, ss[k]);
      if y.Ok? {
        ComputeStepsOk(o, part, y.value, openSteps, openTransitions, ss, k + 1);
        WalkedOn(o, part, x, y.value, openSteps, openTransitions, ComputeSteps(y.value, ss, k + 1));
      }
    }
  }

  // ----- The whole chart

  /** Writes the chart from each initial step in turn. */
  function ComputeAll(x: Pending, initials: seq<string>): Result<Pending, Fault> {
    if initials == [] then Ok(x)
    else
      var y := ComputeAll(x, initials[..|initials| - 1]);
      if y.Err? then y else ComputeStep(y.value, initials[|initials| - 1])
  }

  ghost predicate Fresh(o: Pending) {
    o.program == []
  }

  lemma {:induction false} ComputeAllOk(o: Pending, part: Part, initials: seq<string>)
    requires Fresh(o) && ClosedPart(o, part) && StepsInside(o, part, initials)
    ensures Walked(o, part, o, {}, {}, ComputeAll(o, initials))
    ensures ComputeAll(o, initials).Ok? ==> forall s :: s in initials ==> s !in ComputeAll(o, initials).value.steps
    decreases |initials|
  {
    if initials != [] {
      var n := |initials| - 1;
      assert initials == initials[..n] + [initials[n]];
      ComputeAllOk(o, part, initials[..n]);
      var y := ComputeAll(o, initials[..n]);
      if y.Ok? {
        ComputeStepOk(o, part, y.value, {}, {}, initials[n]);
      }
    }
  }

  /** What is reached from the initial steps. */
  ghost function ReachedPart(o: Pending, initials: seq<string>): (part: Part)
    ensures forall s :: s in part.steps <==> Reached(o, initials, s) && s in o.steps
    ensures forall t :: t in part.transitions <==> TransitionReached(o, initials, t)
    ensures forall a :: a in part.actions <==> ActionReached(o, initials, a)
  {
    Part(set s | s in o.steps && Reached(o, initials, s),
         set t | t in o.transitions && TransitionReached(o, initials, t),
         set a | a in o.actions && ActionReached(o, initials, a))
  }

  lemma ReachedIsClosed(o: Pending, initials: seq<string>)
    ensures ClosedPart(o, ReachedPart(o, initials)) && StepsInside(o, ReachedPart(o, initials), initials)
  {
    var part := ReachedPart(o, initials);
    forall i | 0 <= i < |initials| && initials[i] in o.steps
      ensures initials[i] in part.steps
    {
      RootReached(o, initials, initials[i]);
    }
    forall t, i | t in part.transitions && t in o.transitions
                  && 0 <= i < |o.transitions[t].to| && o.transitions[t].to[i] in o.steps
      ensures o.transitions[t].to[i] in part.steps
    {
      var s :| Reached(o, initials, s) && s in o.steps && t in o.steps[s].transitions;
      assert Follows(o, s, o.transitions[t].to[i]);
      FollowerReached(o, initials, s, o.transitions[t].to[i]);
    }
  }

  /** What was taken out is closed under following, so it is all that is reached. */
  lemma ReachedIsGone(o: Pending, initials: seq<string>, x: Pending, s: string)
    requires Closed(o, x, {}, {}) && (forall r :: r in initials ==> r !in x.steps) && Reached(o, initials, s)
    ensures StepGone(o, x, s) && StepDone(o, x, s)
  {
    var gone := set u | u in o.steps && u !in x.steps;
    var trail :| Trail(o, initials, trail) && trail[|trail| - 1] == s;
    forall a, b | a in gone && Follows(o, a, b)
      ensures b in gone
    {
      assert StepGone(o, x, a) && StepDone(o, x, a);
      var t :| t in o.steps[a].transitions && t in o.transitions && b in o.transitions[t].to;
      assert TransitionGone(o, x, t) && TransitionDone(o, x, t);
    }
    ClosedHoldsReached(o, initials, gone, trail);
    assert StepGone(o, x, s);
  }

  /**
   Emission ends on every chart and writes exactly the steps reached from the initial steps, the transitions
   of those steps and their actions, each once. It stops with an error exactly when a transition so reached
   has no step before or behind it.
   */
  lemma EmissionExact(o: Pending, initials: seq<string>)
    requires Fresh(o)
    ensures var r := ComputeAll(o, initials);
            && (r.Err? <==>
                  exists t :: && TransitionReached(o, initials, t)
                              && (o.transitions[t].from == [] || o.transitions[t].to == []))
            && (r.Ok? ==>
                  var p := r.value.program;
                  && (forall s, info :: StepText(s, info) in p <==>
                        Reached(o, initials, s) && s in o.steps && info == o.steps[s])
                  && (forall t, links :: TransitionText(t, links) in p <==>
                        TransitionReached(o, initials, t) && links == o.transitions[t])
                  && (forall a :: ActionText(a) in p <==> ActionReached(o, initials, a))
                  && (forall i, j :: 0 <= i < j < |p| ==> p[i] != p[j]))
  {
    var part := ReachedPart(o, initials);
    ReachedIsClosed(o, initials);
    ComputeAllOk(o, part, initials);
    var r := ComputeAll(o, initials);
    if r.Ok? {
      var x := r.value;
      forall s | Reached(o, initials, s)
        ensures StepGone(o, x, s) && StepDone(o, x, s)
      {
        ReachedIsGone(o, initials, x, s);
      }
      forall t | TransitionReached(o, initials, t)
        ensures TransitionGone(o, x, t) && o.transitions[t].from != [] && o.transitions[t].to != []
      {
        var s :| Reached(o, initials, s) && s in o.steps && t in o.steps[s].transitions;
        assert TransitionGone(o, x, t);
        assert TransitionText(t, o.transitions[t]) in x.program;
        assert Genuine(o, x, TransitionText(t, o.transitions[t]));
      }
      forall a | ActionReached(o, initials, a)
        ensures ActionGone(o, x, a)
      {
        var s :| Reached(o, initials, s) && s in o.steps && a in o.steps[s].actions;
        assert StepDone(o, x, s);
      }
      ProgramExact(o, initials, x);
    }
  }

  lemma ProgramExact(o: Pending, initials: seq<string>, x: Pending)
    requires Written(o, x) && OnlyInside(o, ReachedPart(o, initials), x)
    requires forall s :: Reached(o, initials, s) ==> StepGone(o, x, s)
    requires forall t :: TransitionReached(o, initials, t) ==> TransitionGone(o, x, t)
    requires forall a :: ActionReached(o, initials, a) ==> ActionGone(o, x, a)
    ensures forall s, info :: StepText(s, info) in x.program <==>
              Reached(o, initials, s) && s in o.steps && info == o.steps[s]
    ensures forall t, links :: TransitionText(t, links) in x.program <==>
              TransitionReached(o, initials, t) && links == o.transitions[t]
    ensures forall a :: ActionText(a) in x.program <==> ActionReached(o, initials, a)
  {
    forall s, info
      ensures StepText(s, info) in x.program <==> Reached(o, initials, s) && s in o.steps && info == o.steps[s]
    {
      assert StepText(s, info) in x.program ==> Genuine(o, x, StepText(s, info));
    }
    forall t, links
      ensures TransitionText(t, links) in x.program <==> TransitionReached(o, initials, t) && links == o.transitions[t]
    {
      assert TransitionText(t, links) in x.program ==> Genuine(o, x, TransitionText(t, links));
    }
    forall a
      ensures ActionText(a) in x.program <==> ActionReached(o, initials, a)
    {
      assert ActionText(a) in x.program ==> Genuine(o, x, ActionText(a));
    }
  }

  // ----- From the body to the program

  /** The tables of a whole chart, with actions recorded with the steps, and nothing written yet. */
  ghost predicate Ready(x: Tables, o: Pending) {
    && Fresh(o) && o.transitions == x.transitions && o.steps.Keys == x.steps.Keys
    && forall s :: s in o.steps ==> o.steps[s].transitions == x.steps[s].transitions
  }

  /** The chart leads from step `a` across a transition to step `b`, directly or by a jump. */
  ghost predicate Linked(chart: Chart, jumped: Jumped, a: string, b: string) {
    exists t :: t in chart.transitions && a in chart.transitions[t] && (t in PredT(chart, b) || (t, b) in jumped)
  }

  ghost predicate ChartTrail(chart: Chart, jumped: Jumped, trail: seq<string>) {
    && trail != [] && (forall i :: 0 <= i < |trail| ==> trail[i] in chart.steps) && chart.steps[trail[0]].initial
    && forall i :: 0 <= i < |trail| - 1 ==> Linked(chart, jumped, trail[i], trail[i + 1])
  }

  lemma FollowsIsLinked(chart: Chart, x: Tables, jumped: Jumped, o: Pending, a: string, b: string)
    requires SfcGenerator.Complete(chart, x, jumped) && Ready(x, o)
    ensures Follows(o, a, b) <==> a in chart.steps && b in chart.steps && Linked(chart, jumped, a, b)
  {
    forall t | t in chart.transitions && a in chart.steps && b in chart.steps
      ensures t in x.steps[a].transitions <==> a in chart.transitions[t]
      ensures b in x.transitions[t].to <==> t in PredT(chart, b) || (t, b) in jumped
    {
      assert FromOf(x, t) == PredS(chart, t);
      assert InStep(x, a, t) == InFrom(x, t, a);
      assert InTo(x, t, b) == multiset(PredT(chart, b))[t] + jumped[(t, b)];
    }
    if Follows(o, a, b) {
      var t :| t in o.steps[a].transitions && t in o.transitions && b in o.transitions[t].to;
      assert t in chart.transitions && a in chart.transitions[t];
    }
    if a in chart.steps && b in chart.steps && Linked(chart, jumped, a, b) {
      var t :| t in chart.transitions && a in chart.transitions[t] && (t in PredT(chart, b) || (t, b) in jumped);
      assert t in o.steps[a].transitions && t in o.transitions && b in o.transitions[t].to;
    }
  }

  /** The chart leads to the step from an initial step. */
  ghost predicate Leads(chart: Chart, jumped: Jumped, s: string) {
    exists trail :: ChartTrail(chart, jumped, trail) && trail[|trail| - 1] == s
  }

  ghost predicate StepWritten(program: seq<Chunk>, s: string) {
    exists info :: StepText(s, info) in program
  }

  /** The steps written are those to which the chart leads from an initial step. */
  lemma StepsWritten(chart: Chart, x: Tables, jumped: Jumped, o: Pending, s: string)
    requires SfcGenerator.Complete(chart, x, jumped) && Ready(x, o) && ComputeAll(o, x.initials).Ok?
    ensures StepWritten(ComputeAll(o, x.initials).value.program, s) <==> Leads(chart, jumped, s)
  {
    EmissionExact(o, x.initials);
    var p := ComputeAll(o, x.initials).value.program;
    forall a, b
      ensures Follows(o, a, b) <==> a in chart.steps && b in chart.steps && Linked(chart, jumped, a, b)
    {
      FollowsIsLinked(chart, x, jumped, o, a, b);
    }
    forall trail
      ensures Trail(o, x.initials, trail) <==> ChartTrail(chart, jumped, trail)
    {
      TrailIsChartTrail(chart, x, jumped, o, trail);
    }
    if trail :| ChartTrail(chart, jumped, trail) && trail[|trail| - 1] == s {
      assert Trail(o, x.initials, trail);
      assert Reached(o, x.initials, s) && s in o.steps;
      assert StepText(s, o.steps[s]) in p;
    }
    if info :| StepText(s, info) in p {
      assert Reached(o, x.initials, s);
    }
  }

  lemma TrailIsChartTrail(chart: Chart, x: Tables, jumped: Jumped, o: Pending, trail: seq<string>)
    requires SfcGenerator.Complete(chart, x, jumped) && Ready(x, o)
    requires forall a, b :: Follows(o, a, b) <==> a in chart.steps && b in chart.steps && Linked(chart, jumped, a, b)
    ensures Trail(o, x.initials, trail) <==> ChartTrail(chart, jumped, trail)
  {
    if Trail(o, x.initials, trail) {
      forall i | 0 <= i < |trail|
        ensures trail[i] in chart.steps
      {
        if i > 0 {
          assert Follows(o, trail[i - 1], trail[i - 1 + 1]);
        }
      }
    }
  }

  // ----- The emitter

  /** The generator while it writes the chart. */
  class SfcEmitter {
    var steps: Steps
    var transitions: Transitions
    var actions: set<ActionName>
    var program: seq<Chunk>

    ghost function Now(): Pending
      reads this
    {
      Pending(steps, transitions, actions, program)
    }

    constructor (steps: Steps, transitions: Transitions, actions: set<ActionName>)
      ensures Now() == Pending(steps, transitions, actions, []) && Fresh(Now())
    {
      this.steps, this.transitions, this.actions, program := steps, transitions, actions, [];
    }

    method ComputeSFCAction(a: ActionName)
      modifies this
      ensures Now() == ComputeAction(old(Now()), a)
    {
      if a in actions {
        actions := actions - {a};
        program := program + [ActionText(a)];
      }
    }

    method ComputeSFCStep(s: string) returns (r: Result<(), Fault>)
      modifies this
      ensures r.Ok? ==> ComputeStep(old(Now()), s) == Ok(Now())
      ensures r.Err? ==> ComputeStep(old(Now()), s) == Err(r.error)
      decreases steps.Keys, transitions.Keys
    {
      if s in steps {
        ghost var before := Now();
        var info := steps[s];
        steps := steps - {s};
        program := program + [StepText(s, info)];
        assert Now() == TakeStep(before, s);
        assert s in before.steps.Keys && s !in steps.Keys;
        for k := 0 to |info.actions|
          invariant Now() == ComputeActions(TakeStep(before, s), info.actions[..k])
        {
          assert info.actions[..k + 1][..k] == info.actions[..k];
          ComputeSFCAction(info.actions[k]);
        }
        assert info.actions[..|info.actions|] == info.actions;
        for k := 0 to |info.transitions|
          invariant ComputeTransitions(Now(), info.transitions, k) == ComputeStep(before, s)
          invariant steps.Keys <= before.steps.Keys - {s}
        {
          assert s in before.steps.Keys && s !in steps.Keys;
          var _ :- ComputeSFCTransition(info.transitions[k]);
        }
      }
      return Ok(());
    }

    method ComputeSFCTransition(t: nat) returns (r: Result<(), Fault>)
      modifies this
      ensures r.Ok? ==> ComputeTransition(old(Now()), t) == Ok(Now())
      ensures r.Err? ==> ComputeTransition(old(Now()), t) == Err(r.error)
      decreases steps.Keys, transitions.Keys
    {
      if t in transitions {
        ghost var before := Now();
        var links := transitions[t];
        transitions := transitions - {t};
        if links.from == [] {
          return Err(NotFromStep(t));
        }
        if links.to == [] {
          return Err(NotToStep(t));
        }
        program := program + [TransitionText(t, links)];
        assert Now() == TakeTransition(before, t);
        for k := 0 to |links.to|
          invariant ComputeSteps(Now(), links.to, k) == ComputeTransition(before, t)
          invariant steps.Keys <= before.steps.Keys && transitions.Keys <= before.transitions.Keys - {t}
        {
          assert t in before.transitions.Keys && t !in transitions.Keys;
          var _ :- ComputeSFCStep(links.to[k]);
        }
      }
      return Ok(());
    }

    /** Writes the chart from each of the initial steps. */
    method ComputeChart(initials: seq<string>) returns (r: Result<(), Fault>)
      modifies this
      ensures r.Ok? ==> ComputeAll(old(Now()), initials) == Ok(Now())
      ensures r.Err? ==> ComputeAll(old(Now()), initials).Err?
    {
      for k := 0 to |initials|
        invariant ComputeAll(old(Now()), initials[..k]) == Ok(Now())
      {
        assert initials[..k + 1][..k] == initials[..k];
        r := ComputeSFCStep(initials[k]);
        if r.Err? {
          AllStops(old(Now()), initials, k + 1);
          return;
        }
      }
      assert initials[..|initials|] == initials;
      return Ok(());
    }
  }

  /** An error stops the whole. */
  lemma {:induction false} AllStops(x: Pending, initials: seq<string>, k: nat)
    requires k <= |initials| && ComputeAll(x, initials[..k]).Err?
    ensures ComputeAll(x, initials).Err?
    decreases |initials|
  {
    if k < |initials| {
      assert initials[..|initials| - 1][..k] == initials[..k];
      AllStops(x, initials[..|initials| - 1], k);
    } else {
      assert initials[..k] == initials;
    }
  }
}
