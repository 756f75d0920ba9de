/**
 Where jumps lead. A jump is accepted if its target is the name of a step with letter case apart, but is
 followed only if the target is spelled as that step is.
 */
module SfcJumps {
  import opened Results
  import opened Texts
  import opened Sfc
  import SfcGenerator
  import opened SfcEmission

  lemma LinkedLeads(chart: Chart, jumped: Jumped, a: string, b: string)
    requires Leads(chart, jumped, a) && Linked(chart, jumped, a, b) && b in chart.steps
    ensures Leads(chart, jumped, b)
  {
    var trail :| ChartTrail(chart, jumped, trail) && trail[|trail| - 1] == a;
    var longer := trail + [b];
    forall i | 0 <= i < |longer| - 1
      ensures Linked(chart, jumped, longer[i], longer[i + 1])
    {
      if i < |trail| - 1 {
        assert Linked(chart, jumped, trail[i], trail[i + 1]);
      }
    }
    assert ChartTrail(chart, jumped, longer);
  }

  /** A set that holds the initial steps and is closed under links holds everything the chart leads to. */
  lemma {:induction false} ClosedHoldsLed(chart: Chart, jumped: Jumped, inside: set<string>, trail: seq<string>)
    requires ChartTrail(chart, jumped, trail)
    requires forall s :: s in chart.steps && chart.steps[s].initial ==> s in inside
    requires forall a, b :: a in inside && b in chart.steps && Linked(chart, jumped, a, b) ==> b in inside
    ensures trail[|trail| - 1] in inside
    decreases |trail|
  {
    if |trail| > 1 {
      var front := trail[..|trail| - 1];
      forall i | 0 <= i < |front| - 1
        ensures Linked(chart, jumped, front[i], front[i + 1])
      {
        assert Linked(chart, jumped, trail[i], trail[i + 1]);
      }
      ClosedHoldsLed(chart, jumped, inside, front);
      assert Linked(chart, jumped, trail[|trail| - 2], trail[|trail| - 2 + 1]);
    }
  }

  lemma MoreJumpsLead(chart: Chart, jumped: Jumped, more: Jumped, s: string)
    requires jumped <= more && Leads(chart, jumped, s)
    ensures Leads(chart, more, s)
  {
    var trail :| ChartTrail(chart, jumped, trail) && trail[|trail| - 1] == s;
    forall i | 0 <= i < |trail| - 1
      ensures Linked(chart, more, trail[i], trail[i + 1])
    {
      assert Linked(chart, jumped, trail[i], trail[i + 1]);
    }
    assert ChartTrail(chart, more, trail);
  }

  /**
   A jump behind a transition that is reached leads to the step it matches exactly when it is spelled as the
   step is, or the step is reached without it.
   */
  lemma JumpLands(chart: Chart, jumped: Jumped, a: string, t: nat, target: string, s: string)
    requires t in chart.transitions && a in chart.transitions[t] && Leads(chart, jumped, a)
    requires s in chart.steps && TextMatched(s, target) && (target in chart.steps ==> target == s)
    ensures Leads(chart, jumped + multiset{(t, target)}, s) <==> target == s || Leads(chart, jumped, s)
  {
    var more := jumped + multiset{(t, target)};
    if target == s {
      MoreJumpsLead(chart, jumped, more, a);
      LinkedLeads(chart, more, a, s);
      return;
    }
    if Leads(chart, jumped, s) {
      MoreJumpsLead(chart, jumped, more, s);
    }
    if trail :| ChartTrail(chart, more, trail) && trail[|trail| - 1] == s {
      NoSuchStep(chart, jumped, t, target, trail);
    }
  }

  /** A jump that is spelled as no step leads nowhere. */
  lemma NoSuchStep(chart: Chart, jumped: Jumped, t: nat, target: string, trail: seq<string>)
    requires target !in chart.steps && ChartTrail(chart, jumped + multiset{(t, target)}, trail)
    ensures ChartTrail(chart, jumped, trail)
  {
    forall i | 0 <= i < |trail| - 1
      ensures Linked(chart, jumped, trail[i], trail[i + 1])
    {
      assert Linked(chart, jumped + multiset{(t, target)}, trail[i], trail[i + 1]) && trail[i + 1] in chart.steps;
    }
  }

  /** What the code makes of such a jump: its step is written, or silently left out. */
  lemma JumpWritten(chart: Chart, x: Tables, jumped: Jumped, o: Pending, a: string, t: nat, target: string, s: string)
    requires t in chart.transitions && a in chart.transitions[t] && Leads(chart, jumped, a)
    requires s in chart.steps && TextMatched(s, target) && (target in chart.steps ==> target == s)
    requires SfcGenerator.Complete(chart, x, jumped + multiset{(t, target)}) && Ready(x, o)
    requires ComputeAll(o, x.initials).Ok?
    ensures StepWritten(ComputeAll(o, x.initials).value.program, s) <==> target == s || Leads(chart, jumped, s)
  {
    StepsWritten(chart, x, jumped + multiset{(t, target)}, o, s);
    JumpLands(chart, jumped, a, t, target, s);
  }

  /** A jump names its step as the generator's test for its existence understands it. */
  ghost predicate MeantLinked(chart: Chart, jumped: Jumped, a: string, b: string) {
    || Linked(chart, jumped, a, b)
    || exists t, target :: JumpsBehind(chart, jumped, a, t, target) && TextMatched(b, target)
  }

  /** There is a jump to the target behind a transition that follows the step. */
  ghost predicate JumpsBehind(chart: Chart, jumped: Jumped, a: string, t: nat, target: string) {
    t in chart.transitions && a in chart.transitions[t] && (t, target) in jumped
  }

  ghost predicate MeantTrail(chart: Chart, jumped: Jumped, trail: seq<string>) {
    && trail != [] && (forall i :: 0 <= i < |trail| ==> trail[i] in chart.steps) && chart.steps[trail[0]].initial
    && forall i :: 0 <= i < |trail| - 1 ==> MeantLinked(chart, jumped, trail[i], trail[i + 1])
  }

  /** Every jump that is reached is spelled as the step it matches, or that step is reached otherwise. */
  ghost predicate JumpsLand(chart: Chart, jumped: Jumped) {
    forall a, t, target, s ::
      Leads(chart, jumped, a) && JumpsBehind(chart, jumped, a, t, target) && s in chart.steps && TextMatched(s, target)
      ==> s == target || Leads(chart, jumped, s)
  }

  /** The chart leads to all steps to which it is meant to lead exactly when all jumps land. */
  lemma AllMeantReached(chart: Chart, jumped: Jumped)
    ensures (forall trail :: MeantTrail(chart, jumped, trail) ==> Leads(chart, jumped, trail[|trail| - 1]))
        <==> JumpsLand(chart, jumped)
  {
    if JumpsLand(chart, jumped) {
      forall trail | MeantTrail(chart, jumped, trail)
        ensures Leads(chart, jumped, trail[|trail| - 1])
      {
        MeantIsReached(chart, jumped, trail);
      }
    }
    forall a, t, target, s | Leads(chart, jumped, a) && JumpsBehind(chart, jumped, a, t, target)
                             && s in chart.steps && TextMatched(s, target)
      ensures exists trail :: MeantTrail(chart, jumped, trail) && trail[|trail| - 1] == s
    {
      MeantTrailTo(chart, jumped, a, t, target, s);
    }
  }

  lemma MeantTrailTo(chart: Chart, jumped: Jumped, a: string, t: nat, target: string, s: string)
    requires Leads(chart, jumped, a) && JumpsBehind(chart, jumped, a, t, target)
    requires s in chart.steps && TextMatched(s, target)
    ensures exists trail :: MeantTrail(chart, jumped, trail) && trail[|trail| - 1] == s
  {
    var trail :| ChartTrail(chart, jumped, trail) && trail[|trail| - 1] == a;
    var longer := trail + [s];
    forall i | 0 <= i < |longer| - 1
      ensures MeantLinked(chart, jumped, longer[i], longer[i + 1])
    {
      if i < |trail| - 1 {
        assert Linked(chart, jumped, trail[i], trail[i + 1]);
      }
    }
    assert MeantTrail(chart, jumped, longer);
  }

  lemma {:induction false} MeantIsReached(chart: Chart, jumped: Jumped, trail: seq<string>)
    requires JumpsLand(chart, jumped) && MeantTrail(chart, jumped, trail)
    ensures Leads(chart, jumped, trail[|trail| - 1])
    decreases |trail|
  {
    if |trail| == 1 {
      assert ChartTrail(chart, jumped, trail);
      return;
    }
    var n := |trail| - 1;
    var front := trail[..n];
    forall i | 0 <= i < |front| - 1
      ensures MeantLinked(chart, jumped, front[i], front[i + 1])
    {
      assert MeantLinked(chart, jumped, trail[i], trail[i + 1]);
    }
    MeantIsReached(chart, jumped, front);
    assert MeantLinked(chart, jumped, trail[n - 1], trail[n - 1 + 1]);
    if Linked(chart, jumped, trail[n - 1], trail[n]) {
      LinkedLeads(chart, jumped, trail[n - 1], trail[n]);
    }
  }

  // ----- A jump that is spelled otherwise than its step

  const SPELLED: Body := Body(map["Init" := StepDef(true, None), "Run" := StepDef(false, None)],
                                  map[1 := Some([StepSource("Init")])])

  /** Behind the transition after step Init, there is a jump to RUN. */
  const JUMPING: seq<SfcGenerator.Instance> :=
    [SfcGenerator.StepInstance("Init"), SfcGenerator.StepInstance("Run"), SfcGenerator.TransitionInstance(1),
     SfcGenerator.JumpInstance("RUN", Some([TransitionSource(1)]))]

  /** The generator raises nothing, and leaves step Run out. */
  lemma MisspelledJump(o: Pending)
    requires Ready(SfcGenerator.ProcessAll(Resolve(SPELLED), JUMPING), o)
    ensures SfcGenerator.InstancesOf(SPELLED, JUMPING)
    ensures forall i :: i in JUMPING ==> SfcGenerator.InstanceFine(SPELLED, i)
    ensures TextMatched("Run", "RUN")
    ensures RunLeftOut(o, SfcGenerator.ProcessAll(Resolve(SPELLED), JUMPING).initials)
  {
    RunMatches();
    JumpingFine();
    ChartOfJumping();
    SfcGenerator.TablesComplete(Resolve(SPELLED), JUMPING);
    OnlyInitWritten(Resolve(SPELLED), SfcGenerator.ProcessAll(Resolve(SPELLED), JUMPING), o);
  }

  ghost predicate RunLeftOut(o: Pending, initials: seq<string>) {
    var r := ComputeAll(o, initials);
    r.Ok? && StepWritten(r.value.program, "Init") && !StepWritten(r.value.program, "Run")
  }

  lemma OnlyInitWritten(chart: Chart, x: Tables, o: Pending)
    requires Jumping(chart) && SfcGenerator.Complete(chart, x, multiset{(1, "RUN")}) && Ready(x, o)
    ensures RunLeftOut(o, x.initials)
  {
    var jumped := multiset{(1 as nat, "RUN")};
    JumpingEmits(chart, x, o);
    StepsWritten(chart, x, jumped, o, "Init");
    StepsWritten(chart, x, jumped, o, "Run");
    assert ChartTrail(chart, jumped, ["Init"]);
    OnlyInit(chart);
  }

  lemma RunMatches()
    ensures TextMatched("Run", "RUN") && Upper("RUN") == "RUN"
  {
    var upper := Upper("Run");
    assert upper[0] == 'R' && upper[1] == 'U' && upper[2] == 'N';
    assert upper == "RUN" == Upper("RUN");
  }

  lemma JumpingFine()
    ensures SfcGenerator.InstancesOf(SPELLED, JUMPING)
    ensures forall i :: i in JUMPING ==> SfcGenerator.InstanceFine(SPELLED, i)
  {
    RunMatches();
    assert "Run" in SPELLED.steps;
    assert forall i :: i in JUMPING <==> i == JUMPING[0] || i == JUMPING[1] || i == JUMPING[2] || i == JUMPING[3];
  }

  /** The chart, its only link, and its only jump. */
  ghost predicate Jumping(chart: Chart) {
    && chart.steps == map["Init" := ChartStep(true, []), "Run" := ChartStep(false, [])]
    && chart.transitions == map[1 := ["Init"]]
  }

  lemma ChartOfJumping()
    ensures Jumping(Resolve(SPELLED)) && WellFormed(Resolve(SPELLED))
    ensures SfcGenerator.Instances(Resolve(SPELLED), JUMPING)
    ensures SfcGenerator.JumpLinks(JUMPING) == multiset{(1, "RUN")}
  {
    BeforeJump();
    BeforeTransition();
    JumpingResolved();
    JumpingWellFormed(Resolve(SPELLED));
    LinksOfJumping();
  }

  lemma BeforeJump()
    ensures TransitionsBefore(Some([TransitionSource(1)])) == [1]
  {
    assert TransitionElements(Some([TransitionSource(1)])) == [TransitionSource(1)];
    assert TransitionIds([TransitionSource(1)]) == [1] + TransitionIds([TransitionSource(1)][1..]);
  }

  lemma BeforeTransition()
    ensures StepsBefore(Some([StepSource("Init")])) == ["Init"]
  {
    assert StepElements([StepSource("Init")]) == [StepSource("Init")];
    assert StepNames([StepSource("Init")]) == ["Init"] + StepNames([StepSource("Init")][1..]);
  }

  lemma JumpingResolved()
    requires StepsBefore(Some([StepSource("Init")])) == ["Init"]
    ensures Jumping(Resolve(SPELLED))
  {
    assert TransitionsBefore(None) == [];
  }

  lemma JumpingWellFormed(chart: Chart)
    requires Jumping(chart) && TransitionsBefore(Some([TransitionSource(1)])) == [1]
    ensures WellFormed(chart) && SfcGenerator.Instances(chart, JUMPING)
  {
    assert JUMPING[0] in JUMPING && JUMPING[1] in JUMPING && JUMPING[2] in JUMPING;
  }

  lemma LinksOfJumping()
    requires TransitionsBefore(Some([TransitionSource(1)])) == [1]
    ensures SfcGenerator.JumpLinks(JUMPING) == multiset{(1, "RUN")}
  {
    OneMoreInstance([], JUMPING[0]);
    OneMoreInstance([] + [JUMPING[0]], JUMPING[1]);
    OneMoreInstance([] + [JUMPING[0]] + [JUMPING[1]], JUMPING[2]);
    OneMoreInstance([] + [JUMPING[0]] + [JUMPING[1]] + [JUMPING[2]], JUMPING[3]);
    assert JUMPING == [] + [JUMPING[0]] + [JUMPING[1]] + [JUMPING[2]] + [JUMPING[3]];
    assert [1 as nat][..0] == [];
    assert SfcGenerator.LinksOf([1], "RUN") == multiset{(1, "RUN")};
  }

  lemma OneMoreInstance(front: seq<SfcGenerator.Instance>, i: SfcGenerator.Instance)
    ensures SfcGenerator.JumpLinks(front + [i]) == SfcGenerator.JumpLinks(front) + SfcGenerator.InstanceLinks(i)
  {
    assert (front + [i])[..|front|] == front;
  }

  lemma JumpingEmits(chart: Chart, x: Tables, o: Pending)
    requires Jumping(chart) && SfcGenerator.Complete(chart, x, multiset{(1, "RUN")}) && Ready(x, o)
    ensures ComputeAll(o, x.initials).Ok?
  {
    EmissionExact(o, x.initials);
    assert FromOf(x, 1) == PredS(chart, 1) == ["Init"];
    assert InTo(x, 1, "RUN") == multiset(PredT(chart, "RUN"))[1] + multiset{(1 as nat, "RUN")}[(1, "RUN")] > 0;
    assert x.transitions[1].to != [];
  }

  lemma OnlyInit(chart: Chart)
    requires Jumping(chart)
    ensures !Leads(chart, multiset{(1, "RUN")}, "Run")
  {
    var jumped := multiset{(1 as nat, "RUN")};
    forall trail | ChartTrail(chart, jumped, trail)
      ensures trail[|trail| - 1] == "Init"
    {
      ClosedHoldsLed(chart, jumped, {"Init"}, trail);
    }
  }
}
