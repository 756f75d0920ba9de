/**
 The queue of trace samples between the trace thread and the calls of a debugger, as a state machine: a step
 is what happens between two points at which the other side may run.
 */
module TraceQueue {
  import opened Sequences
  const TWO_32: int := 0x1_0000_0000

  /** A buffer allocated by the trace thread. The epoch says after how many purges it was fetched. */
  datatype Sample = Sample(id: nat, tick: int, epoch: nat)

  datatype Status = Empty | Stopped | Started | Broken

  /**
   Where the trace thread is: at the top of its loop, past the check of the status, holding a sample not queued
   yet, about to purge and end, or ended but not joined.
   */
  datatype Thread = Absent | Top | Fetching | Holding(sample: Sample) | Ending | Ended

  /** Where the debugger's call is: between calls, past the check of the token, or setting a new list of variables. */
  datatype Server = Idle | Reading | Purging | Launching

  /** The shared state, and what became of the samples so far. */
  datatype State = State(thread: Thread, server: Server, status: Status, token: nat, queue: seq<Sample>,
                         pushed: seq<Sample>, delivered: seq<Sample>, freed: seq<Sample>, created: nat, epoch: nat)

  const INITIAL: State := State(Absent, Idle, Empty, 0, [], [], [], [], 0, 0)

  datatype Step =
    | CheckStatus
    | Fetch(tick: int, answered: bool, memory: bool)
    | Push
    | PurgeAtEnd
    | SetStatus(status: Status)
    | Join
    | GetTraceVariables(token: nat)
    | Take(memory: bool)
    | SetTraceVariablesList(orders: nat, suspended: bool, registered: bool)
    | PurgeOld
    | Launch

  function Purged(x: State): State {
    x.(queue := [], freed := x.freed + x.queue)
  }

  /** The token is a 32-bit counter. */
  function NextToken(token: nat): nat {
    if token + 1 == TWO_32 then 0 else token + 1
  }

  /** A step that is not due leaves the state as it is. */
  function Perform(x: State, step: Step): State {
    match step
    case CheckStatus =>
      if x.thread == Top then x.(thread := if x.status == Started then Fetching else Ending) else x
    case Fetch(tick, answered, memory) =>
      if x.thread != Fetching then x
      else if answered && memory then x.(thread := Holding(Sample(x.created, tick, x.epoch)), created := x.created + 1)
      else x.(thread := Ending)
    case Push =>
      if !x.thread.Holding? then x
      else x.(thread := Top, queue := x.queue + [x.thread.sample], pushed := x.pushed + [x.thread.sample])
    case PurgeAtEnd =>
      if x.thread == Ending then Purged(x).(thread := Ended) else x
    case SetStatus(status) =>
      x.(status := status)
    case Join =>
      if x.thread == Ended then x.(thread := Absent) else x
    case GetTraceVariables(token) =>
      if x.server == Idle && token == x.token then x.(server := Reading) else x
    case Take(memory) =>
      if x.server != Reading then x
      else if x.queue != [] && !memory then x.(server := Idle)
      else x.(server := Idle, queue := [], delivered := x.delivered + x.queue)
    case SetTraceVariablesList(orders, suspended, registered) =>
      if x.server != Idle || x.status == Empty then x
      else x.(token := NextToken(x.token), server := if orders > 0 && suspended && registered then Purging else Idle)
    case PurgeOld =>
      if x.server == Purging then Purged(x).(server := Launching, epoch := x.epoch + 1) else x
    case Launch =>
      if x.server == Launching then x.(server := Idle, thread := if x.thread == Absent then Top else x.thread) else x
  }

  function Run(x: State, steps: seq<Step>): State {
    if steps == [] then x else Perform(Run(x, steps[..|steps| - 1]), steps[|steps| - 1])
  }

  // ----- Every buffer has one owner

  function Count(s: seq<Sample>, id: nat): nat {
    if s == [] then 0 else Count(s[..|s| - 1], id) + if s[|s| - 1].id == id then 1 else 0
  }

  lemma {:induction false} CountConcat(a: seq<Sample>, b: seq<Sample>, id: nat)
    ensures Count(a + b, id) == Count(a, id) + Count(b, id)
    decreases |b|
  {
    if b == [] {
      assert a + b == a;
    } else {
      assert (a + b)[..|a + b| - 1] == a + b[..|b| - 1];
      CountConcat(a, b[..|b| - 1], id);
    }
  }

  /** How often the buffer is with the thread, in the queue, delivered, or freed. */
  function Owners(x: State, id: nat): nat {
    (if x.thread.Holding? && x.thread.sample.id == id then 1 else 0)
    + Count(x.queue, id) + Count(x.delivered, id) + Count(x.freed, id)
  }

  /** A buffer that was created has one owner; others have none. */
  ghost predicate OwnedOnce(x: State, id: nat) {
    Owners(x, id) == if id < x.created then 1 else 0
  }

  lemma StepKeepsOwner(x: State, step: Step, id: nat)
    requires OwnedOnce(x, id)
    ensures OwnedOnce(Perform(x, step), id)
  {
    if step == Push {
      PushKeepsOwner(x, id);
    } else if step == PurgeAtEnd || step == PurgeOld {
      PurgeKeepsOwner(x, id);
    } else if step.Take? {
      TakeKeepsOwner(x, step.memory, id);
    } else {
      QueueUntouched(x, step);
    }
  }

  lemma QueueUntouched(x: State, step: Step)
    requires step != Push && step != PurgeAtEnd && step != PurgeOld && !step.Take?
    ensures var y := Perform(x, step); y.queue == x.queue && y.delivered == x.delivered && y.freed == x.freed
    ensures var y := Perform(x, step);
            if x.thread == Fetching && y.thread.Holding?
            then y.thread.sample.id == x.created && y.created == x.created + 1
            else
              && y.thread.Holding? == x.thread.Holding? && (x.thread.Holding? ==> y.thread == x.thread)
              && y.created == x.created
  {
  }

  lemma PushKeepsOwner(x: State, id: nat)
    ensures Owners(Perform(x, Push), id) == Owners(x, id)
  {
    if x.thread.Holding? {
      CountConcat(x.queue, [x.thread.sample], id);
      CountOne(x.thread.sample, id);
    }
  }

  lemma PurgeKeepsOwner(x: State, id: nat)
    ensures Owners(Purged(x), id) == Owners(x, id)
  {
    CountConcat(x.freed, x.queue, id);
    assert Count([], id) == 0;
  }

  lemma TakeKeepsOwner(x: State, memory: bool, id: nat)
    ensures Owners(Perform(x, Take(memory)), id) == Owners(x, id)
  {
    CountConcat(x.delivered, x.queue, id);
    assert Count([], id) == 0;
  }

  lemma CountOne(s: Sample, id: nat)
    ensures Count([s], id) == if s.id == id then 1 else 0
  {
    assert [s][..0] == [];
  }

  /** Over all interleavings, every buffer created has exactly one owner, and no other buffer has any. */
  lemma {:induction false} OneOwner(steps: seq<Step>, id: nat)
    ensures OwnedOnce(Run(INITIAL, steps), id)
    decreases |steps|
  {
    if steps != [] {
      OneOwner(steps[..|steps| - 1], id);
      StepKeepsOwner(Run(INITIAL, steps[..|steps| - 1]), steps[|steps| - 1], id);
    }
  }

  // ----- Delivered in order

  ghost predicate Subsequence(a: seq<Sample>, b: seq<Sample>)
  {
    if a == [] then true
    else if b == [] then false
    else Subsequence(a, b[..|b| - 1]) || (a[|a| - 1] == b[|b| - 1] && Subsequence(a[..|a| - 1], b[..|b| - 1]))
  }

  lemma {:induction false} SubsequenceExtends(a: seq<Sample>, b: seq<Sample>, more: seq<Sample>)
    requires Subsequence(a, b)
    ensures Subsequence(a, b + more) && Subsequence(a + more, b + more)
    decreases |more|
  {
    if more == [] {
      assert b + more == b && a + more == a;
    } else {
      var n := |more| - 1;
      SubsequenceExtends(a, b, more[..n]);
      assert (b + more)[..|b + more| - 1] == b + more[..n] && (a + more)[..|a + more| - 1] == a + more[..n];
    }
  }

  /** The queue is the end of what was pushed; what was delivered comes from before it, in order. */
  ghost predicate InOrder(x: State) {
    && |x.queue| <= |x.pushed| && x.pushed[|x.pushed| - |x.queue|..] == x.queue
    && Subsequence(x.delivered, x.pushed[..|x.pushed| - |x.queue|])
  }

  lemma StepKeepsOrder(x: State, step: Step)
    requires InOrder(x)
    ensures InOrder(Perform(x, step))
  {
    if step == Push && x.thread.Holding? {
      PushKeepsOrder(x);
    } else {
      NothingPushed(x, step);
      SameOrEmptied(x, Perform(x, step));
    }
  }

  lemma NothingPushed(x: State, step: Step)
    requires step == Push ==> !x.thread.Holding?
    ensures Drained(x, Perform(x, step))
  {
    NothingAppended(x.delivered);
  }

  /** The queue is as before, or it was delivered or freed. */
  ghost predicate Drained(x: State, y: State) {
    && y.pushed == x.pushed
    && (y.queue == x.queue || y.queue == [])
    && (y.delivered == x.delivered || (y.queue == [] && y.delivered == x.delivered + x.queue))
  }

  lemma SameOrEmptied(x: State, y: State)
    requires InOrder(x) && Drained(x, y)
    ensures InOrder(y)
  {
    if y.queue != x.queue || y.delivered != x.delivered {
      EmptiedInOrder(x, y);
    }
  }

  lemma PushKeepsOrder(x: State)
    requires InOrder(x) && x.thread.Holding?
    ensures InOrder(Perform(x, Push))
  {
    var y := Perform(x, Push);
    assert y.pushed[|y.pushed| - |y.queue|..] == x.pushed[|x.pushed| - |x.queue|..] + [x.thread.sample];
    assert y.pushed[..|y.pushed| - |y.queue|] == x.pushed[..|x.pushed| - |x.queue|];
  }

  /** Whether the queue is delivered or freed, what was delivered stays a subsequence of what was pushed. */
  lemma EmptiedKeepsOrder(x: State)
    requires InOrder(x)
    ensures Subsequence(x.delivered, x.pushed) && Subsequence(x.delivered + x.queue, x.pushed)
    ensures x.pushed[..|x.pushed|] == x.pushed && x.pushed[|x.pushed|..] == []
  {
    var before := x.pushed[..|x.pushed| - |x.queue|];
    SubsequenceExtends(x.delivered, before, x.queue);
    assert before + x.queue == x.pushed;
  }

  lemma EmptiedInOrder(x: State, y: State)
    requires InOrder(x) && y.queue == [] && y.pushed == x.pushed
    requires y.delivered == x.delivered || y.delivered == x.delivered + x.queue
    ensures InOrder(y)
  {
    EmptiedKeepsOrder(x);
  }

  /** Over all interleavings, the samples delivered are among those pushed, in the same order. */
  lemma {:induction false} DeliveredInOrder(steps: seq<Step>)
    ensures InOrder(Run(INITIAL, steps)) && Subsequence(Run(INITIAL, steps).delivered, Run(INITIAL, steps).pushed)
    decreases |steps|
  {
    if steps != [] {
      DeliveredInOrder(steps[..|steps| - 1]);
      StepKeepsOrder(Run(INITIAL, steps[..|steps| - 1]), steps[|steps| - 1]);
    }
    EmptiedKeepsOrder(Run(INITIAL, steps));
  }

  // ----- Nothing is lost between purges

  predicate IsPurge(step: Step) {
    step == PurgeAtEnd || step == PurgeOld
  }

  ghost predicate NoPurge(steps: seq<Step>) {
    forall i :: 0 <= i < |steps| ==> !IsPurge(steps[i])
  }

  /** What was delivered and what is queued, in the order in which it leaves. */
  function Stream(x: State): seq<Sample> {
    x.delivered + x.queue
  }

  /** Only a purge that is due, where the thread ends or for a new list, frees samples: all that are queued. */
  lemma FreedByPurge(x: State, step: Step)
    ensures var y := Perform(x, step);
            if (step == PurgeAtEnd && x.thread == Ending) || (step == PurgeOld && x.server == Purging)
            then y.freed == x.freed + x.queue && y.queue == []
            else y.freed == x.freed
    ensures IsPurge(step) ==> Perform(x, step).delivered == x.delivered && Perform(x, step).pushed == x.pushed
  {
  }

  /** A sample the thread holds stays with it until it is pushed, behind all that are queued. */
  lemma HeldIsPushed(x: State, step: Step)
    requires x.thread.Holding?
    ensures var y := Perform(x, step);
            if step == Push then y.queue == x.queue + [x.thread.sample] && y.pushed == x.pushed + [x.thread.sample]
            else y.thread == x.thread && y.pushed == x.pushed
  {
  }

  /** An accepted call delivers all that is queued, in order, if there is memory for it; else it leaves it queued. */
  lemma CallTakesAll(x: State, token: nat, memory: bool)
    requires x.server == Idle
    ensures var y := Perform(Perform(x, GetTraceVariables(token)), Take(memory));
            && y.server == Idle && Stream(y) == Stream(x)
            && if token == x.token && (memory || x.queue == [])
               then y.queue == [] && y.delivered == x.delivered + x.queue
               else y.queue == x.queue && y.delivered == x.delivered
  {
  }

  lemma StepLosesNothing(x: State, step: Step)
    requires !IsPurge(step)
    ensures var y := Perform(x, step);
            && x.pushed <= y.pushed && y.freed == x.freed
            && Stream(y) == Stream(x) + y.pushed[|x.pushed|..]
  {
    if step == Push && x.thread.Holding? {
      Associative(x.delivered, x.queue, [x.thread.sample]);
    } else {
      NothingAppended(Stream(x));
      NothingAppended(x.delivered + x.queue);
    }
  }

  /**
   Over every run without a purge, what is delivered and queued in the end is what was so at the start, followed by
   exactly what was pushed meanwhile; nothing is freed.
   */
  lemma {:induction false} NothingLost(x: State, steps: seq<Step>)
    requires NoPurge(steps)
    ensures var y := Run(x, steps);
            && x.pushed <= y.pushed && y.freed == x.freed
            && Stream(y) == Stream(x) + y.pushed[|x.pushed|..]
    decreases |steps|
  {
    if steps == [] {
      NothingAppended(Stream(x));
    } else {
      var n := |steps| - 1;
      var y := Run(x, steps[..n]);
      NothingLost(x, steps[..n]);
      StepLosesNothing(y, steps[n]);
      var z := Perform(y, steps[n]);
      Associative(Stream(x), y.pushed[|x.pushed|..], z.pushed[|y.pushed|..]);
      assert y.pushed[|x.pushed|..] + z.pushed[|y.pushed|..] == z.pushed[|x.pushed|..];
    }
  }

  // ----- When the thread works

  /** The side whose step it is has come to it. */
  ghost predicate Due(x: State, step: Step) {
    match step
    case CheckStatus => x.thread == Top
    case Fetch(_, _, _) => x.thread == Fetching
    case Push => x.thread.Holding?
    case PurgeAtEnd => x.thread == Ending
    case Join => x.thread == Ended
    case GetTraceVariables(token) => x.server == Idle && token == x.token
    case Take(_) => x.server == Reading
    case SetTraceVariablesList(_, _, _) => x.server == Idle && x.status != Empty
    case PurgeOld => x.server == Purging
    case Launch => x.server == Launching
    case SetStatus(_) => true
  }

  lemma NotDue(x: State, step: Step)
    requires !Due(x, step)
    ensures Perform(x, step) == x
  {
  }

  /** How many samples the thread may still push without looking at the status again. */
  function Pending(x: State): nat {
    if x.thread == Fetching || x.thread.Holding? then 1 else 0
  }

  /** While the PLC is not started, the thread pushes at most the one sample that it is about to fetch or holds. */
  lemma {:induction false} StopsSoon(x: State, steps: seq<Step>)
    requires x.status != Started && SetStatus(Started) !in steps
    ensures var y := Run(x, steps);
            && y.status != Started && |y.pushed| <= |x.pushed| + 1
            && |y.pushed| + Pending(y) <= |x.pushed| + Pending(x)
    decreases |steps|
  {
    if steps != [] {
      var n := |steps| - 1;
      assert steps == steps[..n] + [steps[n]];
      StopsSoon(x, steps[..n]);
    }
  }

  /** A thread that ends pushes nothing any more until it is joined. */
  lemma {:induction false} EndsForGood(x: State, steps: seq<Step>)
    requires (x.thread == Ending || x.thread == Ended) && Join !in steps
    ensures var y := Run(x, steps);
            (y.thread == Ending || y.thread == Ended) && y.pushed == x.pushed && y.created == x.created
    decreases |steps|
  {
    if steps != [] {
      var n := |steps| - 1;
      assert steps == steps[..n] + [steps[n]];
      EndsForGood(x, steps[..n]);
    }
  }

  /** So it does where the debug data cannot be had, or where there is no memory for them. */
  lemma FailedFetchEnds(x: State, tick: int, answered: bool, memory: bool, steps: seq<Step>)
    requires x.thread == Fetching && !(answered && memory) && Join !in steps
    ensures Run(Perform(x, Fetch(tick, answered, memory)), steps).pushed == x.pushed
  {
    EndsForGood(Perform(x, Fetch(tick, answered, memory)), steps);
  }

  /** Once the thread has ended and was joined, a new list starts it again, with nothing in the queue. */
  lemma Restarts(x: State)
    requires x.thread == Ending && x.server == Idle && x.status != Empty
    ensures var y := Perform(Perform(Perform(Perform(Perform(x, PurgeAtEnd), Join), LIST), PurgeOld), Launch);
            y.thread == Top && y.server == Idle && y.queue == [] && y.freed == x.freed + x.queue
  {
    NothingAppended(x.freed + x.queue);
  }

  /** An empty list, or one that is refused, purges nothing, although it makes the old token invalid. */
  lemma {:induction false} RefusedListPurgesNothing(x: State, list: Step, steps: seq<Step>)
    requires list.SetTraceVariablesList? && !(list.orders > 0 && list.suspended && list.registered)
    requires x.server == Idle && x.status != Empty
    requires PurgeAtEnd !in steps && forall i :: 0 <= i < |steps| ==> !steps[i].SetTraceVariablesList?
    ensures var y := Run(Perform(x, list), steps);
            && y.freed == x.freed && y.token == NextToken(x.token)
            && (y.server == Idle || y.server == Reading)
    decreases |steps|
  {
    if steps != [] {
      var n := |steps| - 1;
      assert steps == steps[..n] + [steps[n]];
      RefusedListPurgesNothing(x, list, steps[..n]);
    }
  }

  // ----- Nothing is left behind, and nothing is delivered for an old token

  /** Without a trace thread there is nothing in the queue. */
  ghost predicate NothingLeft(x: State) {
    x.thread == Absent || x.thread == Ended ==> x.queue == []
  }

  lemma {:induction false} NeverLeft(steps: seq<Step>)
    ensures NothingLeft(Run(INITIAL, steps))
    decreases |steps|
  {
    if steps != [] {
      NeverLeft(steps[..|steps| - 1]);
    }
  }

  /** The step sets a new list of variables. */
  predicate Renews(x: State, step: Step) {
    step.SetTraceVariablesList? && x.server == Idle && x.status != Empty
  }

  function Renewals(x: State, steps: seq<Step>): nat {
    if steps == [] then 0
    else
      Renewals(x, steps[..|steps| - 1])
      + if Renews(Run(x, steps[..|steps| - 1]), steps[|steps| - 1]) then 1 else 0
  }

  lemma StepToken(x: State, step: Step)
    ensures Perform(x, step).token == if Renews(x, step) then NextToken(x.token) else x.token
  {
  }

  function TokenAfter(token: nat, n: nat): nat {
    if n == 0 then token else NextToken(TokenAfter(token, n - 1))
  }

  lemma {:induction false} TokenCounts(x: State, steps: seq<Step>)
    ensures Run(x, steps).token == TokenAfter(x.token, Renewals(x, steps))
    decreases |steps|
  {
    if steps == [] {
      return;
    }
    var front, step := steps[..|steps| - 1], steps[|steps| - 1];
    TokenCounts(x, front);
    StepToken(Run(x, front), step);
  }

  /** The counter has gone around `n / TWO_32` times, and perhaps once more. */
  lemma {:induction false} TokenWraps(token: nat, n: nat) returns (wraps: nat)
    requires token < TWO_32
    ensures TokenAfter(token, n) < TWO_32 && token + n == TokenAfter(token, n) + TWO_32 * wraps
    decreases n
  {
    if n == 0 {
      return 0;
    }
    wraps := TokenWraps(token, n - 1);
    if TokenAfter(token, n - 1) + 1 == TWO_32 {
      wraps := wraps + 1;
    }
  }

  lemma SameTokenAgain(token: nat, n: nat)
    requires token < TWO_32
    ensures TokenAfter(token, n) == token <==> n % TWO_32 == 0
  {
    var wraps := TokenWraps(token, n);
    if n % TWO_32 == 0 {
      assert n == TWO_32 * (n / TWO_32);
    }
  }

  /** A token obtained earlier is accepted exactly when the lists set since then are a multiple of 2^32. */
  lemma OldTokenExact(x: State, steps: seq<Step>)
    requires x.token < TWO_32 && Run(x, steps).server == Idle
    ensures Perform(Run(x, steps), GetTraceVariables(x.token)).server == Reading <==> Renewals(x, steps) % TWO_32 == 0
  {
    TokenCounts(x, steps);
    SameTokenAgain(x.token, Renewals(x, steps));
  }

  /** Every call for samples in the run carries another token than the one that is current then. */
  ghost predicate NoneAccepted(x: State, steps: seq<Step>) {
    steps == [] ||
      var n := |steps| - 1;
      && NoneAccepted(x, steps[..n])
      && (steps[n].GetTraceVariables? ==> steps[n].token != Run(x, steps[..n]).token)
  }

  /** Samples are delivered only to a call whose token was checked. */
  lemma {:induction false} DeliveredAfterCheck(x: State, steps: seq<Step>)
    requires x.server != Reading && NoneAccepted(x, steps)
    ensures Run(x, steps).server != Reading && Run(x, steps).delivered == x.delivered
    decreases |steps|
  {
    if steps != [] {
      DeliveredAfterCheck(x, steps[..|steps| - 1]);
    }
  }

  /** All calls for samples in the run carry the token. */
  ghost predicate CallsWith(steps: seq<Step>, token: nat) {
    forall i :: 0 <= i < |steps| && steps[i].GetTraceVariables? ==> steps[i].token == token
  }

  /** A token that was current before the last renewal is refused until the counter has gone all the way around. */
  lemma {:induction false} OldTokenRefused(x: State, token: nat, steps: seq<Step>)
    requires token < TWO_32 && x.token == NextToken(token)
    requires CallsWith(steps, token) && Renewals(x, steps) + 1 < TWO_32
    ensures NoneAccepted(x, steps)
    decreases |steps|
  {
    if steps == [] {
      return;
    }
    var front := steps[..|steps| - 1];
    OldTokenRefused(x, token, front);
    TokenCounts(x, front);
    TokenShifts(token, Renewals(x, front));
    SameTokenAgain(token, Renewals(x, front) + 1);
  }

  lemma {:induction false} TokenShifts(token: nat, n: nat)
    ensures TokenAfter(NextToken(token), n) == TokenAfter(token, n + 1)
    decreases n
  {
    if n > 0 {
      TokenShifts(token, n - 1);
    }
  }

  /**
   After a new list has been set, a client that still uses the token it had gets nothing, whatever the trace
   thread and others do, until 2^32 lists have been set.
   */
  lemma OldClientGetsNothing(x: State, list: Step, steps: seq<Step>)
    requires x.token < TWO_32 && Renews(x, list)
    requires CallsWith(steps, x.token) && Renewals(Perform(x, list), steps) + 1 < TWO_32
    ensures Run(Perform(x, list), steps).delivered == x.delivered
  {
    OldTokenRefused(Perform(x, list), x.token, steps);
    DeliveredAfterCheck(Perform(x, list), steps);
  }

  // ----- Samples of an earlier list

  ghost predicate EpochsPast(x: State) {
    x.thread.Holding? ==> x.thread.sample.epoch <= x.epoch
  }

  lemma {:induction false} EpochsAlwaysPast(steps: seq<Step>)
    ensures EpochsPast(Run(INITIAL, steps))
    decreases |steps|
  {
    if steps != [] {
      EpochsAlwaysPast(steps[..|steps| - 1]);
    }
  }

  /**
   What the thread holds, and what is queued or was delivered after the first `n` samples, was fetched in the
   epoch.
   */
  ghost predicate AllOf(x: State, epoch: nat, n: nat) {
    && x.epoch == epoch && (x.thread.Holding? ==> x.thread.sample.epoch == epoch)
    && (forall i :: 0 <= i < |x.queue| ==> x.queue[i].epoch == epoch)
    && n <= |x.delivered| && forall i :: n <= i < |x.delivered| ==> x.delivered[i].epoch == epoch
  }

  lemma {:induction false} RunKeepsEpoch(x: State, steps: seq<Step>, n: nat)
    requires AllOf(x, x.epoch, n) && PurgeOld !in steps
    ensures AllOf(Run(x, steps), x.epoch, n)
    decreases |steps|
  {
    if steps != [] {
      assert steps == steps[..|steps| - 1] + [steps[|steps| - 1]];
      RunKeepsEpoch(x, steps[..|steps| - 1], n);
    }
  }

  /** From `x` on, until the next purge, only samples fetched in its epoch are delivered. */
  ghost predicate DeliversOwn(x: State) {
    forall steps :: PurgeOld !in steps ==> OwnSince(x, Run(x, steps))
  }

  ghost predicate OwnSince(x: State, y: State) {
    forall i :: |x.delivered| <= i < |y.delivered| ==> y.delivered[i].epoch == x.epoch
  }

  /**
   After the purge for a new list of variables, samples fetched for the old list may still be delivered exactly
   when the trace thread holds one at that moment.
   */
  lemma StaleSampleExact(x: State)
    requires x.server == Purging && EpochsPast(x)
    ensures DeliversOwn(Perform(x, PurgeOld)) <==> !x.thread.Holding?
  {
    var y := Perform(x, PurgeOld);
    if x.thread.Holding? {
      StaleSampleDelivered(x);
    } else {
      forall steps | PurgeOld !in steps
        ensures OwnSince(y, Run(y, steps))
      {
        RunKeepsEpoch(y, steps, |y.delivered|);
      }
    }
  }

  lemma StaleSampleDelivered(x: State)
    requires x.server == Purging && EpochsPast(x) && x.thread.Holding?
    ensures !DeliversOwn(Perform(x, PurgeOld))
  {
    var y := Perform(x, PurgeOld);
    var steps1 := [] + [Launch];
    var steps2 := steps1 + [Push];
    var steps3 := steps2 + [GetTraceVariables(x.token)];
    var steps4 := steps3 + [Take(true)];
    RunAppends(y, [], Launch);
    RunAppends(y, steps1, Push);
    RunAppends(y, steps2, GetTraceVariables(x.token));
    RunAppends(y, steps3, Take(true));
    StaleSampleTaken(x);
    assert Run(y, steps4).delivered[|y.delivered|] == x.thread.sample;
    assert PurgeOld !in steps4 && !OwnSince(y, Run(y, steps4));
  }

  lemma RunAppends(x: State, steps: seq<Step>, step: Step)
    ensures Run(x, steps + [step]) == Perform(Run(x, steps), step)
  {
    assert (steps + [step])[..|steps|] == steps;
  }

  const LIST: Step := SetTraceVariablesList(1, true, true)

  lemma FirstList()
    ensures Run(INITIAL, [SetStatus(Started)] + [LIST]) == State(Absent, Purging, Started, 1, [], [], [], [], 0, 0)
  {
    RunAppends(INITIAL, [], SetStatus(Started));
    assert [] + [SetStatus(Started)] == [SetStatus(Started)];
    RunAppends(INITIAL, [SetStatus(Started)], LIST);
  }

  lemma ThreadLaunched(listed: seq<Step>)
    requires Run(INITIAL, listed) == State(Absent, Purging, Started, 1, [], [], [], [], 0, 0)
    ensures Run(INITIAL, listed + [PurgeOld] + [Launch]) == State(Top, Idle, Started, 1, [], [], [], [], 0, 1)
  {
    RunAppends(INITIAL, listed, PurgeOld);
    RunAppends(INITIAL, listed + [PurgeOld], Launch);
  }

  lemma SampleHeld(tick: int, launched: seq<Step>)
    requires Run(INITIAL, launched) == State(Top, Idle, Started, 1, [], [], [], [], 0, 1)
    ensures Run(INITIAL, launched + [CheckStatus] + [Fetch(tick, true, true)] + [LIST])
         == State(Holding(Sample(0, tick, 1)), Purging, Started, 2, [], [], [], [], 1, 1)
  {
    RunAppends(INITIAL, launched, CheckStatus);
    RunAppends(INITIAL, launched + [CheckStatus], Fetch(tick, true, true));
    RunAppends(INITIAL, launched + [CheckStatus] + [Fetch(tick, true, true)], LIST);
  }

  /** It happens: a thread started for a first list holds a sample when a second list is set. */
  lemma StaleSampleHappens(tick: int)
    ensures var steps := [SetStatus(Started), LIST, PurgeOld, Launch, CheckStatus, Fetch(tick, true, true), LIST];
            var x := Run(INITIAL, steps);
            && x.server == Purging && EpochsPast(x) && x.thread.Holding?
            && !DeliversOwn(Perform(x, PurgeOld))
  {
    var listed := [SetStatus(Started)] + [LIST];
    var launched := listed + [PurgeOld] + [Launch];
    FirstList();
    ThreadLaunched(listed);
    SampleHeld(tick, launched);
    assert launched + [CheckStatus] + [Fetch(tick, true, true)] + [LIST]
        == [SetStatus(Started), LIST, PurgeOld, Launch, CheckStatus, Fetch(tick, true, true), LIST];
    StaleSampleDelivered(State(Holding(Sample(0, tick, 1)), Purging, Started, 2, [], [], [], [], 1, 1));
  }

  /** The held sample is queued after the purge and delivered to the next call. */
  lemma StaleSampleTaken(x: State)
    requires x.server == Purging && x.thread.Holding?
    ensures var y := Perform(x, PurgeOld);
            var z := Perform(Perform(Perform(Perform(y, Launch), Push), GetTraceVariables(x.token)), Take(true));
            z.delivered == y.delivered + [x.thread.sample]
  {
  }
}
