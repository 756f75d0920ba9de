/**
 The history of a model being edited: a bounded sequence of states with a cursor, and a mark at the state
 that was saved.
 */
module UndoHistory {
  import opened Results

  /** How many states are kept. */
  const LENGTH: nat := 20

  /**
   The states from the oldest to the newest and the position of the current one, which is -1 in a history that
   has no state yet. The mark counts positions like the cursor.
   */
  datatype History<T> = History(states: seq<T>, cursor: int, mark: Option<nat>) {
    ghost predicate Valid() {
      && |states| <= LENGTH
      && (if states == [] then cursor == -1 && (mark.Some? ==> mark.value == 0) else 0 <= cursor < |states|)
      && (mark.Some? ==> mark.value < LENGTH)
    }

    predicate CanUndo() {
      cursor > 0
    }

    predicate CanRedo() {
      cursor + 1 < |states|
    }

    /** What the buffer answers when asked whether the current state is saved. */
    predicate SaysSaved() {
      if states == [] then mark.None? else mark == Some(cursor)
    }
  }

  /** The states kept when another one is added: those up to the current one, at most nineteen of them. */
  function Kept<T>(h: History<T>): seq<T>
    requires h.Valid()
  {
    var past := h.states[..h.cursor + 1];
    if |past| < LENGTH then past else past[1..]
  }

  function Shifted(mark: Option<nat>): Option<nat> {
    if mark.None? || mark.value == 0 then None else Some(mark.value - 1)
  }

  /** A new state drops those that were undone, and the oldest one if the history is full. */
  function Edit<T>(h: History<T>, s: T): (r: History<T>)
    requires h.Valid()
    ensures r.Valid()
  {
    History(Kept(h) + [s], |Kept(h)|, if h.cursor + 1 < LENGTH then h.mark else Shifted(h.mark))
  }

  function Undo<T>(h: History<T>): (r: History<T>)
    requires h.Valid()
    ensures r.Valid()
  {
    if h.CanUndo() then h.(cursor := h.cursor - 1) else h
  }

  function Redo<T>(h: History<T>): (r: History<T>)
    requires h.Valid()
    ensures r.Valid()
  {
    if h.CanRedo() then h.(cursor := h.cursor + 1) else h
  }

  function Save<T>(h: History<T>): (r: History<T>)
    requires h.Valid()
    ensures r.Valid()
  {
    h.(mark := if h.states == [] then None else Some(h.cursor))
  }

  /** The states after an edit are the last twenty of those up to the current one and the new one. */
  lemma EditKeepsLatest<T>(h: History<T>, s: T)
    requires h.Valid()
    ensures var all := h.states[..h.cursor + 1] + [s];
            && Edit(h, s).states == (if |all| <= LENGTH then all else all[|all| - LENGTH..])
            && !Edit(h, s).CanRedo() && Edit(h, s).states[Edit(h, s).cursor] == s
  {
  }

  // ----- Undo and redo

  lemma UndoneIsRedone<T>(h: History<T>)
    requires h.Valid()
    ensures h.CanUndo() ==> Undo(h).CanRedo() && Redo(Undo(h)) == h
    ensures h.CanRedo() ==> Redo(h).CanUndo() && Undo(Redo(h)) == h
    ensures forall s :: h.states != [] ==>
              var r := Undo(Edit(h, s));
              Edit(h, s).CanUndo() && r.states[r.cursor] == h.states[h.cursor]
  {
  }

  // ----- Runs

  datatype Step<T> = DoEdit(state: T) | DoUndo | DoRedo | DoSave

  function Take<T>(h: History<T>, step: Step<T>): (r: History<T>)
    requires h.Valid()
    ensures r.Valid()
  {
    match step
    case DoEdit(s) => Edit(h, s)
    case DoUndo => Undo(h)
    case DoRedo => Redo(h)
    case DoSave => Save(h)
  }

  function Run<T>(h: History<T>, steps: seq<Step<T>>): (r: History<T>)
    requires h.Valid()
    ensures r.Valid()
  {
    if steps == [] then h else Take(Run(h, steps[..|steps| - 1]), steps[|steps| - 1])
  }

  lemma {:induction false} RunConcat<T>(h: History<T>, a: seq<Step<T>>, b: seq<Step<T>>)
    requires h.Valid()
    ensures Run(h, a + b) == Run(Run(h, a), b)
    decreases |b|
  {
    if b == [] {
      assert a + b == a;
    } else {
      assert (a + b)[..|a + b| - 1] == a + b[..|b| - 1];
      RunConcat(h, a, b[..|b| - 1]);
    }
  }

  // ----- The history shows the end of a log that forgets nothing

  /**
   States are only dropped from a log by an edit made before them; those before the floor cannot be loaded any
   more.
   */
  datatype Log<T> = Log(states: seq<T>, cursor: int, floor: nat) {
    ghost predicate Valid() {
      && floor <= |states| && floor - 1 <= cursor < |states|
      && (floor == |states| ==> states == []) && (states != [] ==> floor <= cursor)
    }
  }

  function Logged<T>(l: Log<T>, step: Step<T>): Log<T>
    requires l.Valid()
  {
    match step
    case DoEdit(s) =>
      var states := l.states[..l.cursor + 1] + [s];
      Log(states, l.cursor + 1, if |states| > l.floor + LENGTH then |states| - LENGTH else l.floor)
    case DoUndo => if l.cursor > l.floor then l.(cursor := l.cursor - 1) else l
    case DoRedo => if l.cursor + 1 < |l.states| then l.(cursor := l.cursor + 1) else l
    case DoSave => l
  }

  function LogOf<T>(l: Log<T>, steps: seq<Step<T>>): (r: Log<T>)
    requires l.Valid()
    ensures r.Valid()
  {
    if steps == [] then l else Logged(LogOf(l, steps[..|steps| - 1]), steps[|steps| - 1])
  }

  ghost predicate Shows<T>(h: History<T>, l: Log<T>)
    requires l.Valid()
  {
    h.states == l.states[l.floor..] && h.cursor == l.cursor - l.floor
  }

  lemma StepShowsLog<T>(h: History<T>, l: Log<T>, step: Step<T>)
    requires h.Valid() && l.Valid() && Shows(h, l)
    ensures Shows(Take(h, step), Logged(l, step))
  {
    if step.DoEdit? {
      assert h.states[..h.cursor + 1] == l.states[l.floor..l.cursor + 1];
    }
  }

  /** Over every run, the states are those of the log from its floor on, and the current state is the log's. */
  lemma {:induction false} RunShowsLog<T>(h: History<T>, steps: seq<Step<T>>)
    requires h.Valid()
    ensures Shows(Run(h, steps), LogOf(Log(h.states, h.cursor, 0), steps))
    decreases |steps|
  {
    if steps != [] {
      var n := |steps| - 1;
      RunShowsLog(h, steps[..n]);
      StepShowsLog(Run(h, steps[..n]), LogOf(Log(h.states, h.cursor, 0), steps[..n]), steps[n]);
    }
  }

  // ----- Saved or not

  /** The state saved last is among those that were undone, so that an edit drops it. */
  ghost predicate Drops<T>(h: History<T>, saved: Option<T>)
    requires h.Valid()
  {
    saved.Some? && saved.value in h.states[h.cursor + 1..]
  }

  /** The mark lies beyond the current state. */
  predicate Discards<T>(h: History<T>) {
    h.mark.Some? && h.mark.value > h.cursor
  }

  /** A state is in the history once; the mark is at the state saved last, or that state has left the history. */
  ghost predicate MarkRight<T>(h: History<T>, saved: Option<T>) {
    && h.Valid() && h.states != []
    && (forall i, j :: 0 <= i < j < |h.states| ==> h.states[i] != h.states[j])
    && (h.mark.Some? ==> h.mark.value < |h.states| && saved == Some(h.states[h.mark.value]))
    && (h.mark.None? && saved.Some? ==> saved.value !in h.states)
  }

  /** The state saved last, `saved` being the one saved before the run. */
  ghost function LastSaved<T>(h: History<T>, saved: Option<T>, steps: seq<Step<T>>): Option<T>
    requires h.Valid()
  {
    if steps == [] then saved
    else
      var n := |steps| - 1;
      var x := Run(h, steps[..n]);
      if steps[n].DoSave? && x.states != [] then Some(x.states[x.cursor]) else LastSaved(h, saved, steps[..n])
  }

  /** Each edit adds a state that is neither in the history nor the one saved last. */
  ghost predicate AllNew<T>(h: History<T>, saved: Option<T>, steps: seq<Step<T>>)
    requires h.Valid()
  {
    steps == [] ||
      var n := |steps| - 1;
      && AllNew(h, saved, steps[..n])
      && (steps[n].DoEdit? ==> NewTo(Run(h, steps[..n]), LastSaved(h, saved, steps[..n]), steps[n].state))
  }

  ghost predicate NewTo<T>(h: History<T>, saved: Option<T>, s: T) {
    s !in h.states && saved != Some(s)
  }

  /** No edit of the run drops the state saved last. */
  ghost predicate NothingDropped<T>(h: History<T>, saved: Option<T>, steps: seq<Step<T>>)
    requires h.Valid()
  {
    steps == [] ||
      var n := |steps| - 1;
      && NothingDropped(h, saved, steps[..n])
      && (steps[n].DoEdit? ==> !Drops(Run(h, steps[..n]), LastSaved(h, saved, steps[..n])))
  }

  /** The answer is yes exactly at the state saved last. */
  ghost predicate AnswersRight<T>(h: History<T>, saved: Option<T>) {
    h.Valid() && h.states != [] && (h.SaysSaved() <==> saved == Some(h.states[h.cursor]))
  }

  lemma RightMarkAnswers<T>(h: History<T>, saved: Option<T>)
    requires MarkRight(h, saved)
    ensures AnswersRight(h, saved)
    ensures Drops(h, saved) <==> Discards(h)
  {
    if h.mark.Some? && h.mark.value > h.cursor {
      assert h.states[h.cursor + 1..][h.mark.value - h.cursor - 1] == h.states[h.mark.value];
    }
  }

  lemma EditKeepsMark<T>(h: History<T>, saved: Option<T>, s: T)
    requires MarkRight(h, saved) && NewTo(h, saved, s) && !Drops(h, saved)
    ensures MarkRight(Edit(h, s), saved)
  {
    RightMarkAnswers(h, saved);
    var kept := Kept(h);
    var shift := if h.cursor + 1 < LENGTH then 0 else 1;
    assert |kept| == h.cursor + 1 - shift && forall i :: 0 <= i < |kept| ==> kept[i] == h.states[i + shift];
    if h.mark.Some? && h.mark.value < shift {
      assert forall i :: 0 <= i < |kept| ==> kept[i] != h.states[0];
    }
  }

  /**
   Over every run in which no edit drops the state saved last, the buffer answers that the current state is
   saved exactly when it is the state saved last.
   */
  lemma {:induction false} SavedExact<T>(h: History<T>, saved: Option<T>, steps: seq<Step<T>>)
    requires MarkRight(h, saved) && AllNew(h, saved, steps) && NothingDropped(h, saved, steps)
    ensures MarkRight(Run(h, steps), LastSaved(h, saved, steps))
    ensures AnswersRight(Run(h, steps), LastSaved(h, saved, steps))
    decreases |steps|
  {
    if steps != [] {
      var n := |steps| - 1;
      SavedExact(h, saved, steps[..n]);
      if steps[n].DoEdit? {
        EditKeepsMark(Run(h, steps[..n]), LastSaved(h, saved, steps[..n]), steps[n].state);
      }
    }
    RightMarkAnswers(Run(h, steps), LastSaved(h, saved, steps));
  }

  // ----- Versions: the same for states of any kind, which may recur

  /** A state with the number of the step that added it. */
  datatype Version<T> = Version(number: nat, state: T)

  function StampedStep<T>(step: Step<T>, number: nat): Step<Version<T>> {
    match step
    case DoEdit(s) => DoEdit(Version(number, s))
    case DoUndo => DoUndo
    case DoRedo => DoRedo
    case DoSave => DoSave
  }

  /** The steps with every edit's state made a version. */
  function Stamped<T>(steps: seq<Step<T>>): (r: seq<Step<Version<T>>>)
    ensures |r| == |steps|
  {
    if steps == [] then []
    else Stamped(steps[..|steps| - 1]) + [StampedStep(steps[|steps| - 1], |steps|)]
  }

  function StatesOf<T>(versions: seq<Version<T>>): (r: seq<T>)
    ensures |r| == |versions| && forall i :: 0 <= i < |r| ==> r[i] == versions[i].state
  {
    seq(|versions|, i requires 0 <= i < |versions| => versions[i].state)
  }

  function Forgotten<T>(h: History<Version<T>>): (r: History<T>)
    ensures h.Valid() <==> r.Valid()
  {
    History(StatesOf(h.states), h.cursor, h.mark)
  }

  /** A history of one state, saved or not. */
  function Start<T>(s: T, saved: bool): (r: History<T>)
    ensures r.Valid()
  {
    History([s], 0, if saved then Some(0) else None)
  }

  /** The history of versions behind a run. */
  function Versions<T>(s: T, saved: bool, steps: seq<Step<T>>): (r: History<Version<T>>)
    ensures r.Valid()
  {
    Run(Start(Version(0, s), saved), Stamped(steps))
  }

  function SavedAtStart<T>(s: T, saved: bool): Option<T> {
    if saved then Some(s) else None
  }

  /** The version saved last. */
  ghost function SavedVersion<T>(s: T, saved: bool, steps: seq<Step<T>>): Option<Version<T>> {
    LastSaved(Start(Version(0, s), saved), SavedAtStart(Version(0, s), saved), Stamped(steps))
  }

  /** One more step of a run on versions. */
  lemma OneMore<T>(s: T, saved: bool, steps: seq<Step<T>>, step: Step<T>)
    ensures Stamped(steps + [step]) == Stamped(steps) + [StampedStep(step, |steps| + 1)]
    ensures var v := Versions(s, saved, steps);
            && Versions(s, saved, steps + [step]) == Take(v, StampedStep(step, |steps| + 1))
            && SavedVersion(s, saved, steps + [step])
               == (if step.DoSave? && v.states != [] then Some(v.states[v.cursor]) else SavedVersion(s, saved, steps))
  {
    assert (steps + [step])[..|steps|] == steps;
    assert Stamped(steps + [step])[..|steps|] == Stamped(steps);
  }

  /** The run on states is the run on versions with the numbers forgotten. */
  lemma {:induction false} VersionsForgotten<T>(s: T, saved: bool, steps: seq<Step<T>>)
    ensures Run(Start(s, saved), steps) == Forgotten(Versions(s, saved, steps))
    decreases |steps|
  {
    if steps == [] {
      return;
    }
    var front, step := steps[..|steps| - 1], steps[|steps| - 1];
    VersionsForgotten(s, saved, front);
    assert steps == front + [step];
    OneMore(s, saved, front, step);
    StepForgets(Versions(s, saved, front), step, |steps|);
  }

  lemma StepForgets<T>(h: History<Version<T>>, step: Step<T>, number: nat)
    requires h.Valid()
    ensures Forgotten(Take(h, StampedStep(step, number))) == Take(Forgotten(h), step)
  {
    assert StatesOf(h.states[..h.cursor + 1]) == StatesOf(h.states)[..h.cursor + 1];
  }

  ghost predicate NumbersUpTo<T>(h: History<Version<T>>, saved: Option<Version<T>>, n: nat) {
    && (forall i :: 0 <= i < |h.states| ==> h.states[i].number <= n)
    && (saved.Some? ==> saved.value.number <= n)
  }

  ghost predicate NumberedInOrder<T>(steps: seq<Step<Version<T>>>) {
    forall i :: 0 <= i < |steps| && steps[i].DoEdit? ==> steps[i].state.number == i + 1
  }

  lemma {:induction false} StampedInOrder<T>(steps: seq<Step<T>>)
    ensures NumberedInOrder(Stamped(steps))
    decreases |steps|
  {
    if steps != [] {
      StampedInOrder(steps[..|steps| - 1]);
    }
  }

  /** Versions numbered in order are new whenever they are added. */
  lemma {:induction false} NumbersGrow<T>(h: History<Version<T>>, saved: Option<Version<T>>,
          steps: seq<Step<Version<T>>>)
    requires h.Valid() && NumbersUpTo(h, saved, 0) && NumberedInOrder(steps)
    ensures NumbersUpTo(Run(h, steps), LastSaved(h, saved, steps), |steps|)
    ensures AllNew(h, saved, steps)
    decreases |steps|
  {
    if steps == [] {
      return;
    }
    var n := |steps| - 1;
    NumbersGrow(h, saved, steps[..n]);
    StepNumbers(Run(h, steps[..n]), LastSaved(h, saved, steps[..n]), steps[n], n);
  }

  lemma StepNumbers<T>(h: History<Version<T>>, saved: Option<Version<T>>, step: Step<Version<T>>, n: nat)
    requires h.Valid() && NumbersUpTo(h, saved, n) && (step.DoEdit? ==> step.state.number == n + 1)
    ensures NumbersUpTo(Take(h, step), saved, n + 1)
    ensures h.states != [] ==> NumbersUpTo(Take(h, step), Some(h.states[h.cursor]), n + 1)
    ensures step.DoEdit? ==> NewTo(h, saved, step.state)
  {
  }

  /** No edit of the run drops the version saved last. */
  ghost predicate SavedKept<T>(s: T, saved: bool, steps: seq<Step<T>>) {
    NothingDropped(Start(Version(0, s), saved), SavedAtStart(Version(0, s), saved), Stamped(steps))
  }

  /** Over such runs, for any states, the answer is yes exactly at the version saved last. */
  lemma SavedOverRuns<T>(s: T, saved: bool, steps: seq<Step<T>>)
    requires SavedKept(s, saved, steps)
    ensures var v := Versions(s, saved, steps);
            && v.states != []
            && (Run(Start(s, saved), steps).SaysSaved() <==> SavedVersion(s, saved, steps) == Some(v.states[v.cursor]))
  {
    StampedInOrder(steps);
    NumbersGrow(Start(Version(0, s), saved), SavedAtStart(Version(0, s), saved), Stamped(steps));
    VersionsForgotten(s, saved, steps);
    SavedExact(Start(Version(0, s), saved), SavedAtStart(Version(0, s), saved), Stamped(steps));
  }

  // ----- An edit that drops the state saved last

  /** Whatever is done next, short of dropping the state saved last, the answer is right. */
  ghost predicate StaysRight<T(!new)>(h: History<T>, saved: Option<T>)
    requires h.Valid()
  {
    forall steps :: AllNew(h, saved, steps) && NothingDropped(h, saved, steps) ==>
      AnswersRight(Run(h, steps), LastSaved(h, saved, steps))
  }

  /** The highest number of a version so far. */
  ghost function Limit<T>(versions: seq<Version<T>>, saved: Option<Version<T>>): (r: nat)
    ensures forall i :: 0 <= i < |versions| ==> versions[i].number <= r
    ensures saved.Some? ==> saved.value.number <= r
  {
    if versions == [] then if saved.Some? then saved.value.number else 0
    else
      var r := Limit(versions[..|versions| - 1], saved);
      if versions[|versions| - 1].number <= r then r else versions[|versions| - 1].number
  }

  /** The history has room, its newest state is current, and the version saved last is gone from it. */
  ghost predicate SavedGone<T>(h: History<Version<T>>, saved: Option<Version<T>>, from: nat) {
    && h.Valid() && h.states != [] && h.cursor + 1 == |h.states|
    && saved.Some? && saved.value !in h.states && NumbersUpTo(h, saved, from)
  }

  lemma EditWhenGone<T>(h: History<Version<T>>, saved: Option<Version<T>>, v: Version<T>)
    requires v.number > 0 && SavedGone(h, saved, v.number - 1) && |h.states| < LENGTH
    ensures NewTo(h, saved, v) && !Drops(h, saved)
    ensures Edit(h, v) == History(h.states + [v], h.cursor + 1, h.mark) && SavedGone(Edit(h, v), saved, v.number)
  {
    assert h.states[..h.cursor + 1] == h.states;
  }

  ghost predicate OnlyEdits<T>(steps: seq<Step<T>>) {
    forall i :: 0 <= i < |steps| ==> steps[i].DoEdit?
  }

  /** While the version saved last is gone, further edits only move the cursor. */
  lemma {:induction false} EditsReach<T>(h: History<Version<T>>, saved: Option<Version<T>>, s: T, from: nat, n: nat)
    returns (steps: seq<Step<Version<T>>>)
    requires SavedGone(h, saved, from) && h.cursor + n < LENGTH
    ensures |steps| == n && OnlyEdits(steps)
    ensures AllNew(h, saved, steps) && NothingDropped(h, saved, steps) && LastSaved(h, saved, steps) == saved
    ensures SavedGone(Run(h, steps), saved, from + n)
    ensures Run(h, steps).cursor == h.cursor + n && Run(h, steps).mark == h.mark
    decreases n
  {
    if n == 0 {
      return [];
    }
    var front := EditsReach(h, saved, s, from, n - 1);
    steps := front + [DoEdit(Version(from + n, s))];
    assert steps[..n - 1] == front;
    EditWhenGone(Run(h, front), saved, Version(from + n, s));
  }

  /** The edit that drops the version saved last leaves the mark where it is. */
  lemma DroppingEdit<T>(h: History<Version<T>>, saved: Option<Version<T>>, s: Version<T>)
    requires MarkRight(h, saved) && NewTo(h, saved, s) && Discards(h)
    ensures var e := Edit(h, s);
            && SavedGone(e, saved, Limit(e.states, saved)) && e.mark == h.mark && e.cursor == h.cursor + 1
  {
    var e := Edit(h, s);
    assert e.states == h.states[..h.cursor + 1] + [s];
    assert NumbersUpTo(e, saved, Limit(e.states, saved));
  }

  lemma MarkedButGone<T>(h: History<Version<T>>, saved: Option<Version<T>>, from: nat)
    requires SavedGone(h, saved, from) && h.mark == Some(h.cursor)
    ensures h.SaysSaved() && !AnswersRight(h, saved)
  {
    assert h.states[h.cursor] in h.states;
  }

  /** Exactly as many edits as lie between the current state and the mark make the answer wrong. */
  lemma StaleMarkIsReached<T>(h: History<Version<T>>, saved: Option<Version<T>>, s: Version<T>)
    returns (steps: seq<Step<Version<T>>>)
    requires MarkRight(h, saved) && NewTo(h, saved, s) && Discards(h)
    ensures |steps| == h.mark.value - h.cursor - 1 && OnlyEdits(steps)
    ensures AllNew(Edit(h, s), saved, steps) && NothingDropped(Edit(h, s), saved, steps)
    ensures Run(Edit(h, s), steps).SaysSaved()
    ensures !AnswersRight(Run(Edit(h, s), steps), LastSaved(Edit(h, s), saved, steps))
  {
    var e := Edit(h, s);
    var from := Limit(e.states, saved);
    DroppingEdit(h, saved, s);
    steps := EditsReach(e, saved, s.state, from, h.mark.value - h.cursor - 1);
    MarkedButGone(Run(e, steps), saved, from + |steps|);
  }

  /** An edit leaves every later answer right exactly when the saved state is not among those that were undone. */
  lemma DiscardExact<T(!new)>(h: History<Version<T>>, saved: Option<Version<T>>, s: Version<T>)
    requires MarkRight(h, saved) && NewTo(h, saved, s)
    ensures StaysRight(Edit(h, s), saved) <==> !Discards(h)
  {
    if Discards(h) {
      var _ := StaleMarkIsReached(h, saved, s);
    } else {
      RightMarkAnswers(h, saved);
      EditKeepsMark(h, saved, s);
      forall steps | AllNew(Edit(h, s), saved, steps) && NothingDropped(Edit(h, s), saved, steps)
        ensures AnswersRight(Run(Edit(h, s), steps), LastSaved(Edit(h, s), saved, steps))
      {
        SavedExact(Edit(h, s), saved, steps);
      }
    }
  }

  /** Edit, save, undo, edit: the buffer now takes the second edit for the saved state. */
  lemma WrongAnswer<T>(s0: T, s1: T, s2: T)
    ensures var steps := [DoEdit(s1), DoSave, DoUndo];
            var h := Versions(s0, true, steps);
            var saved := SavedVersion(s0, true, steps);
            && MarkRight(h, saved) && Discards(h)
            && SavedVersion(s0, true, steps + [DoEdit(s2)]) == Some(Version(1, s1))
            && Run(Start(s0, true), steps + [DoEdit(s2)]).SaysSaved()
            && Run(Start(s0, true), steps + [DoEdit(s2)]).states == [s0, s2]
  {
    var edited: seq<Step<T>> := [] + [DoEdit(s1)];
    var marked := edited + [DoSave];
    var undone := marked + [DoUndo];
    var v0, v1, v2 := Version(0, s0), Version(1, s1), Version(4, s2);
    assert undone == [DoEdit(s1), DoSave, DoUndo];
    OneMore(s0, true, [], DoEdit(s1));
    EditedTwice(v0, v1, v2);
    assert Versions(s0, true, edited) == History([v0, v1], 1, Some(0));
    OneMore(s0, true, edited, DoSave);
    OneMore(s0, true, marked, DoUndo);
    OneMore(s0, true, undone, DoEdit(s2));
    VersionsForgotten(s0, true, undone + [DoEdit(s2)]);
    assert StatesOf([v0, v2]) == [s0, s2];
  }

  lemma EditedTwice<T>(v0: T, v1: T, v2: T)
    ensures Edit(Start(v0, true), v1) == History([v0, v1], 1, Some(0))
    ensures Edit(History([v0, v1], 0, Some(1)), v2) == History([v0, v2], 1, Some(1))
  {
  }
}
