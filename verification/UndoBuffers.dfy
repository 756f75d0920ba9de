/**
 The undo buffer, a ring of twenty slots, and the controller of a project that uses it. The node of a code file
 does the same with a buffer that is always enabled.
 */
module UndoBuffers {
  import opened Sequences
  import opened Results
  import opened UndoHistory

  /** The slot that is `i` places after slot `base`. */
  function Slot(base: nat, i: nat): nat {
    if base + i < LENGTH then base + i else base + i - LENGTH
  }

  /** The next slot of the ring; the first one follows an index that is not set. */
  function Following(i: int): (r: nat)
    requires -1 <= i < LENGTH
    ensures r == if i + 1 < LENGTH then i + 1 else 0
  {
    (i + 1) % LENGTH
  }

  function Preceding(i: int): (r: nat)
    requires 0 <= i < LENGTH
    ensures r == if i > 0 then i - 1 else LENGTH - 1
  {
    (i - 1) % LENGTH
  }

  /** The ring holds the states from the lower limit on. */
  ghost predicate Holds<T>(ring: seq<Option<T>>, base: nat, states: seq<T>) {
    && |ring| == LENGTH && base < LENGTH && |states| <= LENGTH
    && forall i :: 0 <= i < |states| ==> ring[Slot(base, i)] == Some(states[i])
  }

  lemma AddedToRoom<T>(ring: seq<Option<T>>, base: nat, h: History<T>, s: T)
    requires h.Valid() && Holds(ring, base, h.states) && h.cursor + 1 < LENGTH
    ensures Holds(ring[Slot(base, h.cursor + 1) := Some(s)], base, Edit(h, s).states)
  {
  }

  lemma AddedToFull<T>(ring: seq<Option<T>>, base: nat, h: History<T>, s: T)
    requires h.Valid() && Holds(ring, base, h.states) && h.cursor + 1 == LENGTH
    ensures Holds(ring[base := Some(s)], Following(base), Edit(h, s).states)
  {
    var base' := Following(base);
    var states := h.states[1..] + [s];
    assert h.states[..LENGTH] == h.states;
    assert states == Edit(h, s).states;
    forall i | 0 <= i < LENGTH
      ensures ring[base := Some(s)][Slot(base', i)] == Some(states[i])
    {
      assert i < LENGTH - 1 ==> Slot(base', i) == Slot(base, i + 1) != base;
    }
  }

  /** The indexes are those of the cursor, the oldest state, the newest state and the mark. */
  ghost predicate Indexes<T>(current: int, min: int, max: int, last: int, h: History<T>) {
    && h.Valid() && -1 <= min < LENGTH
    && (if h.states == [] then current == min == max == -1
        else 0 <= min && current == Slot(min, h.cursor) && max == Slot(min, |h.states| - 1))
    && last == (if h.mark.None? then -1 else Slot(if min < 0 then 0 else min, h.mark.value))
  }

  /** The indexes after adding a state. */
  lemma IndexesMove<T>(current: int, min: int, max: int, last: int, h: History<T>, s: T)
    requires h.Valid() && Indexes(current, min, max, last, h)
    ensures -1 <= current < LENGTH
    ensures var full := min == Following(current);
            && (full <==> h.cursor + 1 == LENGTH)
            && Following(current) == (if full then min else Slot(if min < 0 then 0 else min, h.cursor + 1))
            && Indexes(Following(current), if full then Following(min) else if min < 0 then 0 else min,
                       Following(current), if full && last == min then -1 else last, Edit(h, s))
  {
    assert |Edit(h, s).states| == if h.cursor + 1 < LENGTH then h.cursor + 2 else LENGTH;
  }

  /** The ring with the state added in the slot after the current one. */
  lemma RingAdds<T>(ring: seq<Option<T>>, current: int, min: int, max: int, last: int, h: History<T>, s: T)
    requires h.Valid() && Indexes(current, min, max, last, h) && Holds(ring, if min < 0 then 0 else min, h.states)
    ensures -1 <= current < LENGTH
    ensures var base := if min < 0 then 0 else min;
            Holds(ring[Following(current) := Some(s)], if min == Following(current) then Following(min) else base,
                  Edit(h, s).states)
  {
    IndexesMove(current, min, max, last, h, s);
    if h.cursor + 1 < LENGTH {
      AddedToRoom(ring, if min < 0 then 0 else min, h, s);
    } else {
      AddedToFull(ring, min, h, s);
    }
  }

  class UndoBuffer<T> {
    const buffer: array<Option<T>>
    var currentIndex: int
    var minIndex: int
    var maxIndex: int
    var lastSave: int
    ghost var now: History<T>

    ghost function Base(): nat
      reads this
    {
      if minIndex < 0 then 0 else minIndex
    }

    /** The ring holds the history. */
    ghost predicate Valid()
      reads this, buffer
    {
      && buffer.Length == LENGTH && now.Valid()
      && Indexes(currentIndex, minIndex, maxIndex, lastSave, now)
      && Holds(buffer[..], Base(), now.states)
    }

    constructor (currentState: Option<T>, isSaved: bool)
      ensures Valid() && fresh(buffer)
      ensures now == History(if currentState.Some? then [currentState.value] else [],
                             if currentState.Some? then 0 else -1,
                             if isSaved then Some(0) else None)
    {
      currentIndex, minIndex, maxIndex := -1, -1, -1;
      if currentState.Some? {
        currentIndex, minIndex, maxIndex := 0, 0, 0;
      }
      buffer := new Option<T>[LENGTH](i => if i == 0 then currentState else None);
      lastSave := if isSaved then 0 else -1;
      now := History(if currentState.Some? then [currentState.value] else [],
                     if currentState.Some? then 0 else -1,
                     if isSaved then Some(0) else None);
    }

    method Buffering(currentState: T)
      requires Valid()
      modifies this, buffer
      ensures Valid() && now == Edit(old(now), currentState)
    {
      IndexesMove(currentIndex, minIndex, maxIndex, lastSave, now, currentState);
      RingAdds(buffer[..], currentIndex, minIndex, maxIndex, lastSave, now, currentState);
      currentIndex := Following(currentIndex);
      buffer[currentIndex] := Some(currentState);
      assert buffer[..] == old(buffer[..])[currentIndex := Some(currentState)];
      maxIndex := currentIndex;
      if minIndex == currentIndex {
        if lastSave == minIndex {
          lastSave := -1;
        }
        minIndex := Following(minIndex);
      }
      minIndex := if minIndex < 0 then 0 else minIndex;
      now := Edit(now, currentState);
    }

    method Previous() returns (r: Option<T>)
      requires Valid()
      modifies this`currentIndex, this`now
      ensures Valid() && now == Undo(old(now))
      ensures r == if old(now).CanUndo() then Some(now.states[now.cursor]) else None
    {
      if currentIndex != minIndex {
        currentIndex := Preceding(currentIndex);
        now := Undo(now);
        return buffer[currentIndex];
      }
      return None;
    }

    method Next() returns (r: Option<T>)
      requires Valid()
      modifies this`currentIndex, this`now
      ensures Valid() && now == Redo(old(now))
      ensures r == if old(now).CanRedo() then Some(now.states[now.cursor]) else None
    {
      if currentIndex != maxIndex {
        currentIndex := Following(currentIndex);
        now := Redo(now);
        return buffer[currentIndex];
      }
      return None;
    }

    method IsFirst() returns (r: bool)
      requires Valid()
      ensures r == !now.CanUndo()
    {
      return currentIndex == minIndex;
    }

    method IsLast() returns (r: bool)
      requires Valid()
      ensures r == !now.CanRedo()
    {
      return currentIndex == maxIndex;
    }

    method CurrentSaved()
      requires Valid()
      modifies this`lastSave, this`now
      ensures Valid() && now == Save(old(now))
    {
      lastSave := currentIndex;
      now := Save(now);
    }

    method IsCurrentSaved() returns (r: bool)
      requires Valid()
      ensures r == now.SaysSaved()
    {
      return lastSave == currentIndex;
    }
  }

  // ----- A model edited with an undo buffer

  /** The model, its history, and whether the model has changed since the last state was added. */
  datatype Editor<T> = Editor(model: T, history: History<T>, buffering: bool) {
    ghost predicate Valid() {
      history.Valid()
    }

    predicate MayUndo() {
      history.CanUndo() || buffering
    }

    predicate MayRedo() {
      history.CanRedo()
    }

    predicate IsSaved() {
      history.SaysSaved() && !buffering
    }
  }

  function Flushed<T>(e: Editor<T>): (r: Editor<T>)
    requires e.Valid()
    ensures r.Valid()
  {
    if e.buffering then Editor(e.model, Edit(e.history, e.model), false) else e
  }

  function Marked<T>(e: Editor<T>): (r: Editor<T>)
    requires e.Valid()
    ensures r.Valid()
  {
    Flushed(e).(history := Save(Flushed(e).history))
  }

  /** There is nothing to load when the history does not go back further. */
  function Undone<T>(e: Editor<T>): (r: Option<Editor<T>>)
    requires e.Valid()
    ensures r.Some? ==> r.value.Valid()
  {
    var f := Flushed(e);
    if !f.history.CanUndo() then None
    else Some(Editor(f.history.states[f.history.cursor - 1], Undo(f.history), false))
  }

  /** Undoing first adds a pending edit, and keeps it if there is nothing to load. */
  function AfterUndo<T>(e: Editor<T>): (r: Editor<T>)
    requires e.Valid()
    ensures r.Valid()
  {
    if Undone(e).Some? then Undone(e).value else Flushed(e)
  }

  lemma FlushedFirst<T>(e: Editor<T>)
    requires e.Valid()
    ensures !Flushed(e).buffering && Undone(Flushed(e)) == Undone(e) && AfterUndo(Flushed(e)) == AfterUndo(e)
  {
  }

  function Redone<T>(e: Editor<T>): (r: Option<Editor<T>>)
    requires e.Valid()
    ensures r.Some? ==> r.value.Valid()
  {
    if !e.history.CanRedo() then None
    else Some(Editor(e.history.states[e.history.cursor + 1], Redo(e.history), e.buffering))
  }

  /**
   Undo and redo are offered exactly when they load a state; undoing a pending edit loads the state before it, and
   redoing brings it back.
   */
  lemma OfferedIsLoaded<T>(e: Editor<T>)
    requires e.Valid() && e.history.states != []
    ensures e.MayUndo() <==> Undone(e).Some?
    ensures e.MayRedo() <==> Redone(e).Some?
    ensures e.buffering ==> Undone(e).value.model == e.history.states[e.history.cursor]
    ensures e.buffering ==> Redone(Undone(e).value).Some? && Redone(Undone(e).value).value.model == e.model
    ensures !e.buffering && e.MayUndo() ==>
              Redone(Undone(e).value).Some? && Redone(Undone(e).value).value.history == e.history
  {
  }

  datatype Action<T> = Change(model: T) | EndBuffering | MarkAsSaved | LoadPrevious | LoadNext

  function Act<T>(e: Editor<T>, action: Action<T>): (r: Editor<T>)
    requires e.Valid()
    ensures r.Valid()
  {
    match action
    case Change(model) => Editor(model, e.history, true)
    case EndBuffering => Flushed(e)
    case MarkAsSaved => Marked(e)
    case LoadPrevious => AfterUndo(e)
    case LoadNext => if Redone(e).Some? then Redone(e).value else e
  }

  function Session<T>(e: Editor<T>, actions: seq<Action<T>>): (r: Editor<T>)
    requires e.Valid()
    ensures r.Valid()
  {
    if actions == [] then e else Act(Session(e, actions[..|actions| - 1]), actions[|actions| - 1])
  }

  function FlushSteps<T>(e: Editor<T>): seq<Step<T>> {
    if e.buffering then [DoEdit(e.model)] else []
  }

  /** What an action does to the history. */
  function StepsOf<T>(e: Editor<T>, action: Action<T>): seq<Step<T>> {
    match action
    case Change(_) => []
    case EndBuffering => FlushSteps(e)
    case MarkAsSaved => FlushSteps(e) + [DoSave]
    case LoadPrevious => FlushSteps(e) + [DoUndo]
    case LoadNext => [DoRedo]
  }

  function AllSteps<T>(e: Editor<T>, actions: seq<Action<T>>): seq<Step<T>>
    requires e.Valid()
  {
    if actions == [] then []
    else
      var front := actions[..|actions| - 1];
      AllSteps(e, front) + StepsOf(Session(e, front), actions[|actions| - 1])
  }

  lemma ActRuns<T>(e: Editor<T>, action: Action<T>)
    requires e.Valid()
    ensures Act(e, action).history == Run(e.history, StepsOf(e, action))
  {
    var steps := StepsOf(e, action);
    if |steps| > 0 {
      RunOne(e.history, steps[0]);
      if |steps| > 1 {
        assert steps == [steps[0]] + [steps[1]];
        RunConcat(e.history, [steps[0]], [steps[1]]);
        RunOne(Run(e.history, [steps[0]]), steps[1]);
      }
    }
  }

  lemma RunOne<T>(h: History<T>, step: Step<T>)
    requires h.Valid()
    ensures Run(h, [step]) == Take(h, step)
  {
    assert [step][..0] == [];
  }

  /** With nothing pending, the model is the current state of the history. */
  ghost predicate InStep<T>(e: Editor<T>) {
    && e.Valid() && e.history.states != []
    && (!e.buffering ==> e.model == e.history.states[e.history.cursor])
  }

  lemma ActInStep<T>(e: Editor<T>, action: Action<T>)
    requires InStep(e)
    ensures InStep(Act(e, action))
  {
  }

  /** A session is a run of the history. */
  lemma {:induction false} SessionRuns<T>(e: Editor<T>, actions: seq<Action<T>>)
    requires InStep(e)
    ensures InStep(Session(e, actions))
    ensures Session(e, actions).history == Run(e.history, AllSteps(e, actions))
    decreases |actions|
  {
    if actions == [] {
      return;
    }
    var front, action := actions[..|actions| - 1], actions[|actions| - 1];
    SessionRuns(e, front);
    SessionRunsOn(e, Session(e, front), AllSteps(e, front), action);
    assert Session(e, actions) == Act(Session(e, front), action);
    assert AllSteps(e, actions) == AllSteps(e, front) + StepsOf(Session(e, front), action);
  }

  lemma SessionRunsOn<T>(e: Editor<T>, x: Editor<T>, before: seq<Step<T>>, action: Action<T>)
    requires e.Valid() && InStep(x) && x.history == Run(e.history, before)
    ensures InStep(Act(x, action)) && Act(x, action).history == Run(e.history, before + StepsOf(x, action))
  {
    ActInStep(x, action);
    ActRuns(x, action);
    RunConcat(e.history, before, StepsOf(x, action));
  }

  /** A model just loaded or made, saved or not. */
  function Opened<T>(model: T, saved: bool): (r: Editor<T>)
    ensures r.Valid()
  {
    Editor(model, Start(model, saved), false)
  }

  /** The model when it was last marked as saved. */
  ghost function SavedModel<T>(model: T, saved: bool, actions: seq<Action<T>>): Option<T> {
    if actions == [] then SavedAtStart(model, saved)
    else
      var n := |actions| - 1;
      if actions[n].MarkAsSaved? then Some(Session(Opened(model, saved), actions[..n]).model)
      else SavedModel(model, saved, actions[..n])
  }

  ghost predicate SavesState<T>(v: Option<Version<T>>, model: Option<T>) {
    v.Some? == model.Some? && (v.Some? ==> v.value.state == model.value)
  }

  /** The version saved last holds the model that was last marked as saved. */
  lemma {:induction false} SavedVersionHoldsModel<T>(model: T, saved: bool, actions: seq<Action<T>>)
    ensures SavesState(SavedVersion(model, saved, AllSteps(Opened(model, saved), actions)),
                       SavedModel(model, saved, actions))
    decreases |actions|
  {
    if actions == [] {
      return;
    }
    var n := |actions| - 1;
    var e := Opened(model, saved);
    var x, before := Session(e, actions[..n]), AllSteps(e, actions[..n]);
    SavedVersionHoldsModel(model, saved, actions[..n]);
    SessionRuns(e, actions[..n]);
    ActionSaves(model, saved, before, x, actions[n]);
  }

  /** The run so far has led to the history. */
  ghost predicate After<T>(model: T, saved: bool, steps: seq<Step<T>>, e: Editor<T>) {
    InStep(e) && e.history == Run(Start(model, saved), steps)
  }

  lemma FlushSaves<T>(model: T, saved: bool, before: seq<Step<T>>, x: Editor<T>)
    requires After(model, saved, before, x)
    ensures var steps := before + FlushSteps(x);
            && After(model, saved, steps, Flushed(x))
            && SavedVersion(model, saved, steps) == SavedVersion(model, saved, before)
  {
    if x.buffering {
      OneMore(model, saved, before, DoEdit(x.model));
      RunConcat(Start(model, saved), before, [DoEdit(x.model)]);
      RunOne(x.history, DoEdit(x.model));
    } else {
      assert before + FlushSteps(x) == before;
    }
  }

  lemma MarkSaves<T>(model: T, saved: bool, steps: seq<Step<T>>, x: Editor<T>)
    requires After(model, saved, steps, x) && !x.buffering
    ensures var v := SavedVersion(model, saved, steps + [DoSave]); v.Some? && v.value.state == x.model
  {
    VersionsForgotten(model, saved, steps);
    OneMore(model, saved, steps, DoSave);
  }

  lemma ActionSaves<T>(model: T, saved: bool, before: seq<Step<T>>, x: Editor<T>, action: Action<T>)
    requires After(model, saved, before, x)
    ensures var v := SavedVersion(model, saved, before + StepsOf(x, action));
            if action.MarkAsSaved? then v.Some? && v.value.state == x.model else v == SavedVersion(model, saved, before)
  {
    var flushed := before + FlushSteps(x);
    FlushSaves(model, saved, before, x);
    match action
    case Change(_) =>
      NothingAppended(before);
    case EndBuffering =>
    case MarkAsSaved =>
      MarkSaves(model, saved, flushed, Flushed(x));
      Associative(before, FlushSteps(x), [DoSave]);
    case LoadPrevious =>
      OneMore(model, saved, flushed, DoUndo);
      Associative(before, FlushSteps(x), [DoUndo]);
    case LoadNext =>
      OneMore(model, saved, before, DoRedo);
  }

  /** No pending change of the session is added while the version saved last is among those that were undone. */
  ghost predicate Gentle<T>(model: T, saved: bool, actions: seq<Action<T>>) {
    SavedKept(model, saved, AllSteps(Opened(model, saved), actions))
  }

  /**
   Over such sessions the model is reported as saved exactly when nothing is pending and the current version is
   the one saved last; the model is then the one that was last marked as saved.
   */
  lemma SavedOverSessions<T>(model: T, saved: bool, actions: seq<Action<T>>)
    requires Gentle(model, saved, actions)
    ensures var e := Session(Opened(model, saved), actions);
            var steps := AllSteps(Opened(model, saved), actions);
            var v := Versions(model, saved, steps);
            && v.states != []
            && (e.IsSaved() <==> !e.buffering && SavedVersion(model, saved, steps) == Some(v.states[v.cursor]))
            && (e.IsSaved() ==> SavedModel(model, saved, actions) == Some(e.model))
  {
    var e := Opened(model, saved);
    var steps := AllSteps(e, actions);
    SessionRuns(e, actions);
    SavedOverRuns(model, saved, steps);
    SavedVersionHoldsModel(model, saved, actions);
    VersionsForgotten(model, saved, steps);
  }

  // ----- The controller

  /** The controller of a project. Without a buffer it only remembers whether the project is saved. */
  class PLCControler<T> {
    var projectBuffer: UndoBuffer?<T>
    var buffering: bool
    var projectSaved: bool
    var project: T

    ghost function Repr(): set<object>
      reads this
    {
      if projectBuffer == null then {this} else {this, projectBuffer, projectBuffer.buffer}
    }

    ghost predicate Valid()
      reads this, Repr()
    {
      projectBuffer != null ==> projectBuffer.Valid()
    }

    ghost function Now(): Editor<T>
      reads this, Repr()
      requires projectBuffer != null
    {
      Editor(project, projectBuffer.now, buffering)
    }

    constructor (project: T, enabled: bool, saved: bool)
      ensures Valid() && fresh(Repr()) && (projectBuffer != null <==> enabled) && projectSaved == saved
      ensures enabled ==> Now() == Editor(project, History([project], 0, if saved then Some(0) else None), false)
    {
      this.project, buffering, projectSaved, projectBuffer := project, false, saved, null;
      new;
      if enabled {
        projectBuffer := new UndoBuffer<T>(Some(project), saved);
      }
    }

    method StartBuffering()
      requires Valid()
      modifies this
      ensures Valid() && projectBuffer == old(projectBuffer)
      ensures projectBuffer != null ==> Now() == old(Now()).(buffering := true)
      ensures projectBuffer == null ==> !projectSaved && project == old(project)
    {
      if projectBuffer != null {
        buffering := true;
      } else {
        projectSaved := false;
      }
    }

    method EndBuffering()
      requires Valid()
      modifies this, Repr()
      ensures Valid() && projectBuffer == old(projectBuffer) && project == old(project)
      ensures projectSaved == old(projectSaved)
      ensures projectBuffer != null ==> Now() == Flushed(old(Now()))
    {
      if projectBuffer != null && buffering {
        projectBuffer.Buffering(project);
        buffering := false;
      }
    }

    method MarkProjectAsSaved()
      requires Valid()
      modifies this, Repr()
      ensures Valid() && projectBuffer == old(projectBuffer)
      ensures projectBuffer != null ==> Now() == Marked(old(Now()))
      ensures projectBuffer == null ==> projectSaved
    {
      EndBuffering();
      if projectBuffer != null {
        projectBuffer.CurrentSaved();
      } else {
        projectSaved := true;
      }
    }

    method ProjectIsSaved() returns (r: bool)
      requires Valid()
      ensures r == if projectBuffer != null then Now().IsSaved() else projectSaved
    {
      if projectBuffer == null {
        return projectSaved;
      }
      r := projectBuffer.IsCurrentSaved();
      r := r && !buffering;
    }

    /** Loading fails if there is no state to load. */
    method LoadPrevious() returns (ok: bool)
      requires Valid()
      modifies this, Repr()
      ensures Valid() && projectBuffer == old(projectBuffer)
      ensures projectBuffer == null ==> ok && project == old(project)
      ensures projectBuffer != null ==> ok == Undone(old(Now())).Some? && Now() == AfterUndo(old(Now()))
    {
      EndBuffering();
      if projectBuffer == null {
        return true;
      }
      FlushedFirst(old(Now()));
      ok := StepBack();
    }

    /** Goes back to the previous state, nothing being pending. */
    method StepBack() returns (ok: bool)
      requires Valid() && projectBuffer != null && !buffering
      modifies this, Repr()
      ensures Valid() && projectBuffer == old(projectBuffer) && projectSaved == old(projectSaved)
      ensures ok == Undone(old(Now())).Some?
      ensures Now() == AfterUndo(old(Now()))
    {
      var state := projectBuffer.Previous();
      if state.None? {
        return false;
      }
      project := state.value;
      return true;
    }

    method LoadNext() returns (ok: bool)
      requires Valid()
      modifies this, Repr()
      ensures Valid() && projectBuffer == old(projectBuffer)
      ensures projectBuffer == null ==> ok && project == old(project)
      ensures projectBuffer != null ==> ok == Redone(old(Now())).Some? && Now() == Act(old(Now()), Action.LoadNext)
    {
      if projectBuffer == null {
        return true;
      }
      var state := projectBuffer.Next();
      if state.None? {
        return false;
      }
      project := state.value;
      return true;
    }

    method GetBufferState() returns (undo: bool, redo: bool)
      requires Valid()
      ensures projectBuffer == null ==> !undo && !redo
      ensures projectBuffer != null ==> undo == Now().MayUndo() && redo == Now().MayRedo()
    {
      if projectBuffer == null {
        return false, false;
      }
      var first := projectBuffer.IsFirst();
      first := first && !buffering;
      var last := projectBuffer.IsLast();
      return !first, !last;
    }
  }
}
