/**
 * The edit debouncer of the extension: minor changes to the same field are
 * held back and coalesced, so that typing in one text box rewrites the
 * dialogue document once, after the edit delay, with the latest scenes.
 *
 * Time is not modelled: the pending timer is a flag, and its expiry is the
 * operation `TimerFires`. Each document rewrite (`applyChange`) is recorded in
 * the `writes` log, in the order the rewrites are requested.
 */
module Debouncer {
  import opened Wrappers
  import opened Scenes
  import opened StoreMessages

  datatype DebouncerState = DebouncerState(
    pendingChangeId: Option<string>,
    pendingDialogues: Option<seq<Scene>>,
    timerArmed: bool,
    writes: seq<seq<Scene>>)

  /** A change is pending exactly when a change id is held, and exactly then a timer runs. */
  ghost predicate Coherent(st: DebouncerState) {
    && (st.pendingChangeId.Some? <==> st.pendingDialogues.Some?)
    && (st.pendingDialogues.Some? <==> st.timerArmed)
  }

  const Idle := DebouncerState(None, None, false, [])

  /** `clear()`: drop what is pending and cancel the timer, writing nothing. */
  function Cleared(st: DebouncerState): DebouncerState {
    st.(pendingChangeId := None, pendingDialogues := None, timerArmed := false)
  }

  /** `flushChanges()`: clear, then write what was pending, if anything. */
  function Flushed(st: DebouncerState): DebouncerState {
    var cleared := Cleared(st);
    match st.pendingDialogues
    case Some(dialogues) => cleared.(writes := cleared.writes + [dialogues])
    case None => cleared
  }

  /** Hold `dialogues` under `changeId` and start a timer. */
  function Hold(st: DebouncerState, changeId: string, dialogues: seq<Scene>): DebouncerState {
    st.(pendingChangeId := Some(changeId), pendingDialogues := Some(dialogues), timerArmed := true)
  }

  /** `enqueueChange(newDialogues, updateInfo)` with the configured edit delay `delay`. */
  function Enqueued(st: DebouncerState, dialogues: seq<Scene>, info: StoreSceneUpdateInfo, delay: int): DebouncerState {
    if delay == 0 || info.MajorChange? then
      var cleared := Cleared(st);
      cleared.(writes := cleared.writes + [dialogues])
    else if info.NoChange? then st
    else if st.pendingChangeId == Some(info.changeId) || st.pendingChangeId.None? then
      Hold(Cleared(st), info.changeId, dialogues)
    else
      Hold(Flushed(st), info.changeId, dialogues)
  }

  /** The timer callback: forget the timer, then flush. */
  function Fired(st: DebouncerState): DebouncerState {
    Flushed(st.(timerArmed := false))
  }

  // ------------------------------------------------------------ properties

  lemma EnqueueKeepsCoherent(st: DebouncerState, dialogues: seq<Scene>, info: StoreSceneUpdateInfo, delay: int)
    requires Coherent(st)
    ensures Coherent(Enqueued(st, dialogues, info, delay))
  {
  }

  /** Nothing is pending after a flush, a clear or the timer firing. */
  lemma FlushClearFireLeaveNothingPending(st: DebouncerState)
    ensures Coherent(Flushed(st)) && Flushed(st).pendingDialogues.None?
    ensures Coherent(Cleared(st)) && Cleared(st).pendingDialogues.None?
    ensures Coherent(Fired(st)) && Fired(st).pendingDialogues.None?
  {
  }

  /** A flush writes exactly the pending scenes, once; a second flush writes nothing. */
  lemma FlushWritesPendingOnce(st: DebouncerState)
    ensures st.pendingDialogues.Some? ==> Flushed(st).writes == st.writes + [st.pendingDialogues.value]
    ensures st.pendingDialogues.None? ==> Flushed(st).writes == st.writes
    ensures Flushed(Flushed(st)) == Flushed(st)
  {
  }

  /** A clear writes nothing, and discards what was pending. */
  lemma ClearWritesNothing(st: DebouncerState)
    ensures Cleared(st).writes == st.writes
    ensures Flushed(Cleared(st)) == Cleared(st)
  {
  }

  /** A major change, or any change when the delay is zero, is written at once and leaves nothing pending. */
  lemma MajorChangeWritesAtOnce(st: DebouncerState, dialogues: seq<Scene>, info: StoreSceneUpdateInfo, delay: int)
    requires info.MajorChange? || delay == 0
    ensures var r := Enqueued(st, dialogues, info, delay);
      r.writes == st.writes + [dialogues] && r.pendingDialogues.None? && !r.timerArmed
  {
  }

  /** With a non-zero delay, a change of no size is ignored entirely. */
  lemma NoChangeIsIgnored(st: DebouncerState, dialogues: seq<Scene>, delay: int)
    requires delay != 0
    ensures Enqueued(st, dialogues, NoChange, delay) == st
  {
  }

  /**
   * A minor change to the field already pending, or with nothing pending,
   * replaces the pending scenes and restarts the timer without writing.
   */
  lemma MinorChangeCoalesces(st: DebouncerState, dialogues: seq<Scene>, changeId: string, delay: int)
    requires delay != 0
    requires st.pendingChangeId == Some(changeId) || st.pendingChangeId.None?
    ensures var r := Enqueued(st, dialogues, MinorChange(changeId), delay);
      && r.writes == st.writes
      && r.pendingChangeId == Some(changeId) && r.pendingDialogues == Some(dialogues) && r.timerArmed
  {
  }

  /**
   * A minor change to another field first writes what was pending, then holds
   * the new scenes.
   */
  lemma MinorChangeElsewhereFlushes(st: DebouncerState, dialogues: seq<Scene>, changeId: string, delay: int)
    requires Coherent(st) && delay != 0
    requires st.pendingChangeId.Some? && st.pendingChangeId != Some(changeId)
    ensures var r := Enqueued(st, dialogues, MinorChange(changeId), delay);
      && r.writes == st.writes + [st.pendingDialogues.value]
      && r.pendingChangeId == Some(changeId) && r.pendingDialogues == Some(dialogues) && r.timerArmed
  {
  }

  /** One call writes at most one scene list, and never rewrites the log. */
  lemma EnqueueWritesAtMostOnce(st: DebouncerState, dialogues: seq<Scene>, info: StoreSceneUpdateInfo, delay: int)
    ensures var r := Enqueued(st, dialogues, info, delay);
      st.writes <= r.writes && |r.writes| <= |st.writes| + 1
  {
  }

  /** Folding a run of minor changes to one field into an idle debouncer. */
  function EnqueueMinorRun(st: DebouncerState, runs: seq<seq<Scene>>, changeId: string, delay: int): DebouncerState
    decreases |runs|
  {
    if |runs| == 0 then st
    else Enqueued(EnqueueMinorRun(st, runs[..|runs| - 1], changeId, delay), runs[|runs| - 1], MinorChange(changeId), delay)
  }

  /**
   * However many minor edits to one field arrive, none is written before the
   * timer fires, and then exactly the last one is written, once.
   */
  lemma {:induction false} MinorRunHoldsLast(st: DebouncerState, runs: seq<seq<Scene>>, changeId: string, delay: int)
    requires st.pendingChangeId.None? && delay != 0 && |runs| > 0
    ensures var r := EnqueueMinorRun(st, runs, changeId, delay);
      && r.writes == st.writes
      && r.pendingChangeId == Some(changeId)
      && r.pendingDialogues == Some(runs[|runs| - 1])
      && Fired(r).writes == st.writes + [runs[|runs| - 1]]
    decreases |runs|
  {
    if |runs| > 1 {
      MinorRunHoldsLast(st, runs[..|runs| - 1], changeId, delay);
    }
  }

  // ------------------------------------------------------------ the debouncer object

  /** `DialogueDebouncer`, holding one pending change and its timer. */
  class DialogueDebouncer {
    var pendingChangeId: Option<string>
    var pendingDialogues: Option<seq<Scene>>
    /** Whether a pending timer is set (`pendingTimer !== null`). */
    var timerArmed: bool
    /** Every scene list handed to `applyChange`, in order. */
    var writes: seq<seq<Scene>>

    function State(): DebouncerState
      reads this
    {
      DebouncerState(pendingChangeId, pendingDialogues, timerArmed, writes)
    }

    ghost predicate Valid()
      reads this
    {
      Coherent(State())
    }

    constructor ()
      ensures Valid() && State() == Idle
    {
      pendingChangeId, pendingDialogues, timerArmed, writes := None, None, false, [];
    }

    method EnqueueChange(newDialogues: seq<Scene>, updateInfo: StoreSceneUpdateInfo, delayMilliseconds: int)
      requires Valid()
      modifies this
      ensures Valid() && State() == Enqueued(old(State()), newDialogues, updateInfo, delayMilliseconds)
    {
      EnqueueKeepsCoherent(State(), newDialogues, updateInfo, delayMilliseconds);
      if delayMilliseconds == 0 || updateInfo.MajorChange? {
        Clear();
        ApplyChange(newDialogues);
      } else if updateInfo.NoChange? {
      } else if Some(updateInfo.changeId) == pendingChangeId || pendingChangeId.None? {
        Clear();
        pendingChangeId := Some(updateInfo.changeId);
        pendingDialogues := Some(newDialogues);
        timerArmed := true;
      } else {
        FlushChanges();
        pendingChangeId := Some(updateInfo.changeId);
        pendingDialogues := Some(newDialogues);
        timerArmed := true;
      }
    }

    method FlushChanges()
      modifies this
      ensures Valid() && State() == Flushed(old(State()))
    {
      var dialogues := pendingDialogues;
      Clear();
      if dialogues.Some? {
        ApplyChange(dialogues.value);
      }
    }

    method Clear()
      modifies this
      ensures Valid() && State() == Cleared(old(State()))
    {
      pendingDialogues := None;
      pendingChangeId := None;
      if timerArmed {
        timerArmed := false;
      }
    }

    method Dispose()
      modifies this
      ensures Valid() && State() == Cleared(old(State()))
    {
      Clear();
    }

    /** The timer set by `EnqueueChange` expires. */
    method TimerFires()
      requires timerArmed
      modifies this
      ensures Valid() && State() == Fired(old(State()))
    {
      timerArmed := false;
      FlushChanges();
    }

    /** `applyChange`: rewrite the dialogue document with these scenes. */
    method ApplyChange(dialogueScenes: seq<Scene>)
      modifies this
      ensures State() == old(State()).(writes := old(writes) + [dialogueScenes])
    {
      writes := writes + [dialogueScenes];
    }
  }

  // ------------------------------------------------------------ scenarios

  /** Two edits to one field, then the delay elapses: the document is written once, with the second edit. */
  method TypingInOneField(first: seq<Scene>, second: seq<Scene>, changeId: string, delay: int) returns (written: seq<seq<Scene>>)
    requires delay != 0
    ensures written == [second]
  {
    var d := new DialogueDebouncer();
    d.EnqueueChange(first, MinorChange(changeId), delay);
    d.EnqueueChange(second, MinorChange(changeId), delay);
    d.TimerFires();
    written := d.writes;
  }

  /** An edit to a second field writes the first field's edit at once. */
  method EditingTwoFields(a: seq<Scene>, b: seq<Scene>, idA: string, idB: string, delay: int) returns (early: seq<seq<Scene>>, written: seq<seq<Scene>>)
    requires delay != 0 && idA != idB
    ensures early == [a]
    ensures written == [a, b]
  {
    var d := new DialogueDebouncer();
    d.EnqueueChange(a, MinorChange(idA), delay);
    d.EnqueueChange(b, MinorChange(idB), delay);
    early := d.writes;
    d.TimerFires();
    written := d.writes;
  }

  /** A major change discards a pending minor edit: only the major change is written. */
  method MajorAfterMinor(minor: seq<Scene>, major: seq<Scene>, changeId: string, delay: int) returns (written: seq<seq<Scene>>, pending: bool)
    requires delay != 0
    ensures written == [major]
    ensures !pending
  {
    var d := new DialogueDebouncer();
    d.EnqueueChange(minor, MinorChange(changeId), delay);
    d.EnqueueChange(major, MajorChange, delay);
    written := d.writes;
    pending := d.timerArmed;
  }
}
