/**
 * The webview's dock of scenes: a set of scene ids, kept in insertion order,
 * that notifies its dock and undock listeners only when membership really
 * changes. Notifications are recorded in an event log.
 */
module Dock {
  import opened Sequences

  /** One notification: to the dock listeners, or to the undock listeners. */
  datatype DockEvent = Docked(sceneId: string) | Undocked(sceneId: string)

  datatype DockState = DockState(docked: seq<string>, events: seq<DockEvent>)

  ghost predicate ValidDock(st: DockState) {
    Distinct(st.docked)
  }

  /** `dockScene(sceneId)`. */
  function Dock(st: DockState, sceneId: string): DockState {
    if sceneId in st.docked then st
    else DockState(st.docked + [sceneId], st.events + [Docked(sceneId)])
  }

  /** `undockScene(sceneId)`. */
  function Undock(st: DockState, sceneId: string): DockState {
    if sceneId !in st.docked then st
    else DockState(RemoveAll(st.docked, sceneId), st.events + [Undocked(sceneId)])
  }

  /** `deleteScene(sceneId)`: the new state, and whether the id was docked. */
  function Remove(st: DockState, sceneId: string): (DockState, bool) {
    (st.(docked := RemoveAll(st.docked, sceneId)), sceneId in st.docked)
  }

  /** Docking an id already docked changes nothing and notifies no one. */
  lemma DockDockedIsNoOp(st: DockState, sceneId: string)
    requires sceneId in st.docked
    ensures Dock(st, sceneId) == st
  {
  }

  /** Docking a new id adds it and notifies the dock listeners once, with that id. */
  lemma DockNewScene(st: DockState, sceneId: string)
    requires ValidDock(st) && sceneId !in st.docked
    ensures var r := Dock(st, sceneId);
      && ValidDock(r)
      && (forall id :: id in r.docked <==> id in st.docked || id == sceneId)
      && r.docked == st.docked + [sceneId]
      && r.events == st.events + [Docked(sceneId)]
  {
    InsertDistinct(st.docked, sceneId);
  }

  /** Undocking an id not docked changes nothing and notifies no one. */
  lemma UndockUndockedIsNoOp(st: DockState, sceneId: string)
    requires sceneId !in st.docked
    ensures Undock(st, sceneId) == st
  {
  }

  /** Undocking a docked id removes it and notifies the undock listeners once, with that id. */
  lemma UndockDockedScene(st: DockState, sceneId: string)
    requires ValidDock(st) && sceneId in st.docked
    ensures var r := Undock(st, sceneId);
      && ValidDock(r)
      && (forall id :: id in r.docked <==> id in st.docked && id != sceneId)
      && r.events == st.events + [Undocked(sceneId)]
  {
    RemoveAllDistinct(st.docked, sceneId);
  }

  /** Deleting removes the id without notifying anyone, and reports whether it was docked. */
  lemma DeleteIsSilent(st: DockState, sceneId: string)
    requires ValidDock(st)
    ensures var (r, wasDocked) := Remove(st, sceneId);
      && ValidDock(r)
      && (wasDocked <==> sceneId in st.docked)
      && (forall id :: id in r.docked <==> id in st.docked && id != sceneId)
      && r.events == st.events
  {
    RemoveAllDistinct(st.docked, sceneId);
  }

  /** Docking and then undocking a new id restores the docked set, with two notifications. */
  lemma DockThenUndock(st: DockState, sceneId: string)
    requires ValidDock(st) && sceneId !in st.docked
    ensures var r := Undock(Dock(st, sceneId), sceneId);
      && r.docked == st.docked
      && r.events == st.events + [Docked(sceneId), Undocked(sceneId)]
  {
    RemoveAllAbsent(st.docked, sceneId);
    assert RemoveAll(st.docked + [sceneId], sceneId) == st.docked by {
      RemoveAllAppended(st.docked, sceneId);
    }
  }

  /** The state held by one `useSceneDock()` instance. */
  class SceneDock {
    var dockedScenes: seq<string>
    /** Every listener notification, in order. */
    var events: seq<DockEvent>

    function State(): DockState
      reads this
    {
      DockState(dockedScenes, events)
    }

    ghost predicate Valid()
      reads this
    {
      ValidDock(State())
    }

    constructor ()
      ensures Valid() && State() == DockState([], [])
    {
      dockedScenes, events := [], [];
    }

    method DockScene(sceneId: string)
      requires Valid()
      modifies this
      ensures Valid() && State() == Dock(old(State()), sceneId)
    {
      var alreadyDocked := sceneId in dockedScenes;
      if alreadyDocked {
        return;
      }
      InsertDistinct(dockedScenes, sceneId);
      dockedScenes := dockedScenes + [sceneId];
      events := events + [Docked(sceneId)];
    }

    method UndockScene(sceneId: string)
      requires Valid()
      modifies this
      ensures Valid() && State() == Undock(old(State()), sceneId)
    {
      var wasDeleted := DeleteScene(sceneId);
      if !wasDeleted {
        RemoveAllAbsent(old(dockedScenes), sceneId);
        return;
      }
      events := events + [Undocked(sceneId)];
    }

    method DeleteScene(sceneId: string) returns (wasDocked: bool)
      requires Valid()
      modifies this
      ensures Valid() && (State(), wasDocked) == Remove(old(State()), sceneId)
    {
      wasDocked := sceneId in dockedScenes;
      RemoveAllDistinct(dockedScenes, sceneId);
      if !wasDocked {
        RemoveAllAbsent(dockedScenes, sceneId);
      }
      dockedScenes := RemoveAll(dockedScenes, sceneId);
    }

    function IsSceneDocked(sceneId: string): (docked: bool)
      reads this
      ensures docked <==> sceneId in State().docked
    {
      sceneId in dockedScenes
    }

    /** `dockedSceneIds`: every docked id once, in the order `Dock` appended them. */
    function DockedSceneIds(): (ids: seq<string>)
      reads this
      requires Valid()
      ensures Distinct(ids) && forall id :: id in ids <==> IsSceneDocked(id)
      ensures ids == State().docked
    {
      dockedScenes
    }
  }
}
