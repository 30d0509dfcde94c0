/**
 * The webview's layout bookkeeping: a table of node positions per scene (the
 * scene node, its open and close command nodes and one node per button), the
 * canvas viewport and the docked scenes, saved as a snapshot after every change
 * and restored from the saved snapshot when the webview starts.
 */
module Layout {
  import opened Wrappers
  import opened Sequences
  import opened Positions

  /** The canvas pan and zoom. */
  datatype Viewport = Viewport(x: real, y: real, zoom: real)

  const InitialViewport := Viewport(0.0, 0.0, 1.0)

  /**
   * The node positions of one scene. A button slot written past the end of the
   * array leaves holes; a hole, like a slot past the end, reads as `None`.
   */
  datatype SceneState = SceneState(
    sceneId: string,
    sceneNodePosition: Pos,
    openCommandNodePosition: Option<Pos>,
    closeCommandNodePosition: Option<Pos>,
    buttonPositions: seq<Option<Pos>>)

  /** The persisted snapshot. */
  datatype LayoutState = LayoutState(state: seq<SceneState>, viewPort: Viewport, dockedScenes: seq<string>)

  /** Which node of a scene: a button by index, a command node by slot name, or the scene node. */
  datatype NodeStateOptions = ButtonNode(slot: nat) | CommandNode(commandSlot: string) | SceneNode

  const SetPositionError := "useLayout setPosition error"
  const GetPositionError := "useLayout getPosition error"

  /**
   * `layoutMap` with `layoutKeys` its enumeration order, the viewport, the docked
   * set in insertion order, and every snapshot handed to the webview's state store.
   */
  datatype LayoutModel = LayoutModel(
    layoutMap: map<string, SceneState>,
    layoutKeys: seq<string>,
    viewport: Viewport,
    docked: seq<string>,
    saves: seq<LayoutState>)

  ghost predicate ValidLayout(m: LayoutModel) {
    && Distinct(m.layoutKeys)
    && (forall id :: id in m.layoutKeys <==> id in m.layoutMap)
    && (forall id :: id in m.layoutMap ==> m.layoutMap[id].sceneId == id)
    && Distinct(m.docked)
  }

  /** The state a scene gets when its first position is set. */
  function EmptySceneState(sceneId: string): SceneState {
    SceneState(sceneId, Pos(0.0, 0.0), None, None, [])
  }

  /** A command slot name other than these two is an error. */
  predicate KnownCommandSlot(slot: string) {
    slot == "close" || slot == "open"
  }

  /** `buttonPositions[slot] = position` on a JavaScript array. */
  function WriteButton(positions: seq<Option<Pos>>, slot: nat, p: Pos): (r: seq<Option<Pos>>)
    ensures |r| == if slot < |positions| then |positions| else slot + 1
    ensures r[slot] == Some(p)
    ensures forall i :: 0 <= i < |r| && i != slot ==> r[i] == if i < |positions| then positions[i] else None
  {
    if slot < |positions| then positions[slot := Some(p)]
    else positions + seq(slot - |positions|, _ => None) + [Some(p)]
  }

  /** `buttonPositions[slot]` on a JavaScript array: a slot past the end reads as `None`. */
  function ReadButton(positions: seq<Option<Pos>>, slot: nat): Option<Pos> {
    if slot < |positions| then positions[slot] else None
  }

  /** The switch of `setNodePosition` applied to one scene state. */
  function SetSlot(s: SceneState, p: Pos, opts: NodeStateOptions): Result<SceneState, string> {
    match opts
    case ButtonNode(slot) => Success(s.(buttonPositions := WriteButton(s.buttonPositions, slot, p)))
    case CommandNode(slot) =>
      if slot == "close" then Success(s.(closeCommandNodePosition := Some(p)))
      else if slot == "open" then Success(s.(openCommandNodePosition := Some(p)))
      else Failure(SetPositionError)
    case SceneNode => Success(s.(sceneNodePosition := p))
  }

  /** The switch of `getNodePosition` applied to one scene state. */
  function GetSlot(s: SceneState, opts: NodeStateOptions): Result<Option<Pos>, string> {
    match opts
    case ButtonNode(slot) => Success(ReadButton(s.buttonPositions, slot))
    case CommandNode(slot) =>
      if slot == "close" then Success(s.closeCommandNodePosition)
      else if slot == "open" then Success(s.openCommandNodePosition)
      else Failure(GetPositionError)
    case SceneNode => Success(Some(s.sceneNodePosition))
  }

  /** Two node options name the same slot of a scene. */
  predicate SameSlot(a: NodeStateOptions, b: NodeStateOptions) {
    match a
    case ButtonNode(i) => b.ButtonNode? && b.slot == i
    case CommandNode(c) => b.CommandNode? && b.commandSlot == c
    case SceneNode => b.SceneNode?
  }

  /** `saveState()`: the table values in key order, the viewport, and the docked ids. */
  function Snapshot(m: LayoutModel): (s: LayoutState)
    requires ValidLayout(m)
    ensures |s.state| == |m.layoutKeys|
    ensures forall i :: 0 <= i < |m.layoutKeys| ==> s.state[i] == m.layoutMap[m.layoutKeys[i]]
    ensures s.viewPort == m.viewport && s.dockedScenes == m.docked
  {
    LayoutState(seq(|m.layoutKeys|, i requires 0 <= i < |m.layoutKeys| => m.layoutMap[m.layoutKeys[i]]), m.viewport, m.docked)
  }

  function Saved(m: LayoutModel): LayoutModel
    requires ValidLayout(m)
  {
    m.(saves := m.saves + [Snapshot(m)])
  }

  /** `setNodePosition(sceneId, position, nodeStateOptions)`; a failure changes nothing. */
  function SetPosition(m: LayoutModel, sceneId: string, p: Pos, opts: NodeStateOptions): Result<LayoutModel, string>
    requires ValidLayout(m)
  {
    var base := if sceneId in m.layoutMap then m.layoutMap[sceneId] else EmptySceneState(sceneId);
    match SetSlot(base, p, opts)
    case Failure(e) => Failure(e)
    case Success(s) =>
      var updated := m.(layoutMap := m.layoutMap[sceneId := s], layoutKeys := Insert(m.layoutKeys, sceneId));
      InsertDistinct(m.layoutKeys, sceneId);
      Success(Saved(updated))
  }

  /** `getNodePosition(sceneId, nodeStateOptions)`; an unknown scene reads as `None` before the slot is examined. */
  function GetPosition(m: LayoutModel, sceneId: string, opts: NodeStateOptions): Result<Option<Pos>, string> {
    if sceneId !in m.layoutMap then Success(None) else GetSlot(m.layoutMap[sceneId], opts)
  }

  function AddDocked(m: LayoutModel, sceneId: string): LayoutModel
    requires ValidLayout(m)
  {
    InsertDistinct(m.docked, sceneId);
    Saved(m.(docked := Insert(m.docked, sceneId)))
  }

  function RemoveDocked(m: LayoutModel, sceneId: string): LayoutModel
    requires ValidLayout(m)
  {
    RemoveAllDistinct(m.docked, sceneId);
    Saved(m.(docked := RemoveAll(m.docked, sceneId)))
  }

  function SetViewport(m: LayoutModel, transform: Viewport): LayoutModel
    requires ValidLayout(m)
  {
    Saved(m.(viewport := transform))
  }

  /** The first restoring loop's table: each saved scene state put under its id, in order. */
  function RestoreMap(states: seq<SceneState>): map<string, SceneState>
    decreases |states|
  {
    if |states| == 0 then map[]
    else
      var s := states[|states| - 1];
      RestoreMap(states[..|states| - 1])[s.sceneId := s]
  }

  /** The first restoring loop's key order: each saved id, in order of first appearance. */
  function RestoreKeys(states: seq<SceneState>): seq<string>
    decreases |states|
  {
    if |states| == 0 then [] else Insert(RestoreKeys(states[..|states| - 1]), states[|states| - 1].sceneId)
  }

  /** The second restoring loop: add each saved docked id to an empty set, in order. */
  function RestoreDocked(ids: seq<string>): seq<string>
    decreases |ids|
  {
    if |ids| == 0 then [] else Insert(RestoreDocked(ids[..|ids| - 1]), ids[|ids| - 1])
  }

  /** The start-up state, from the saved snapshot if there is one. */
  function Restore(saved: Option<LayoutState>): LayoutModel {
    match saved
    case None => LayoutModel(map[], [], InitialViewport, [], [])
    case Some(s) =>
      LayoutModel(RestoreMap(s.state), RestoreKeys(s.state), s.viewPort, RestoreDocked(s.dockedScenes), [])
  }

  // ------------------------------------------------------------ positions

  /** A set that succeeds is seen by the next get of the same node. */
  lemma GetAfterSet(m: LayoutModel, sceneId: string, p: Pos, opts: NodeStateOptions)
    requires ValidLayout(m)
    requires SetPosition(m, sceneId, p, opts).Success?
    ensures GetPosition(SetPosition(m, sceneId, p, opts).value, sceneId, opts) == Success(Some(p))
  {
  }

  /** A set fails exactly on an unknown command slot, and then with the set error. */
  lemma SetFailsOnUnknownCommandSlot(m: LayoutModel, sceneId: string, p: Pos, opts: NodeStateOptions)
    requires ValidLayout(m)
    ensures SetPosition(m, sceneId, p, opts).Failure? <==> opts.CommandNode? && !KnownCommandSlot(opts.commandSlot)
    ensures SetPosition(m, sceneId, p, opts).Failure? ==> SetPosition(m, sceneId, p, opts).error == SetPositionError
  {
  }

  /** A get fails exactly on an unknown command slot of a known scene. */
  lemma GetFailsOnUnknownCommandSlot(m: LayoutModel, sceneId: string, opts: NodeStateOptions)
    ensures GetPosition(m, sceneId, opts).Failure? <==>
      sceneId in m.layoutMap && opts.CommandNode? && !KnownCommandSlot(opts.commandSlot)
    ensures GetPosition(m, sceneId, opts).Failure? ==> GetPosition(m, sceneId, opts).error == GetPositionError
  {
  }

  /** Nothing is known of a scene whose position was never set. */
  lemma GetUnknownScene(m: LayoutModel, sceneId: string, opts: NodeStateOptions)
    requires sceneId !in m.layoutMap
    ensures GetPosition(m, sceneId, opts) == Success(None)
  {
  }

  /** A set leaves every other scene as it was. */
  lemma SetKeepsOtherScenes(m: LayoutModel, sceneId: string, p: Pos, opts: NodeStateOptions, other: string, otherOpts: NodeStateOptions)
    requires ValidLayout(m)
    requires SetPosition(m, sceneId, p, opts).Success? && other != sceneId
    ensures GetPosition(SetPosition(m, sceneId, p, opts).value, other, otherOpts) == GetPosition(m, other, otherOpts)
  {
  }

  /** A set on a known scene leaves its other slots as they were. */
  lemma SetKeepsOtherSlots(m: LayoutModel, sceneId: string, p: Pos, opts: NodeStateOptions, otherOpts: NodeStateOptions)
    requires ValidLayout(m)
    requires SetPosition(m, sceneId, p, opts).Success? && sceneId in m.layoutMap && !SameSlot(opts, otherOpts)
    ensures GetPosition(SetPosition(m, sceneId, p, opts).value, sceneId, otherOpts) == GetPosition(m, sceneId, otherOpts)
  {
  }

  /**
   * The first set on a scene creates it with its scene node at (0, 0), no
   * command nodes and no buttons, and then sets the one slot.
   */
  lemma FirstSetCreatesScene(m: LayoutModel, sceneId: string, p: Pos, opts: NodeStateOptions, otherOpts: NodeStateOptions)
    requires ValidLayout(m)
    requires SetPosition(m, sceneId, p, opts).Success? && sceneId !in m.layoutMap && !SameSlot(opts, otherOpts)
    ensures var r := SetPosition(m, sceneId, p, opts).value;
      && r.layoutKeys == m.layoutKeys + [sceneId]
      && GetPosition(r, sceneId, otherOpts) == match otherOpts
        case SceneNode => Success(Some(Pos(0.0, 0.0)))
        case ButtonNode(_) => Success(None)
        case CommandNode(slot) => if KnownCommandSlot(slot) then Success(None) else Failure(GetPositionError)
  {
  }

  // ------------------------------------------------------------ snapshots and the docked set

  lemma MutatorsKeepValid(m: LayoutModel, sceneId: string, p: Pos, opts: NodeStateOptions, transform: Viewport)
    requires ValidLayout(m)
    ensures SetPosition(m, sceneId, p, opts).Success? ==> ValidLayout(SetPosition(m, sceneId, p, opts).value)
    ensures ValidLayout(AddDocked(m, sceneId)) && ValidLayout(RemoveDocked(m, sceneId))
    ensures ValidLayout(SetViewport(m, transform))
  {
    InsertDistinct(m.layoutKeys, sceneId);
    InsertDistinct(m.docked, sceneId);
    RemoveAllDistinct(m.docked, sceneId);
  }

  /** Every change saves one snapshot of the state it leaves behind. */
  lemma MutatorsSaveSnapshot(m: LayoutModel, sceneId: string, p: Pos, opts: NodeStateOptions, transform: Viewport)
    requires ValidLayout(m)
    ensures SetPosition(m, sceneId, p, opts).Success? ==>
      var r := SetPosition(m, sceneId, p, opts).value; ValidLayout(r) && r.saves == m.saves + [Snapshot(r)]
    ensures var r := AddDocked(m, sceneId); ValidLayout(r) && r.saves == m.saves + [Snapshot(r)]
    ensures var r := RemoveDocked(m, sceneId); ValidLayout(r) && r.saves == m.saves + [Snapshot(r)]
    ensures var r := SetViewport(m, transform); ValidLayout(r) && r.saves == m.saves + [Snapshot(r)]
  {
    MutatorsKeepValid(m, sceneId, p, opts, transform);
  }

  /** Docking is a set insertion: idempotent, and the other members stay. */
  lemma AddDockedIsSetInsert(m: LayoutModel, sceneId: string)
    requires ValidLayout(m)
    ensures forall id :: id in AddDocked(m, sceneId).docked <==> id in m.docked || id == sceneId
    ensures AddDocked(AddDocked(m, sceneId), sceneId).docked == AddDocked(m, sceneId).docked
    ensures sceneId !in m.docked ==> AddDocked(m, sceneId).docked == m.docked + [sceneId]
  {
    MutatorsKeepValid(m, sceneId, Pos(0.0, 0.0), SceneNode, m.viewport);
  }

  /** Undocking is a set removal. */
  lemma RemoveDockedIsSetRemove(m: LayoutModel, sceneId: string)
    requires ValidLayout(m)
    ensures forall id :: id in RemoveDocked(m, sceneId).docked <==> id in m.docked && id != sceneId
    ensures sceneId !in m.docked ==> RemoveDocked(m, sceneId).docked == m.docked
  {
    if sceneId !in m.docked {
      RemoveAllAbsent(m.docked, sceneId);
    }
  }

  // ------------------------------------------------------------ restoring

  lemma {:induction false} RestoreDockedOfDistinct(ids: seq<string>)
    requires Distinct(ids)
    ensures RestoreDocked(ids) == ids
    decreases |ids|
  {
    if |ids| > 0 {
      var n := |ids| - 1;
      assert Distinct(ids[..n]);
      RestoreDockedOfDistinct(ids[..n]);
      assert ids[n] !in ids[..n];
      assert ids == ids[..n] + [ids[n]];
    }
  }

  /** Restoring states that carry distinct ids rebuilds exactly those ids, in order. */
  lemma {:induction false} RestoreKeysOfDistinct(states: seq<SceneState>, keys: seq<string>)
    requires |states| == |keys| && Distinct(keys)
    requires forall i :: 0 <= i < |keys| ==> states[i].sceneId == keys[i]
    ensures RestoreKeys(states) == keys
    decreases |states|
  {
    if |states| > 0 {
      var n := |states| - 1;
      DistinctPrefix(keys);
      assert forall i :: 0 <= i < n ==> states[..n][i] == states[i] && keys[..n][i] == keys[i];
      RestoreKeysOfDistinct(states[..n], keys[..n]);
      assert keys == keys[..n] + [states[n].sceneId];
    }
  }

  /**
   * Restoring the states stored under distinct keys of a table, each state
   * carrying its own key, rebuilds that part of the table.
   */
  lemma {:induction false} RestoreMapOfKeyed(states: seq<SceneState>, keys: seq<string>, table: map<string, SceneState>)
    requires |states| == |keys|
    requires forall i :: 0 <= i < |keys| ==> keys[i] in table && states[i] == table[keys[i]] && states[i].sceneId == keys[i]
    ensures RestoreMap(states).Keys == Elements(keys)
    ensures forall id :: id in RestoreMap(states) ==> id in table && RestoreMap(states)[id] == table[id]
    decreases |states|
  {
    if |states| > 0 {
      var n := |states| - 1;
      assert forall i :: 0 <= i < n ==> states[..n][i] == states[i] && keys[..n][i] == keys[i];
      RestoreMapOfKeyed(states[..n], keys[..n], table);
      RestoreMapStep(RestoreMap(states[..n]), keys[..n], table, states[n]);
      assert keys == keys[..n] + [states[n].sceneId];
    }
  }

  /** Dropping the last element keeps a sequence distinct, and that element is not in the rest. */
  lemma DistinctPrefix<T>(s: seq<T>)
    requires Distinct(s) && |s| > 0
    ensures Distinct(s[..|s| - 1]) && s[|s| - 1] !in s[..|s| - 1]
  {
  }

  /** One step of the first restoring loop's table. */
  lemma RestoreMapStep(prev: map<string, SceneState>, prefixKeys: seq<string>, table: map<string, SceneState>, last: SceneState)
    requires prev.Keys == Elements(prefixKeys)
    requires forall id :: id in prev ==> id in table && prev[id] == table[id]
    requires last.sceneId in table && table[last.sceneId] == last
    ensures prev[last.sceneId := last].Keys == Elements(prefixKeys + [last.sceneId])
    ensures forall id :: id in prev[last.sceneId := last] ==> id in table && prev[last.sceneId := last][id] == table[id]
  {
    assert Elements(prefixKeys + [last.sceneId]) == Elements(prefixKeys) + {last.sceneId};
  }

  /** Restoring the snapshot of a layout gives back its table, key order, viewport and docked set. */
  lemma RestoreSnapshot(m: LayoutModel)
    requires ValidLayout(m)
    ensures var r := Restore(Some(Snapshot(m)));
      && r.layoutMap == m.layoutMap
      && r.layoutKeys == m.layoutKeys
      && r.viewport == m.viewport
      && r.docked == m.docked
      && ValidLayout(r)
  {
    RestoreKeysOfDistinct(Snapshot(m).state, m.layoutKeys);
    RestoreMapOfKeyed(Snapshot(m).state, m.layoutKeys, m.layoutMap);
    RestoreDockedOfDistinct(m.docked);
  }

  /** Whatever was saved, the first restoring loop leaves each key once. */
  lemma {:induction false} RestoreKeysDistinct(states: seq<SceneState>)
    ensures Distinct(RestoreKeys(states))
    decreases |states|
  {
    if |states| > 0 {
      var n := |states| - 1;
      RestoreKeysDistinct(states[..n]);
      InsertDistinct(RestoreKeys(states[..n]), states[n].sceneId);
    }
  }

  /**
   * Whatever was saved, the first restoring loop keeps the keys in step with
   * the table and every state under its own id.
   */
  lemma {:induction false} RestoreTableValid(states: seq<SceneState>)
    ensures forall id :: id in RestoreKeys(states) <==> id in RestoreMap(states)
    ensures forall id :: id in RestoreMap(states) ==> RestoreMap(states)[id].sceneId == id
    decreases |states|
  {
    if |states| > 0 {
      var n := |states| - 1;
      RestoreTableValid(states[..n]);
      assert RestoreKeys(states) == Insert(RestoreKeys(states[..n]), states[n].sceneId);
      assert RestoreMap(states) == RestoreMap(states[..n])[states[n].sceneId := states[n]];
    }
  }

  /** Whatever was saved, the second restoring loop leaves each docked id once. */
  lemma {:induction false} RestoreDockedDistinct(ids: seq<string>)
    ensures Distinct(RestoreDocked(ids))
    ensures forall id :: id in RestoreDocked(ids) <==> id in ids
    decreases |ids|
  {
    if |ids| > 0 {
      var n := |ids| - 1;
      RestoreDockedDistinct(ids[..n]);
      InsertDistinct(RestoreDocked(ids[..n]), ids[n]);
      assert ids == ids[..n] + [ids[n]];
    }
  }

  /** The start-up state satisfies the layout invariant, with or without a saved snapshot. */
  lemma RestoreValid(saved: Option<LayoutState>)
    ensures ValidLayout(Restore(saved))
  {
    if saved.Some? {
      RestoreKeysDistinct(saved.value.state);
      RestoreTableValid(saved.value.state);
      RestoreDockedDistinct(saved.value.dockedScenes);
    }
  }

  // ------------------------------------------------------------ the composable's state

  /** The state held by one `useLayoutData()` instance. */
  class LayoutData {
    var layoutMap: map<string, SceneState>
    var layoutKeys: seq<string>
    var currentViewport: Viewport
    /** `dockedScenes`, in insertion order. */
    var dockedScenes: seq<string>
    /** Every snapshot passed to `setState`, in order. */
    var saves: seq<LayoutState>

    function State(): LayoutModel
      reads this
    {
      LayoutModel(layoutMap, layoutKeys, currentViewport, dockedScenes, saves)
    }

    ghost predicate Valid()
      reads this
    {
      ValidLayout(State())
    }

    /** Start-up: restore from `savedState` (the result of `getState()`), if any. */
    constructor (savedState: Option<LayoutState>)
      ensures Valid() && State() == Restore(savedState)
    {
      layoutMap, layoutKeys, currentViewport, dockedScenes, saves := map[], [], InitialViewport, [], [];
      new;
      if savedState.Some? {
        var states := savedState.value.state;
        for i := 0 to |states|
          invariant layoutMap == RestoreMap(states[..i]) && layoutKeys == RestoreKeys(states[..i])
          invariant currentViewport == InitialViewport && dockedScenes == [] && saves == []
        {
          assert states[..i + 1][..i] == states[..i];
          layoutMap := layoutMap[states[i].sceneId := states[i]];
          layoutKeys := Insert(layoutKeys, states[i].sceneId);
        }
        assert states[..|states|] == states;
        var ids := savedState.value.dockedScenes;
        for j := 0 to |ids|
          invariant dockedScenes == RestoreDocked(ids[..j])
          invariant layoutMap == RestoreMap(states) && layoutKeys == RestoreKeys(states)
          invariant currentViewport == InitialViewport && saves == []
        {
          assert ids[..j + 1][..j] == ids[..j];
          dockedScenes := Insert(dockedScenes, ids[j]);
        }
        assert ids[..|ids|] == ids;
        currentViewport := savedState.value.viewPort;
      }
      RestoreValid(savedState);
    }

    method SaveState()
      requires Valid()
      modifies this
      ensures Valid() && State() == Saved(old(State()))
    {
      saves := saves + [Snapshot(State())];
    }

    method AddDockedScene(sceneId: string)
      requires Valid()
      modifies this
      ensures Valid() && State() == AddDocked(old(State()), sceneId)
    {
      InsertDistinct(dockedScenes, sceneId);
      dockedScenes := Insert(dockedScenes, sceneId);
      SaveState();
    }

    method RemoveDockedScene(sceneId: string)
      requires Valid()
      modifies this
      ensures Valid() && State() == RemoveDocked(old(State()), sceneId)
    {
      RemoveAllDistinct(dockedScenes, sceneId);
      dockedScenes := RemoveAll(dockedScenes, sceneId);
      SaveState();
    }

    /** `getDockedScenes`: every docked id once, in the order `AddDocked` appended them. */
    function GetDockedScenes(): (ids: seq<string>)
      reads this
      requires Valid()
      ensures Distinct(ids) && forall id :: id in ids <==> id in dockedScenes
      ensures ids == State().docked
    {
      dockedScenes
    }

    /** A failure (the thrown error) leaves every field as it was. */
    method SetNodePosition(sceneId: string, position: Pos, nodeStateOptions: NodeStateOptions) returns (r: Result<(), string>)
      requires Valid()
      modifies this
      ensures Valid()
      ensures SetPosition(old(State()), sceneId, position, nodeStateOptions).Success? ==>
        r.Success? && State() == SetPosition(old(State()), sceneId, position, nodeStateOptions).value
      ensures SetPosition(old(State()), sceneId, position, nodeStateOptions).Failure? ==>
        r == Failure(SetPosition(old(State()), sceneId, position, nodeStateOptions).error) && State() == old(State())
    {
      var sceneState := if sceneId in layoutMap then layoutMap[sceneId] else EmptySceneState(sceneId);
      match nodeStateOptions {
        case ButtonNode(slot) =>
          sceneState := sceneState.(buttonPositions := WriteButton(sceneState.buttonPositions, slot, position));
        case CommandNode(slot) =>
          if slot == "close" {
            sceneState := sceneState.(closeCommandNodePosition := Some(position));
          } else if slot == "open" {
            sceneState := sceneState.(openCommandNodePosition := Some(position));
          } else {
            return Failure(SetPositionError);
          }
        case SceneNode =>
          sceneState := sceneState.(sceneNodePosition := position);
      }
      StoreSceneState(sceneId, sceneState);
      r := Success(());
    }

    /** The tail of `setNodePosition`: store the updated scene state under its id and save. */
    method StoreSceneState(sceneId: string, sceneState: SceneState)
      requires Valid() && sceneState.sceneId == sceneId
      modifies this
      ensures Valid()
      ensures State() == Saved(old(State()).(layoutMap := old(layoutMap)[sceneId := sceneState], layoutKeys := Insert(old(layoutKeys), sceneId)))
    {
      InsertDistinct(layoutKeys, sceneId);
      layoutMap := layoutMap[sceneId := sceneState];
      layoutKeys := Insert(layoutKeys, sceneId);
      SaveState();
    }

    method GetNodePosition(sceneId: string, nodeStateOptions: NodeStateOptions) returns (r: Result<Option<Pos>, string>)
      ensures r == GetPosition(State(), sceneId, nodeStateOptions)
    {
      if sceneId !in layoutMap {
        return Success(None);
      }
      var sceneState := layoutMap[sceneId];
      match nodeStateOptions {
        case ButtonNode(slot) =>
          r := Success(ReadButton(sceneState.buttonPositions, slot));
        case CommandNode(slot) =>
          if slot == "close" {
            r := Success(sceneState.closeCommandNodePosition);
          } else if slot == "open" {
            r := Success(sceneState.openCommandNodePosition);
          } else {
            r := Failure(GetPositionError);
          }
        case SceneNode =>
          r := Success(Some(sceneState.sceneNodePosition));
      }
    }

    method SetViewportState(transform: Viewport)
      requires Valid()
      modifies this
      ensures Valid() && State() == SetViewport(old(State()), transform)
    {
      currentViewport := transform;
      SaveState();
    }

    function GetViewportState(): (v: Viewport)
      reads this
      ensures v == State().viewport
    {
      currentViewport
    }
  }
}
