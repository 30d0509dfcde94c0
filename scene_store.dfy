/**
 * The authoritative scene store of the extension: a map from scene id to scene
 * (enumerated in insertion order, like a JavaScript `Map`), a separate
 * declaration order of scene ids, and the log of create/update/delete messages
 * it has emitted to its listeners.
 *
 * Each operation is first given as a function on a `StoreState` value; the
 * class `DialogueStore` performs it in place and is proved to follow it.
 */
module SceneStore {
  import opened Wrappers
  import opened Sequences
  import opened Scenes
  import opened StoreMessages
  import opened Classifier

  /**
   * `scenes` is `dialogueMap`, `keys` its enumeration order, `order` is
   * `sceneTagOrder`, and `events` the messages emitted so far.
   */
  datatype StoreState = StoreState(
    scenes: map<string, Scene>,
    keys: seq<string>,
    order: seq<string>,
    events: seq<StoreMessage>)

  /** The key order lists each key of the map once, and each scene is stored under its own id. */
  ghost predicate ValidState(st: StoreState) {
    && Distinct(st.keys)
    && (forall id :: id in st.keys <==> id in st.scenes)
    && (forall id :: id in st.scenes ==> st.scenes[id].sceneId == id)
  }

  /** Every id of the declaration order is stored: `getScenes` then succeeds. */
  ghost predicate Synced(st: StoreState) {
    forall id :: id in st.order ==> id in st.scenes
  }

  const EmptyStore := StoreState(map[], [], [], [])

  /** `upsertScene(source, scene)`. */
  function Upsert(st: StoreState, source: StoreUpdateSource, scene: Scene): StoreState {
    var id := scene.sceneId;
    if id in st.scenes && st.scenes[id] == scene then st
    else if id !in st.scenes then
      StoreState(
        st.scenes[id := scene],
        st.keys + [id],
        if source != Extension then st.order + [id] else st.order,
        st.events + [CreateScene(source, id, scene)])
    else
      StoreState(
        st.scenes[id := scene],
        st.keys,
        st.order,
        st.events + [UpdateScene(source, id, scene, CompareScenes(st.scenes[id], scene))])
  }

  /** `deleteScene(source, sceneTag)`. */
  function Delete(st: StoreState, source: StoreUpdateSource, id: string): StoreState {
    if id !in st.scenes then st
    else
      StoreState(
        st.scenes - {id},
        RemoveAll(st.keys, id),
        if source != Extension then RemoveAll(st.order, id) else st.order,
        st.events + [DeleteScene(source, id)])
  }

  /** The ids of a scene list, in list order. */
  function Ids(scenes: seq<Scene>): (ids: seq<string>)
    ensures |ids| == |scenes|
    ensures forall i :: 0 <= i < |scenes| ==> ids[i] == scenes[i].sceneId
  {
    seq(|scenes|, i requires 0 <= i < |scenes| => scenes[i].sceneId)
  }

  /** No id occurs twice in a scene list. */
  ghost predicate DistinctIds(scenes: seq<Scene>) {
    forall i, j :: 0 <= i < j < |scenes| ==> scenes[i].sceneId != scenes[j].sceneId
  }

  /** The first loop of `setScenes`: upsert every scene in list order. */
  function UpsertAll(st: StoreState, source: StoreUpdateSource, scenes: seq<Scene>): StoreState
    decreases |scenes|
  {
    if |scenes| == 0 then st
    else Upsert(UpsertAll(st, source, scenes[..|scenes| - 1]), source, scenes[|scenes| - 1])
  }

  /** The second loop of `setScenes`: delete, in key order, every key not kept. */
  function DeleteAbsent(st: StoreState, source: StoreUpdateSource, keys: seq<string>, keep: set<string>): StoreState
    decreases |keys|
  {
    if |keys| == 0 then st
    else
      var before := DeleteAbsent(st, source, keys[..|keys| - 1], keep);
      var id := keys[|keys| - 1];
      if id in keep then before else Delete(before, source, id)
  }

  /**
   * `setScenes(source, scenes)`: upsert every scene, delete every stored id not
   * among them (iterating the map after the upserts; deleting the entry being
   * visited does not disturb a JavaScript `Map` iteration), then overwrite the
   * declaration order with the incoming ids.
   */
  function SetAll(st: StoreState, source: StoreUpdateSource, scenes: seq<Scene>): StoreState {
    var upserted := UpsertAll(st, source, scenes);
    var pruned := DeleteAbsent(upserted, source, upserted.keys, Elements(Ids(scenes)));
    pruned.(order := Ids(scenes))
  }

  /**
   * `getScenes()`: the stored scenes in declaration order, or `None` (the
   * source's `null`) when some id of the order is not in the map.
   */
  function ScenesInOrder(scenes: map<string, Scene>, order: seq<string>): (r: Option<seq<Scene>>)
    ensures r.None? <==> exists i :: 0 <= i < |order| && order[i] !in scenes
    ensures r.Some? ==> |r.value| == |order| && forall i :: 0 <= i < |order| ==> r.value[i] == scenes[order[i]]
    decreases |order|
  {
    if |order| == 0 then Some([])
    else if order[0] !in scenes then None
    else
      match ScenesInOrder(scenes, order[1..])
      case None => None
      case Some(rest) => Some([scenes[order[0]]] + rest)
  }

  /** `getSceneMessages()`: one create message per stored scene, in map order. */
  function SceneMessages(st: StoreState): (messages: seq<GenericSceneMessage>)
    requires ValidState(st)
    ensures |messages| == |st.keys|
    ensures forall i :: 0 <= i < |st.keys| ==>
      messages[i].sceneData == st.scenes[st.keys[i]] && messages[i].sceneId == st.keys[i]
    ensures forall id :: id in st.scenes <==> exists i :: 0 <= i < |messages| && messages[i].sceneId == id
  {
    var ms := seq(|st.keys|, i requires 0 <= i < |st.keys| => GenericCreateScene(st.scenes[st.keys[i]].sceneId, st.scenes[st.keys[i]]));
    assert forall id :: id in st.scenes ==> exists i :: 0 <= i < |ms| && ms[i].sceneId == id by {
      forall id | id in st.scenes ensures exists i :: 0 <= i < |ms| && ms[i].sceneId == id {
        var i :| 0 <= i < |st.keys| && st.keys[i] == id;
        assert ms[i].sceneId == id;
      }
    }
    ms
  }

  // ------------------------------------------------------------ upsert and delete

  lemma UpsertKeepsValid(st: StoreState, source: StoreUpdateSource, scene: Scene)
    requires ValidState(st)
    ensures ValidState(Upsert(st, source, scene))
  {
    var id := scene.sceneId;
    if id !in st.scenes {
      InsertDistinct(st.keys, id);
    }
  }

  lemma DeleteKeepsValid(st: StoreState, source: StoreUpdateSource, id: string)
    requires ValidState(st)
    ensures ValidState(Delete(st, source, id))
  {
    if id in st.scenes {
      RemoveAllDistinct(st.keys, id);
    }
  }

  /** Upserting the scene already stored changes nothing and emits nothing. */
  lemma UpsertIdenticalIsNoOp(st: StoreState, source: StoreUpdateSource, scene: Scene)
    requires scene.sceneId in st.scenes && st.scenes[scene.sceneId] == scene
    ensures Upsert(st, source, scene) == st
  {
  }

  /** Upserting the same scene twice emits no more than upserting it once. */
  lemma UpsertTwiceIsUpsertOnce(st: StoreState, first: StoreUpdateSource, second: StoreUpdateSource, scene: Scene)
    ensures Upsert(Upsert(st, first, scene), second, scene) == Upsert(st, first, scene)
  {
  }

  /**
   * A new id is stored; it joins the declaration order unless the update came
   * from the extension; exactly one create message is emitted.
   */
  lemma UpsertNewScene(st: StoreState, source: StoreUpdateSource, scene: Scene)
    requires scene.sceneId !in st.scenes
    ensures var r := Upsert(st, source, scene);
      && r.scenes == st.scenes[scene.sceneId := scene]
      && (r.order == st.order + [scene.sceneId] <==> source == Webview)
      && (source == Extension ==> r.order == st.order)
      && r.events == st.events + [CreateScene(source, scene.sceneId, scene)]
  {
  }

  /**
   * A changed scene under a stored id replaces the old one, keeps the order, and
   * emits one update message whose verdict compares the old scene with the new.
   */
  lemma UpsertChangedScene(st: StoreState, source: StoreUpdateSource, scene: Scene)
    requires scene.sceneId in st.scenes && st.scenes[scene.sceneId] != scene
    ensures var r := Upsert(st, source, scene);
      && r.scenes == st.scenes[scene.sceneId := scene]
      && r.keys == st.keys && r.order == st.order
      && r.events == st.events + [UpdateScene(source, scene.sceneId, scene, CompareScenes(st.scenes[scene.sceneId], scene))]
  {
  }

  /** Deleting an id that is not stored changes nothing and emits nothing. */
  lemma DeleteAbsentIsNoOp(st: StoreState, source: StoreUpdateSource, id: string)
    requires id !in st.scenes
    ensures Delete(st, source, id) == st
  {
  }

  /**
   * Deleting a stored id removes it from the map; it leaves the declaration
   * order unless the update came from the webview; one delete message is emitted.
   */
  lemma DeletePresentScene(st: StoreState, source: StoreUpdateSource, id: string)
    requires id in st.scenes
    ensures var r := Delete(st, source, id);
      && r.scenes == st.scenes - {id}
      && r.keys == RemoveAll(st.keys, id)
      && (source == Webview ==> r.order == RemoveAll(st.order, id) && id !in r.order)
      && (source == Webview ==> forall x :: x in r.order <==> x in st.order && x != id)
      && (source == Extension ==> r.order == st.order)
      && r.events == st.events + [DeleteScene(source, id)]
  {
  }

  /**
   * A webview delete of the scene at position `i` of a duplicate-free order
   * cuts exactly that position out of the order, and `getScenes` then gives
   * the old result with that one scene cut out.
   */
  lemma WebviewDeleteGetScenes(st: StoreState, id: string, i: nat)
    requires Synced(st) && Distinct(st.order)
    requires i < |st.order| && st.order[i] == id && id in st.scenes
    ensures var r := Delete(st, Webview, id);
      var before := ScenesInOrder(st.scenes, st.order);
      && r.order == st.order[..i] + st.order[i + 1..]
      && before.Some?
      && ScenesInOrder(r.scenes, r.order) == Some(before.value[..i] + before.value[i + 1..])
  {
    RemoveAllAt(st.order, i);
    SyncedScenesInOrder(st);
    CutScenesInOrder(st.scenes, st.order, i, ScenesInOrder(st.scenes, st.order).value);
  }

  /** Reading with one id cut out of a duplicate-free order, and out of the map, cuts out its scene. */
  lemma CutScenesInOrder(scenes: map<string, Scene>, order: seq<string>, i: nat, prior: seq<Scene>)
    requires Distinct(order) && i < |order|
    requires |prior| == |order| && forall k :: 0 <= k < |order| ==> order[k] in scenes && prior[k] == scenes[order[k]]
    ensures ScenesInOrder(scenes - {order[i]}, order[..i] + order[i + 1..]) == Some(prior[..i] + prior[i + 1..])
  {
    var cutScenes, cutOrder, want := scenes - {order[i]}, order[..i] + order[i + 1..], prior[..i] + prior[i + 1..];
    forall k | 0 <= k < |cutOrder| ensures cutOrder[k] in cutScenes && cutScenes[cutOrder[k]] == want[k] {
      var k' := if k < i then k else k + 1;
      assert cutOrder[k] == order[k'] && want[k] == prior[k'];
    }
    var got := ScenesInOrder(cutScenes, cutOrder);
    assert got.Some?;
    assert got.value == want;
  }

  // ------------------------------------------------------------ setScenes

  /** The map after one upsert: the scene is stored under its id, and every other entry is kept. */
  lemma UpsertStores(st: StoreState, source: StoreUpdateSource, scene: Scene)
    ensures Upsert(st, source, scene).scenes == st.scenes[scene.sceneId := scene]
  {
  }

  /** The first loop, one more scene: upsert it into what the earlier scenes left. */
  lemma UpsertAllLast(st: StoreState, source: StoreUpdateSource, scenes: seq<Scene>, n: nat)
    requires n < |scenes|
    ensures UpsertAll(st, source, scenes[..n + 1]) == Upsert(UpsertAll(st, source, scenes[..n]), source, scenes[n])
  {
    assert scenes[..n + 1][..n] == scenes[..n];
  }

  lemma {:induction false} UpsertAllEffect(st: StoreState, source: StoreUpdateSource, scenes: seq<Scene>)
    requires ValidState(st)
    ensures var u := UpsertAll(st, source, scenes);
      && ValidState(u)
      && u.scenes.Keys == st.scenes.Keys + Elements(Ids(scenes))
      && (forall id :: id in st.scenes && id !in Elements(Ids(scenes)) ==> u.scenes[id] == st.scenes[id])
    decreases |scenes|
  {
    if |scenes| > 0 {
      var n := |scenes| - 1;
      var prefix := scenes[..n];
      UpsertAllEffect(st, source, prefix);
      UpsertEffectStep(st, UpsertAll(st, source, prefix), source, scenes[n], Elements(Ids(prefix)));
      IdsLast(scenes);
    }
  }

  lemma IdsLast(scenes: seq<Scene>)
    requires |scenes| > 0
    ensures Elements(Ids(scenes)) == Elements(Ids(scenes[..|scenes| - 1])) + {scenes[|scenes| - 1].sceneId}
  {
    assert Ids(scenes) == Ids(scenes[..|scenes| - 1]) + [scenes[|scenes| - 1].sceneId];
  }

  /** One step of `UpsertAllEffect`: the upserted id joins the ids already upserted. */
  lemma UpsertEffectStep(st: StoreState, before: StoreState, source: StoreUpdateSource, scene: Scene, done: set<string>)
    requires ValidState(before)
    requires before.scenes.Keys == st.scenes.Keys + done
    requires forall id :: id in st.scenes && id !in done ==> before.scenes[id] == st.scenes[id]
    ensures var u := Upsert(before, source, scene);
      && ValidState(u)
      && u.scenes.Keys == st.scenes.Keys + (done + {scene.sceneId})
      && (forall id :: id in st.scenes && id !in done + {scene.sceneId} ==> u.scenes[id] == st.scenes[id])
  {
    UpsertKeepsValid(before, source, scene);
    UpsertStores(before, source, scene);
  }

  /** With distinct ids, each incoming scene is what ends up stored under its id. */
  lemma {:induction false} UpsertAllStoresEach(st: StoreState, source: StoreUpdateSource, scenes: seq<Scene>)
    requires DistinctIds(scenes)
    ensures forall i :: 0 <= i < |scenes| ==>
      scenes[i].sceneId in UpsertAll(st, source, scenes).scenes &&
      UpsertAll(st, source, scenes).scenes[scenes[i].sceneId] == scenes[i]
    decreases |scenes|
  {
    if |scenes| > 0 {
      var n := |scenes| - 1;
      var prefix := scenes[..n];
      assert DistinctIds(prefix);
      UpsertAllStoresEach(st, source, prefix);
      var before := UpsertAll(st, source, prefix);
      UpsertStores(before, source, scenes[n]);
      forall i | 0 <= i < n
        ensures scenes[i].sceneId in UpsertAll(st, source, scenes).scenes
        ensures UpsertAll(st, source, scenes).scenes[scenes[i].sceneId] == scenes[i]
      {
        assert prefix[i] == scenes[i];
      }
    }
  }

  lemma {:induction false} DeleteAbsentEffect(st: StoreState, source: StoreUpdateSource, keys: seq<string>, keep: set<string>)
    requires ValidState(st)
    ensures var d := DeleteAbsent(st, source, keys, keep);
      && ValidState(d)
      && d.scenes.Keys == st.scenes.Keys - (Elements(keys) - keep)
      && (forall id :: id in d.scenes ==> d.scenes[id] == st.scenes[id])
    decreases |keys|
  {
    if |keys| > 0 {
      var n := |keys| - 1;
      DeleteAbsentEffect(st, source, keys[..n], keep);
      DeleteKeepsValid(DeleteAbsent(st, source, keys[..n], keep), source, keys[n]);
      assert keys == keys[..n] + [keys[n]];
      assert Elements(keys) == Elements(keys[..n]) + {keys[n]};
    }
  }

  /**
   * After `setScenes` the stored ids are exactly the incoming ids and the
   * declaration order is the incoming ids in input order, whatever the store
   * held before.
   */
  lemma SetScenesKeysAndOrder(st: StoreState, source: StoreUpdateSource, scenes: seq<Scene>)
    requires ValidState(st)
    ensures var r := SetAll(st, source, scenes);
      && ValidState(r)
      && r.scenes.Keys == Elements(Ids(scenes))
      && r.order == Ids(scenes)
      && Synced(r)
  {
    var u := UpsertAll(st, source, scenes);
    UpsertAllEffect(st, source, scenes);
    DeleteAbsentEffect(u, source, u.keys, Elements(Ids(scenes)));
  }

  /** Reading back, in id order, a map that holds each scene under its id gives the scenes. */
  lemma ReadBackInOrder(stored: map<string, Scene>, scenes: seq<Scene>)
    requires forall i :: 0 <= i < |scenes| ==> scenes[i].sceneId in stored && stored[scenes[i].sceneId] == scenes[i]
    ensures ScenesInOrder(stored, Ids(scenes)) == Some(scenes)
  {
    var got := ScenesInOrder(stored, Ids(scenes));
    assert got.Some?;
    assert got.value == scenes;
  }

  /** `setScenes` of scenes with distinct ids, then `getScenes`, gives back exactly those scenes. */
  lemma SetScenesThenGetScenes(st: StoreState, source: StoreUpdateSource, scenes: seq<Scene>)
    requires ValidState(st) && DistinctIds(scenes)
    ensures var r := SetAll(st, source, scenes); ScenesInOrder(r.scenes, r.order) == Some(scenes)
  {
    var keep := Elements(Ids(scenes));
    var u := UpsertAll(st, source, scenes);
    UpsertAllEffect(st, source, scenes);
    UpsertAllStoresEach(st, source, scenes);
    DeleteAbsentEffect(u, source, u.keys, keep);
    var d := DeleteAbsent(u, source, u.keys, keep);
    forall i | 0 <= i < |scenes|
      ensures scenes[i].sceneId in d.scenes && d.scenes[scenes[i].sceneId] == scenes[i]
    {
      assert Ids(scenes)[i] == scenes[i].sceneId;
    }
    ReadBackInOrder(d.scenes, scenes);
  }

  // ------------------------------------------------------------ when getScenes fails

  lemma SyncedScenesInOrder(st: StoreState)
    requires Synced(st)
    ensures ScenesInOrder(st.scenes, st.order).Some?
  {
  }

  /** Upserts never make `getScenes` fail: they only add to the map. */
  lemma UpsertKeepsSynced(st: StoreState, source: StoreUpdateSource, scene: Scene)
    requires Synced(st)
    ensures Synced(Upsert(st, source, scene))
  {
  }

  /** A delete from the webview removes the id from the order as well. */
  lemma WebviewDeleteKeepsSynced(st: StoreState, id: string)
    requires Synced(st)
    ensures Synced(Delete(st, Webview, id))
  {
  }

  /**
   * A delete from the extension of an ordered id leaves the id in the order but
   * not in the map, so `getScenes` then returns `null`.
   */
  lemma ExtensionDeleteBreaksGetScenes(st: StoreState, id: string)
    requires id in st.scenes && id in st.order
    ensures ScenesInOrder(Delete(st, Extension, id).scenes, Delete(st, Extension, id).order).None?
  {
    var r := Delete(st, Extension, id);
    var i :| 0 <= i < |r.order| && r.order[i] == id;
    assert r.order[i] !in r.scenes;
  }

  /** The failure is reachable from the empty store in two operations. */
  lemma ExtensionDeleteAfterWebviewCreate(scene: Scene)
    ensures var st := Delete(Upsert(EmptyStore, Webview, scene), Extension, scene.sceneId);
      ScenesInOrder(st.scenes, st.order) == None
  {
    var created := Upsert(EmptyStore, Webview, scene);
    assert created.order == [scene.sceneId];
    ExtensionDeleteBreaksGetScenes(created, scene.sceneId);
  }

  // ------------------------------------------------------------ the store object

  /** `DialogueStore`: the store state held in fields and updated in place. */
  class DialogueStore {
    var dialogueMap: map<string, Scene>
    /** The enumeration order of `dialogueMap`. */
    var mapKeys: seq<string>
    var sceneTagOrder: seq<string>
    /** Every message emitted to the create, update and delete listeners, in order. */
    var events: seq<StoreMessage>

    function State(): StoreState
      reads this
    {
      StoreState(dialogueMap, mapKeys, sceneTagOrder, events)
    }

    ghost predicate Valid()
      reads this
    {
      ValidState(State())
    }

    constructor ()
      ensures Valid() && State() == EmptyStore
    {
      dialogueMap, mapKeys, sceneTagOrder, events := map[], [], [], [];
    }

    method UpsertScene(source: StoreUpdateSource, scene: Scene)
      requires Valid()
      modifies this
      ensures Valid() && State() == Upsert(old(State()), source, scene)
    {
      UpsertKeepsValid(State(), source, scene);
      var sceneTag := scene.sceneId;
      var isNew := sceneTag !in dialogueMap;
      if !isNew && dialogueMap[sceneTag] == scene {
        return;
      }
      var existing := if isNew then scene else dialogueMap[sceneTag];
      dialogueMap := dialogueMap[sceneTag := scene];
      if isNew {
        mapKeys := mapKeys + [sceneTag];
        if source != Extension {
          sceneTagOrder := sceneTagOrder + [sceneTag];
        }
        events := events + [CreateScene(source, sceneTag, scene)];
      } else {
        var changes := CompareScenes(existing, scene);
        events := events + [UpdateScene(source, sceneTag, scene, changes)];
      }
    }

    method DeleteScene(source: StoreUpdateSource, sceneTag: string)
      requires Valid()
      modifies this
      ensures Valid() && State() == Delete(old(State()), source, sceneTag)
    {
      DeleteKeepsValid(State(), source, sceneTag);
      var elementExisted := sceneTag in dialogueMap;
      if !elementExisted {
        return;
      }
      dialogueMap := dialogueMap - {sceneTag};
      mapKeys := RemoveAll(mapKeys, sceneTag);
      if source != Extension {
        sceneTagOrder := RemoveAll(sceneTagOrder, sceneTag);
      }
      events := events + [StoreMessage.DeleteScene(source, sceneTag)];
    }

    /** The first loop of `setScenes`. */
    method UpsertEach(source: StoreUpdateSource, scenes: seq<Scene>) returns (ids: seq<string>)
      requires Valid()
      modifies this
      ensures Valid() && State() == UpsertAll(old(State()), source, scenes)
      ensures ids == Ids(scenes)
    {
      ids := [];
      for i := 0 to |scenes|
        invariant Valid()
        invariant ids == Ids(scenes[..i])
        invariant State() == UpsertAll(old(State()), source, scenes[..i])
      {
        ids := ids + [scenes[i].sceneId];
        assert Ids(scenes[..i + 1]) == Ids(scenes[..i]) + [scenes[i].sceneId];
        UpsertAllLast(old(State()), source, scenes, i);
        UpsertScene(source, scenes[i]);
      }
      assert scenes[..|scenes|] == scenes;
    }

    /** The second loop of `setScenes`. */
    method DeleteEachAbsent(source: StoreUpdateSource, keep: set<string>)
      requires Valid()
      modifies this
      ensures Valid() && State() == DeleteAbsent(old(State()), source, old(mapKeys), keep)
    {
      var present := mapKeys;
      for j := 0 to |present|
        invariant Valid()
        invariant State() == DeleteAbsent(old(State()), source, present[..j], keep)
      {
        assert present[..j + 1][..j] == present[..j];
        if present[j] !in keep {
          DeleteScene(source, present[j]);
        }
      }
      assert present[..|present|] == present;
    }

    method SetScenes(source: StoreUpdateSource, scenes: seq<Scene>)
      requires Valid()
      modifies this
      ensures Valid() && State() == SetAll(old(State()), source, scenes)
    {
      var newOrder := UpsertEach(source, scenes);
      var newIdSet := set id | id in newOrder;
      assert newIdSet == Elements(Ids(scenes));
      DeleteEachAbsent(source, newIdSet);
      sceneTagOrder := newOrder;
    }

    method GetScenes() returns (r: Option<seq<Scene>>)
      ensures r == ScenesInOrder(dialogueMap, sceneTagOrder)
    {
      var orderedScenes: seq<Scene> := [];
      for i := 0 to |sceneTagOrder|
        invariant |orderedScenes| == i
        invariant forall k :: 0 <= k < i ==> sceneTagOrder[k] in dialogueMap && orderedScenes[k] == dialogueMap[sceneTagOrder[k]]
      {
        var id := sceneTagOrder[i];
        if id !in dialogueMap {
          assert sceneTagOrder[i] !in dialogueMap;
          return None;
        }
        orderedScenes := orderedScenes + [dialogueMap[id]];
      }
      r := Some(orderedScenes);
      var expected := ScenesInOrder(dialogueMap, sceneTagOrder);
      assert expected.Some?;
      assert expected.value == orderedScenes;
    }

    function GetSceneMessages(): (messages: seq<GenericSceneMessage>)
      reads this
      requires Valid()
      ensures messages == SceneMessages(State())
    {
      SceneMessages(State())
    }
  }
}
