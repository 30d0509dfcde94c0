/** The origin tag, the change-size verdict and the messages the scene store emits. */
module StoreMessages {
  import opened Wrappers
  import opened Scenes

  /** Who changed the store: re-reading the document, or the graph editor. */
  datatype StoreUpdateSource = Extension | Webview

  /** The change-size verdict of one scene edit; only a minor change names the edited field. */
  datatype StoreSceneUpdateInfo = MajorChange | MinorChange(changeId: string) | NoChange

  /** The three store messages; every one carries the scene id and its origin. */
  datatype StoreMessage =
    | CreateScene(messageSource: StoreUpdateSource, sceneId: string, sceneData: Scene)
    | UpdateScene(messageSource: StoreUpdateSource, sceneId: string, sceneData: Scene, updateInfo: StoreSceneUpdateInfo)
    | DeleteScene(messageSource: StoreUpdateSource, sceneId: string)

  /** The scene a message carries: create and update messages carry one, delete messages none. */
  function SceneDataOf(m: StoreMessage): (r: Option<Scene>)
    ensures r.Some? <==> !m.DeleteScene?
    ensures m.CreateScene? || m.UpdateScene? ==> r == Some(m.sceneData)
  {
    match m
    case CreateScene(_, _, scene) => Some(scene)
    case UpdateScene(_, _, scene, _) => Some(scene)
    case DeleteScene(_, _) => None
  }

  /** The verdict a message carries: only update messages carry one. */
  function UpdateInfoOf(m: StoreMessage): (r: Option<StoreSceneUpdateInfo>)
    ensures r.Some? <==> m.UpdateScene?
    ensures m.UpdateScene? ==> r == Some(m.updateInfo)
  {
    if m.UpdateScene? then Some(m.updateInfo) else None
  }

  /** The changed field a verdict names: only a minor verdict names one. */
  function ChangeIdOf(info: StoreSceneUpdateInfo): (r: Option<string>)
    ensures r.Some? <==> info.MinorChange?
    ensures info.MinorChange? ==> r == Some(info.changeId)
  {
    if info.MinorChange? then Some(info.changeId) else None
  }
}
