/**
 * The dialogue scene model shared by the extension and the webview: the
 * in-memory `Scene`/`Button` values and their JSON records `SceneData`/`ButtonData`
 * (whose optional fields may be missing from the file).
 */
module Scenes {
  import opened Wrappers

  datatype Button = Button(displayName: string, commands: seq<string>)

  /**
   * One dialogue node. `sceneId` is the `scene_tag` of the JSON file; `sceneText`
   * is newline-delimited text.
   */
  datatype Scene = Scene(
    sceneId: string,
    npcName: string,
    sceneText: string,
    buttons: seq<Button>,
    openCommands: seq<string>,
    closeCommands: seq<string>)

  /** `{ name, commands }` in the JSON file. */
  datatype ButtonData = ButtonData(name: string, commands: seq<string>)

  /**
   * `{ scene_tag, npc_name?, text?, buttons?, on_open_commands?, on_close_commands? }`
   * in the JSON file; `None` is a missing field.
   */
  datatype SceneData = SceneData(
    sceneTag: string,
    npcName: Option<string>,
    text: Option<string>,
    buttons: Option<seq<ButtonData>>,
    onOpenCommands: Option<seq<string>>,
    onCloseCommands: Option<seq<string>>)

  /** A `createScene` message without an origin, used to refresh the webview. */
  datatype GenericSceneMessage = GenericCreateScene(sceneId: string, sceneData: Scene)
}
