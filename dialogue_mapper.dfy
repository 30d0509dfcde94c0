/**
 * Conversion between the in-memory `Scene` and its JSON record `SceneData`.
 * Reading fills missing fields with `""` or `[]`; writing turns empty values
 * back into missing fields so that the JSON file holds no empty entries.
 */
module DialogueMapper {
  import opened Wrappers
  import opened Scenes

  function FromButtonData(raw: ButtonData): (b: Button)
    ensures b.displayName == raw.name && b.commands == raw.commands
  {
    Button(raw.name, raw.commands)
  }

  function ToButtonData(button: Button): (d: ButtonData)
    ensures d.name == button.displayName && d.commands == button.commands
  {
    ButtonData(button.displayName, button.commands)
  }

  /** `buttons.map(fromButtonData)`. */
  function FromButtons(raw: seq<ButtonData>): (bs: seq<Button>)
    ensures |bs| == |raw|
    ensures forall i :: 0 <= i < |raw| ==> bs[i] == FromButtonData(raw[i])
  {
    seq(|raw|, i requires 0 <= i < |raw| => FromButtonData(raw[i]))
  }

  /** `buttons.map(toButtonData)`. */
  function ToButtons(buttons: seq<Button>): (ds: seq<ButtonData>)
    ensures |ds| == |buttons|
    ensures forall i :: 0 <= i < |buttons| ==> ds[i] == ToButtonData(buttons[i])
  {
    seq(|buttons|, i requires 0 <= i < |buttons| => ToButtonData(buttons[i]))
  }

  /** Reads a JSON record; missing strings become `""`, missing lists `[]`. */
  function FromSceneData(raw: SceneData): (s: Scene)
    ensures s.sceneId == raw.sceneTag
    ensures raw.npcName.None? ==> s.npcName == ""
    ensures raw.text.None? ==> s.sceneText == ""
    ensures raw.buttons.None? ==> s.buttons == []
    ensures raw.onOpenCommands.None? ==> s.openCommands == []
    ensures raw.onCloseCommands.None? ==> s.closeCommands == []
    ensures raw.buttons.Some? ==> |s.buttons| == |raw.buttons.value|
  {
    Scene(
      raw.sceneTag,
      raw.npcName.GetOr(""),
      raw.text.GetOr(""),
      if raw.buttons.Some? then FromButtons(raw.buttons.value) else [],
      raw.onOpenCommands.GetOr([]),
      raw.onCloseCommands.GetOr([]))
  }

  /** `value === "" ? undefined : value` */
  function OmitEmptyText(value: string): Option<string> {
    if value == "" then None else Some(value)
  }

  /** `value.length === 0 ? undefined : value` */
  function OmitEmptyList<T>(value: seq<T>): Option<seq<T>> {
    if |value| == 0 then None else Some(value)
  }

  /** Writes a JSON record; empty strings and empty lists are left out. */
  function ToSceneData(scene: Scene): (d: SceneData)
    ensures d.sceneTag == scene.sceneId
    ensures d.npcName.None? <==> scene.npcName == ""
    ensures d.text.None? <==> scene.sceneText == ""
    ensures d.buttons.None? <==> scene.buttons == []
    ensures d.onOpenCommands.None? <==> scene.openCommands == []
    ensures d.onCloseCommands.None? <==> scene.closeCommands == []
    ensures d.npcName.Some? ==> d.npcName.value == scene.npcName
    ensures d.text.Some? ==> d.text.value == scene.sceneText
    ensures d.onOpenCommands.Some? ==> d.onOpenCommands.value == scene.openCommands
    ensures d.onCloseCommands.Some? ==> d.onCloseCommands.value == scene.closeCommands
    ensures d.buttons.Some? ==> |d.buttons.value| == |scene.buttons|
  {
    SceneData(
      scene.sceneId,
      OmitEmptyText(scene.npcName),
      OmitEmptyText(scene.sceneText),
      OmitEmptyList(ToButtons(scene.buttons)),
      OmitEmptyList(scene.openCommands),
      OmitEmptyList(scene.closeCommands))
  }

  /** A record as `ToSceneData` writes it: no field present with an empty value. */
  predicate Canonical(d: SceneData) {
    && d.npcName != Some("")
    && d.text != Some("")
    && d.buttons != Some([])
    && d.onOpenCommands != Some([])
    && d.onCloseCommands != Some([])
  }

  lemma ButtonRoundTrips(b: Button, d: ButtonData)
    ensures FromButtonData(ToButtonData(b)) == b
    ensures ToButtonData(FromButtonData(d)) == d
  {
  }

  lemma {:induction false} ButtonListRoundTrips(bs: seq<Button>, ds: seq<ButtonData>)
    ensures FromButtons(ToButtons(bs)) == bs
    ensures ToButtons(FromButtons(ds)) == ds
  {
    forall i | 0 <= i < |bs| ensures FromButtons(ToButtons(bs))[i] == bs[i] {
      ButtonRoundTrips(bs[i], ToButtonData(bs[i]));
    }
    forall i | 0 <= i < |ds| ensures ToButtons(FromButtons(ds))[i] == ds[i] {
      ButtonRoundTrips(FromButtonData(ds[i]), ds[i]);
    }
  }

  /** Writing a scene and reading it back gives the same scene. */
  lemma {:induction false} SceneRoundTrip(s: Scene)
    ensures FromSceneData(ToSceneData(s)) == s
  {
    ButtonListRoundTrips(s.buttons, []);
  }

  /** Every record `ToSceneData` writes is canonical. */
  lemma WrittenIsCanonical(s: Scene)
    ensures Canonical(ToSceneData(s))
  {
  }

  /**
   * Reading then writing a record gives it back exactly when it is canonical;
   * otherwise its empty fields are dropped.
   */
  lemma {:induction false} ReadWriteIdentityIffCanonical(d: SceneData)
    ensures ToSceneData(FromSceneData(d)) == d <==> Canonical(d)
  {
    WrittenIsCanonical(FromSceneData(d));
    if Canonical(d) {
      if d.buttons.Some? {
        ButtonListRoundTrips([], d.buttons.value);
      }
    }
  }

  /** Normalising a record (read, then write) is idempotent. */
  lemma {:induction false} NormaliseIdempotent(d: SceneData)
    ensures ToSceneData(FromSceneData(ToSceneData(FromSceneData(d)))) == ToSceneData(FromSceneData(d))
  {
    SceneRoundTrip(FromSceneData(d));
  }

  /** The scene tag and the buttons, in order, survive both directions. */
  lemma {:induction false} TagAndButtonsPreserved(s: Scene, d: SceneData)
    ensures ToSceneData(s).sceneTag == s.sceneId && FromSceneData(d).sceneId == d.sceneTag
    ensures ToSceneData(s).buttons.GetOr([]) == ToButtons(s.buttons)
    ensures FromSceneData(d).buttons == FromButtons(d.buttons.GetOr([]))
  {
  }
}
