/**
 * Grouping a scene's button and command nodes around the scene node. The
 * layered layout of each tree is computed by the dagre library, which is not
 * modelled: its output, a relative position for every node of each tree, is
 * an input here. What is modelled is the arithmetic that moves both trees onto
 * the scene's position, drops the buttons below the commands, scales, and
 * merges the two position tables.
 */
module DagreLayout {
  import opened Sequences
  import opened Positions

  /** The parts of a logical scene the grouping needs: its id and the ids of its button slots and commands. */
  datatype LogicalScene = LogicalScene(sceneId: string, slotIds: seq<string>, commandIds: seq<string>)

  const ButtonOffset: real := 60.0
  const DefaultScale: real := 5.0

  /** The nodes of the button tree: the scene and its button slots. */
  function ButtonNodes(scene: LogicalScene): seq<string> {
    [scene.sceneId] + scene.slotIds
  }

  /** The nodes of the command tree: the scene and its commands. */
  function CommandNodes(scene: LogicalScene): seq<string> {
    [scene.sceneId] + scene.commandIds
  }

  /** The layout library placed exactly the nodes of each tree. */
  ghost predicate LaidOut(scene: LogicalScene, buttonLayout: map<string, Pos>, commandLayout: map<string, Pos>) {
    && buttonLayout.Keys == Elements(ButtonNodes(scene))
    && commandLayout.Keys == Elements(CommandNodes(scene))
  }

  function Shift(p: Pos, dx: real, dy: real): Pos {
    Pos(p.x + dx, p.y + dy)
  }

  function Scale(p: Pos, scale: real): Pos {
    Pos(p.x * scale, p.y * scale)
  }

  /** Every node of a layout, shifted by the same amount. */
  function Translated(layout: map<string, Pos>, dx: real, dy: real): map<string, Pos> {
    map id | id in layout :: Shift(layout[id], dx, dy)
  }

  /** Every button node, moved so that the scene node lands on `scenePosition`. */
  function ButtonPositions(root: string, scenePosition: Pos, buttonLayout: map<string, Pos>): map<string, Pos>
    requires root in buttonLayout
  {
    var parent := buttonLayout[root];
    Translated(buttonLayout, scenePosition.x - parent.x, scenePosition.y - parent.y)
  }

  /**
   * Every command node, moved across so the scene node lands on the scene's x,
   * and down by the same amount as the button tree (the vertical shift is
   * taken from the button tree's scene node).
   */
  function CommandPositions(root: string, scenePosition: Pos, buttonLayout: map<string, Pos>, commandLayout: map<string, Pos>): map<string, Pos>
    requires root in buttonLayout && root in commandLayout
  {
    var parent := commandLayout[root];
    Translated(commandLayout, scenePosition.x - parent.x, scenePosition.y - buttonLayout[root].y)
  }

  /** The buttons other than the scene node, moved, dropped by the button offset and scaled. */
  function MovedButtons(buttons: map<string, Pos>, root: string, dx: real, dy: real, scale: real): map<string, Pos> {
    map id | id in buttons && id != root :: Scale(Shift(buttons[id], dx, dy + ButtonOffset), scale)
  }

  /** Every command node, scaled. */
  function ScaledCommands(commands: map<string, Pos>, scale: real): map<string, Pos> {
    map id | id in commands :: Scale(commands[id], scale)
  }

  /** The moved buttons merged with the scaled commands; a command wins where both hold a node. */
  function Combined(buttons: map<string, Pos>, commands: map<string, Pos>, root: string, offset: Pos, scale: real): map<string, Pos> {
    MovedButtons(buttons, root, offset.x, offset.y, scale) + ScaledCommands(commands, scale)
  }

  /**
   * `groupAroundScene(scene, scenePosition, scale)` with the two dagre layouts
   * given: the translated buttons when the scene has no commands; otherwise the
   * buttons moved into the command tree's frame, dropped by the button offset
   * and scaled, without the scene node, merged with the scaled commands.
   */
  function Grouped(scene: LogicalScene, scenePosition: Pos, buttonLayout: map<string, Pos>, commandLayout: map<string, Pos>, scale: real): map<string, Pos>
    requires scene.sceneId in buttonLayout && scene.sceneId in commandLayout
  {
    var root := scene.sceneId;
    var buttons := ButtonPositions(root, scenePosition, buttonLayout);
    var commands := CommandPositions(root, scenePosition, buttonLayout, commandLayout);
    if |scene.commandIds| == 0 then buttons
    else
      var parentSceneOffset := Pos(commandLayout[root].x - buttonLayout[root].x, commandLayout[root].y - buttonLayout[root].y);
      Combined(buttons, commands, root, parentSceneOffset, scale)
  }

  // ------------------------------------------------------------ properties

  /** The button tree is moved rigidly, and its scene node lands exactly on the scene's position. */
  lemma ButtonTreeLandsOnScene(root: string, scenePosition: Pos, buttonLayout: map<string, Pos>)
    requires root in buttonLayout
    ensures var b := ButtonPositions(root, scenePosition, buttonLayout);
      && b.Keys == buttonLayout.Keys
      && b[root] == scenePosition
      && forall id :: id in b ==>
        b[id].x - buttonLayout[id].x == scenePosition.x - buttonLayout[root].x &&
        b[id].y - buttonLayout[id].y == scenePosition.y - buttonLayout[root].y
  {
  }

  /**
   * The command tree is moved rigidly too: across by the command tree's own
   * scene node, down by the button tree's.
   */
  lemma CommandTreeShift(root: string, scenePosition: Pos, buttonLayout: map<string, Pos>, commandLayout: map<string, Pos>)
    requires root in buttonLayout && root in commandLayout
    ensures var c := CommandPositions(root, scenePosition, buttonLayout, commandLayout);
      && c.Keys == commandLayout.Keys
      && c[root] == Pos(scenePosition.x, scenePosition.y + commandLayout[root].y - buttonLayout[root].y)
      && forall id :: id in c ==>
        c[id].x - commandLayout[id].x == scenePosition.x - commandLayout[root].x &&
        c[id].y - commandLayout[id].y == scenePosition.y - buttonLayout[root].y
  {
  }

  /** Without commands the result is the unscaled button tree, scene node included, on the scene's position. */
  lemma NoCommandsGivesButtons(scene: LogicalScene, scenePosition: Pos, buttonLayout: map<string, Pos>, commandLayout: map<string, Pos>, scale: real)
    requires LaidOut(scene, buttonLayout, commandLayout) && |scene.commandIds| == 0
    ensures var r := Grouped(scene, scenePosition, buttonLayout, commandLayout, scale);
      && r.Keys == Elements(ButtonNodes(scene))
      && r[scene.sceneId] == scenePosition
      && forall id :: id in r ==> r[id] == Shift(buttonLayout[id], scenePosition.x - buttonLayout[scene.sceneId].x, scenePosition.y - buttonLayout[scene.sceneId].y)
  {
  }

  /** With commands the result holds every command-tree node and every button node other than the scene. */
  lemma WithCommandsKeys(scene: LogicalScene, scenePosition: Pos, buttonLayout: map<string, Pos>, commandLayout: map<string, Pos>, scale: real)
    requires LaidOut(scene, buttonLayout, commandLayout) && |scene.commandIds| > 0
    ensures Grouped(scene, scenePosition, buttonLayout, commandLayout, scale).Keys ==
      (Elements(scene.slotIds) - {scene.sceneId}) + Elements(CommandNodes(scene))
  {
    assert Elements(ButtonNodes(scene)) == {scene.sceneId} + Elements(scene.slotIds);
  }

  /**
   * With commands, a button-tree node other than the scene node, which the
   * command tree does not also hold, is its translated position moved by the
   * difference of the two trees' scene nodes, dropped and scaled.
   */
  lemma GroupedButton(scene: LogicalScene, scenePosition: Pos, buttonLayout: map<string, Pos>, commandLayout: map<string, Pos>, scale: real, id: string)
    requires scene.sceneId in buttonLayout && scene.sceneId in commandLayout && |scene.commandIds| > 0
    requires id in buttonLayout && id != scene.sceneId && id !in commandLayout
    ensures var root := scene.sceneId;
      var r := Grouped(scene, scenePosition, buttonLayout, commandLayout, scale);
      id in r &&
      r[id] == Scale(Shift(ButtonPositions(root, scenePosition, buttonLayout)[id],
                           commandLayout[root].x - buttonLayout[root].x,
                           commandLayout[root].y - buttonLayout[root].y + ButtonOffset), scale)
  {
    var root := scene.sceneId;
    var buttons := ButtonPositions(root, scenePosition, buttonLayout);
    var commands := CommandPositions(root, scenePosition, buttonLayout, commandLayout);
    var offset := Pos(commandLayout[root].x - buttonLayout[root].x, commandLayout[root].y - buttonLayout[root].y);
    assert Grouped(scene, scenePosition, buttonLayout, commandLayout, scale) == Combined(buttons, commands, root, offset, scale);
    assert id in buttons && id !in commands;
    assert id !in ScaledCommands(commands, scale);
  }

  /** With commands, a command-tree node is its translated position, scaled. */
  lemma GroupedCommand(scene: LogicalScene, scenePosition: Pos, buttonLayout: map<string, Pos>, commandLayout: map<string, Pos>, scale: real, id: string)
    requires scene.sceneId in buttonLayout && scene.sceneId in commandLayout && |scene.commandIds| > 0
    requires id in commandLayout
    ensures var r := Grouped(scene, scenePosition, buttonLayout, commandLayout, scale);
      id in r && r[id] == Scale(CommandPositions(scene.sceneId, scenePosition, buttonLayout, commandLayout)[id], scale)
  {
    var root := scene.sceneId;
    var buttons := ButtonPositions(root, scenePosition, buttonLayout);
    var commands := CommandPositions(root, scenePosition, buttonLayout, commandLayout);
    var offset := Pos(commandLayout[root].x - buttonLayout[root].x, commandLayout[root].y - buttonLayout[root].y);
    assert Grouped(scene, scenePosition, buttonLayout, commandLayout, scale) == Combined(buttons, commands, root, offset, scale);
    assert id in commands;
  }

  /**
   * With commands, such a button node is at its relative position moved by the
   * scene and by both trees' scene nodes, dropped by the button offset, and
   * scaled.
   */
  lemma WithCommandsButtonFormula(scene: LogicalScene, scenePosition: Pos, buttonLayout: map<string, Pos>, commandLayout: map<string, Pos>, scale: real, id: string)
    requires scene.sceneId in buttonLayout && scene.sceneId in commandLayout && |scene.commandIds| > 0
    requires id in buttonLayout && id != scene.sceneId && id !in commandLayout
    ensures var root := scene.sceneId;
      var b, bRoot, cRoot := buttonLayout[id], buttonLayout[root], commandLayout[root];
      var r := Grouped(scene, scenePosition, buttonLayout, commandLayout, scale);
      id in r &&
      r[id] == Scale(Pos(b.x + (scenePosition.x - bRoot.x) + (cRoot.x - bRoot.x),
                         b.y + (scenePosition.y - bRoot.y) + (cRoot.y - bRoot.y) + 60.0), scale)
  {
    var root := scene.sceneId;
    var b, bRoot, cRoot := buttonLayout[id], buttonLayout[root], commandLayout[root];
    GroupedButton(scene, scenePosition, buttonLayout, commandLayout, scale, id);
    var translated := ButtonPositions(root, scenePosition, buttonLayout)[id];
    assert translated == Shift(b, scenePosition.x - bRoot.x, scenePosition.y - bRoot.y);
    var inner := Shift(translated, cRoot.x - bRoot.x, cRoot.y - bRoot.y + ButtonOffset);
    assert inner == Pos(b.x + (scenePosition.x - bRoot.x) + (cRoot.x - bRoot.x),
                        b.y + (scenePosition.y - bRoot.y) + (cRoot.y - bRoot.y) + 60.0);
  }

  /** With commands, a command-tree node is at its relative position moved by the scene, scaled. */
  lemma WithCommandsCommandFormula(scene: LogicalScene, scenePosition: Pos, buttonLayout: map<string, Pos>, commandLayout: map<string, Pos>, scale: real, id: string)
    requires scene.sceneId in buttonLayout && scene.sceneId in commandLayout && |scene.commandIds| > 0
    requires id in commandLayout
    ensures var c := commandLayout[id];
      var r := Grouped(scene, scenePosition, buttonLayout, commandLayout, scale);
      id in r &&
      r[id] == Scale(Pos(c.x + scenePosition.x - commandLayout[scene.sceneId].x,
                         c.y + scenePosition.y - buttonLayout[scene.sceneId].y), scale)
  {
    GroupedCommand(scene, scenePosition, buttonLayout, commandLayout, scale, id);
    var c := commandLayout[id];
    assert CommandPositions(scene.sceneId, scenePosition, buttonLayout, commandLayout)[id]
      == Pos(c.x + scenePosition.x - commandLayout[scene.sceneId].x, c.y + scenePosition.y - buttonLayout[scene.sceneId].y);
  }

  /**
   * With commands, the scene node itself comes from the command tree and is
   * scaled like every other node: when the two trees put their scene nodes at
   * the same height it sits on `scale` times the scene's position, not on the
   * scene's position.
   */
  lemma WithCommandsSceneNode(scene: LogicalScene, scenePosition: Pos, buttonLayout: map<string, Pos>, commandLayout: map<string, Pos>, scale: real)
    requires scene.sceneId in buttonLayout && scene.sceneId in commandLayout && |scene.commandIds| > 0
    requires commandLayout[scene.sceneId].y == buttonLayout[scene.sceneId].y
    ensures var r := Grouped(scene, scenePosition, buttonLayout, commandLayout, scale);
      scene.sceneId in r && r[scene.sceneId] == Scale(scenePosition, scale)
  {
    var root := scene.sceneId;
    GroupedCommand(scene, scenePosition, buttonLayout, commandLayout, scale, root);
    assert CommandPositions(root, scenePosition, buttonLayout, commandLayout)[root] == scenePosition;
  }

  /**
   * A button and a command placed at the same spot relative to their own
   * tree's scene node end up, before scaling, the button offset apart
   * vertically, the button below; horizontally they are apart by the
   * difference of the two trees' scene nodes, which the button tree receives
   * on top of its own translation.
   */
  lemma ButtonsSitBelowCommands(scene: LogicalScene, scenePosition: Pos, buttonLayout: map<string, Pos>, commandLayout: map<string, Pos>, scale: real, button: string, command: string)
    requires scene.sceneId in buttonLayout && scene.sceneId in commandLayout && |scene.commandIds| > 0
    requires button in buttonLayout && button != scene.sceneId && button !in commandLayout && command in commandLayout
    requires buttonLayout[button].x - buttonLayout[scene.sceneId].x == commandLayout[command].x - commandLayout[scene.sceneId].x
    requires buttonLayout[button].y - buttonLayout[scene.sceneId].y == commandLayout[command].y - commandLayout[scene.sceneId].y
    ensures var r := Grouped(scene, scenePosition, buttonLayout, commandLayout, scale);
      var bRoot, cRoot := buttonLayout[scene.sceneId], commandLayout[scene.sceneId];
      var q := Pos(commandLayout[command].x + scenePosition.x - cRoot.x, commandLayout[command].y + scenePosition.y - bRoot.y);
      && button in r && command in r
      && r[command] == Scale(q, scale)
      && r[button] == Scale(Shift(q, cRoot.x - bRoot.x, ButtonOffset), scale)
  {
    WithCommandsButtonFormula(scene, scenePosition, buttonLayout, commandLayout, scale, button);
    WithCommandsCommandFormula(scene, scenePosition, buttonLayout, commandLayout, scale, command);
    var root := scene.sceneId;
    var b, c := buttonLayout[button], commandLayout[command];
    var bRoot, cRoot := buttonLayout[root], commandLayout[root];
    var q := Pos(c.x + scenePosition.x - cRoot.x, c.y + scenePosition.y - bRoot.y);
    assert Pos(b.x + (scenePosition.x - bRoot.x) + (cRoot.x - bRoot.x), b.y + (scenePosition.y - bRoot.y) + (cRoot.y - bRoot.y) + 60.0)
      == Shift(q, cRoot.x - bRoot.x, ButtonOffset);
  }

  // ------------------------------------------------------------ the loops

  /** One translating loop: read each node's dagre position and shift it. */
  method TranslateNodes(nodes: seq<string>, layout: map<string, Pos>, dx: real, dy: real) returns (positions: map<string, Pos>)
    requires Elements(nodes) == layout.Keys
    ensures positions == Translated(layout, dx, dy)
  {
    positions := map[];
    for i := 0 to |nodes|
      invariant positions.Keys == Elements(nodes[..i])
      invariant forall id :: id in positions ==> positions[id] == Shift(layout[id], dx, dy)
    {
      assert nodes[i] in Elements(nodes);
      var n := layout[nodes[i]];
      positions := positions[nodes[i] := Pos(n.x + dx, n.y + dy)];
      assert nodes[..i + 1] == nodes[..i] + [nodes[i]];
    }
    assert nodes[..|nodes|] == nodes;
  }

  /** The loop over the translated buttons: move, drop and scale each, skipping the scene node. */
  method MoveButtons(nodes: seq<string>, buttons: map<string, Pos>, root: string, offsetX: real, offsetY: real, scale: real)
    returns (combined: map<string, Pos>)
    requires buttons.Keys == Elements(nodes)
    ensures combined == MovedButtons(buttons, root, offsetX, offsetY, scale)
  {
    combined := map[];
    for i := 0 to |nodes|
      invariant combined.Keys == Elements(nodes[..i]) - {root}
      invariant forall id :: id in combined ==> combined[id] == Scale(Shift(buttons[id], offsetX, offsetY + ButtonOffset), scale)
    {
      var buttonId := nodes[i];
      assert nodes[..i + 1] == nodes[..i] + [buttonId];
      assert buttonId in Elements(nodes);
      var buttonPosition := Scale(Shift(buttons[buttonId], offsetX, offsetY + ButtonOffset), scale);
      if buttonId == root {
        continue;
      }
      combined := combined[buttonId := buttonPosition];
    }
    assert nodes[..|nodes|] == nodes;
  }

  /** The loop over the translated commands: scale each into the combined record. */
  method AddCommands(nodes: seq<string>, commands: map<string, Pos>, scale: real, moved: map<string, Pos>)
    returns (combined: map<string, Pos>)
    requires commands.Keys == Elements(nodes)
    ensures combined == moved + ScaledCommands(commands, scale)
  {
    combined := moved;
    for i := 0 to |nodes|
      invariant combined.Keys == moved.Keys + Elements(nodes[..i])
      invariant forall id :: id in combined ==>
        combined[id] == if id in Elements(nodes[..i]) then Scale(commands[id], scale) else moved[id]
    {
      var commandId := nodes[i];
      assert nodes[..i + 1] == nodes[..i] + [commandId];
      assert commandId in Elements(nodes);
      combined := combined[commandId := Scale(commands[commandId], scale)];
    }
    assert nodes[..|nodes|] == nodes;
  }

  /** `groupAroundScene`, over the given dagre layouts. */
  method GroupAroundScene(scene: LogicalScene, scenePosition: Pos, buttonLayout: map<string, Pos>, commandLayout: map<string, Pos>, scale: real := DefaultScale)
    returns (positions: map<string, Pos>)
    requires LaidOut(scene, buttonLayout, commandLayout)
    ensures positions == Grouped(scene, scenePosition, buttonLayout, commandLayout, scale)
  {
    var root := scene.sceneId;
    var buttonNodes := ButtonNodes(scene);
    var commandNodes := CommandNodes(scene);
    assert root in Elements(buttonNodes) && root in Elements(commandNodes);

    var dagreParent := buttonLayout[root];
    var buttonPositions := TranslateNodes(buttonNodes, buttonLayout, scenePosition.x - dagreParent.x, scenePosition.y - dagreParent.y);
    var dagreCommandParent := commandLayout[root];
    var commandPositions := TranslateNodes(commandNodes, commandLayout, scenePosition.x - dagreCommandParent.x, scenePosition.y - dagreParent.y);
    assert buttonPositions == ButtonPositions(root, scenePosition, buttonLayout);
    assert commandPositions == CommandPositions(root, scenePosition, buttonLayout, commandLayout);

    if |scene.commandIds| == 0 {
      return buttonPositions;
    }
    var parentSceneOffset := Pos(commandLayout[root].x - buttonLayout[root].x, commandLayout[root].y - buttonLayout[root].y);
    positions := CombineTrees(scene, scenePosition, buttonLayout, commandLayout, scale, buttonPositions, commandPositions, parentSceneOffset);
  }

  /** The branch with commands: the moved buttons, then the scaled commands, in one record. */
  method CombineTrees(scene: LogicalScene, scenePosition: Pos, buttonLayout: map<string, Pos>, commandLayout: map<string, Pos>, scale: real,
                      buttonPositions: map<string, Pos>, commandPositions: map<string, Pos>, parentSceneOffset: Pos)
    returns (combined: map<string, Pos>)
    requires scene.sceneId in buttonLayout && scene.sceneId in commandLayout && |scene.commandIds| > 0
    requires buttonPositions.Keys == Elements(ButtonNodes(scene)) && commandPositions.Keys == Elements(CommandNodes(scene))
    requires buttonPositions == ButtonPositions(scene.sceneId, scenePosition, buttonLayout)
    requires commandPositions == CommandPositions(scene.sceneId, scenePosition, buttonLayout, commandLayout)
    requires parentSceneOffset == Pos(commandLayout[scene.sceneId].x - buttonLayout[scene.sceneId].x, commandLayout[scene.sceneId].y - buttonLayout[scene.sceneId].y)
    ensures combined == Grouped(scene, scenePosition, buttonLayout, commandLayout, scale)
  {
    var root := scene.sceneId;
    var moved := MoveButtons(ButtonNodes(scene), buttonPositions, root, parentSceneOffset.x, parentSceneOffset.y, scale);
    combined := AddCommands(CommandNodes(scene), commandPositions, scale, moved);
    assert combined == Combined(buttonPositions, commandPositions, root, parentSceneOffset, scale);
    GroupedFromParts(scene, scenePosition, buttonLayout, commandLayout, scale, buttonPositions, commandPositions, parentSceneOffset);
  }

  lemma GroupedFromParts(scene: LogicalScene, scenePosition: Pos, buttonLayout: map<string, Pos>, commandLayout: map<string, Pos>, scale: real,
                         buttonPositions: map<string, Pos>, commandPositions: map<string, Pos>, parentSceneOffset: Pos)
    requires scene.sceneId in buttonLayout && scene.sceneId in commandLayout && |scene.commandIds| > 0
    requires buttonPositions == ButtonPositions(scene.sceneId, scenePosition, buttonLayout)
    requires commandPositions == CommandPositions(scene.sceneId, scenePosition, buttonLayout, commandLayout)
    requires parentSceneOffset == Pos(commandLayout[scene.sceneId].x - buttonLayout[scene.sceneId].x, commandLayout[scene.sceneId].y - buttonLayout[scene.sceneId].y)
    ensures Combined(buttonPositions, commandPositions, scene.sceneId, parentSceneOffset, scale) == Grouped(scene, scenePosition, buttonLayout, commandLayout, scale)
  {
  }
}
