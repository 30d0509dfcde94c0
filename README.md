# Dialogue node editor: the store, the debouncer and the layout bookkeeping

This project models the logic at the core of the dialogue node editor. The editor keeps a dialogue-script document and a node-graph webview in sync.

On the extension side:

- **`DialogueStore`** holds the scenes. It keeps a map from scene id to scene, which enumerates in insertion order like a JavaScript `Map`, and a separate declaration order of ids. It also records the create, update and delete messages it emits.
- **`compareScenes`** grades an edit as `none`, `minor` (with the dotted path of the one changed field) or `major`.
- **`DialogueDebouncer`** coalesces minor edits to one field into a single document rewrite.
- **The mapper** converts between a `Scene` and its JSON record `SceneData`.
- **`storeMessages`** defines the message and verdict types.

On the webview side:

- **`useLayoutData`** keeps the position table of every node (the scene node, its open and close command nodes, and its button nodes), the viewport and the docked scenes. It saves a snapshot after every change and restores from the saved snapshot at start-up.
- **`useSceneDock`** is the dock set. It notifies listeners only when membership really changes.
- **`groupAroundScene`** stitches the two tree layouts computed by the layout library around a scene.

## Model structure

There is one module per source file, plus `Scenes` (the shared scene types), `Positions`, `Sequences` (insertion-ordered sets) and `Wrappers`.

Each stateful object is a class whose fields are the object's state. Every method's `ensures` ties the new state to a pure transition function of the old state, for example `State() == Upsert(old(State()), source, scene)`. What the source promises is then proved as lemmas about those functions. Loops stay loops: `setScenes`, `getScenes`, the restoring loops and the position-filling loops of `groupAroundScene`.

Emitted messages, listener notifications, document rewrites and saved snapshots are kept in log fields (`events`, `writes`, `saves`). The passing of time is reduced to a `timerArmed` flag and an explicit `TimerFires` operation.

## Behaviour as written

The model follows the code in these places, even where the code probably meant something else:

- **Button command count in `compareScenes`.** The `return majorChange` at `dialogueStore.ts:266-268` only leaves the `forEach` callback. A button whose command count changed therefore records nothing: its name and commands are not compared. Such an edit on its own is classified `none`; see `ButtonCommandCountChangeIsIgnored`.
- **Delete from the extension.** A `deleteScene` from the extension removes the scene from the map but not from the declaration order. `getScenes` then returns `null`, and two operations from the empty store reach that state; see `ExtensionDeleteAfterWebviewCreate`.
- **Vertical shift of the command tree.** The command tree's vertical shift uses the button tree's scene node (`useDagreLayout.ts:53`).
- **Buttons when there are commands:**
  - The buttons, already translated onto the scene, are moved again by the difference of the two trees' scene nodes. This difference is also added horizontally.
  - Everything is then scaled about the origin. The scene node comes from the command tree, whose vertical shift uses the button tree's scene node. It therefore ends up at `scale` times the point `(x, y + cy - by)`. Here `(x, y)` is the scene position, and `cy` and `by` are the y coordinates the command tree and the button tree give the scene node. It lands at `scale` times the scene position only when the two trees put the scene node at the same height (see `WithCommandsSceneNode`, and `WithCommandsCommandFormula` for the general case).

## Model

| member | source | states |
|---|---|---|
| Sequences.Insert | packages/app/src/composables/useLayoutData.ts:53 | `Set.add`/`Map.set` on the key order: a new element is appended, an element already present keeps its place, and membership is the old membership plus the element |
| Sequences.RemoveAll | packages/extension/src/stores/dialogueStore.ts:144 | `filter(t => t !== x)`: exactly the elements other than `x` remain, and the list never grows; the order and multiplicities are pinned down by `RemoveAllConcat`, `RemoveAllOne` and `RemoveAllAt` |
| Sequences.RemoveAllConcat | packages/extension/src/stores/dialogueStore.ts:144 | filtering distributes over concatenation, so the remaining elements keep their relative order and multiplicity |
| Sequences.RemoveAllOne | packages/extension/src/stores/dialogueStore.ts:144 | a one-element array keeps its element exactly when it is not the filtered value |
| Sequences.RemoveAllAt | packages/extension/src/stores/dialogueStore.ts:144 | in an array without duplicates, filtering out the element at position `i` cuts out exactly that position |
| Sequences.RemoveAllBetween | packages/extension/src/stores/dialogueStore.ts:144 | filtering out a value that occurs only between two parts joins the two parts unchanged |
| StoreMessages.SceneDataOf | packages/extension/src/storeMessages.ts:43-56 | create and update messages carry their scene; a delete message carries none |
| StoreMessages.UpdateInfoOf | packages/extension/src/storeMessages.ts:48-52 | only an update message carries a verdict, and it is that message's verdict |
| StoreMessages.ChangeIdOf | packages/extension/src/storeMessages.ts:31-41 | only a minor verdict names a changed field |
| DialogueMapper.FromButtonData | packages/extension/src/helpers/dialogueMapper.ts:20-26 | the name becomes the display name; the commands are kept unchanged |
| DialogueMapper.ToButtonData | packages/extension/src/helpers/dialogueMapper.ts:48-54 | the display name becomes the name; the commands are kept unchanged |
| DialogueMapper.FromButtons | packages/extension/src/helpers/dialogueMapper.ts:13 | `map(fromButtonData)`: same length, and each element is converted in place |
| DialogueMapper.ToButtons | packages/extension/src/helpers/dialogueMapper.ts:35 | `map(toButtonData)`: same length, and each element is converted in place |
| DialogueMapper.FromSceneData | packages/extension/src/helpers/dialogueMapper.ts:6-18 | the tag becomes the id; a missing name or text reads as `""`; missing buttons or commands read as `[]`; the button count is kept |
| DialogueMapper.ToSceneData | packages/extension/src/helpers/dialogueMapper.ts:28-46 | each field is left out exactly when it is empty; a present field holds its value (the buttons: as many as the scene has); the tag is kept |
| DialogueMapper.ButtonRoundTrips | packages/extension/src/helpers/dialogueMapper.ts:20-54 | `fromButtonData` and `toButtonData` are inverse to each other |
| DialogueMapper.ButtonListRoundTrips | packages/extension/src/helpers/dialogueMapper.ts:13-35 | the two button-list maps are inverse to each other |
| DialogueMapper.SceneRoundTrip | packages/extension/src/helpers/dialogueMapper.ts:6-46 | writing a scene and reading it back gives the same scene, for every scene |
| DialogueMapper.WrittenIsCanonical | packages/extension/src/helpers/dialogueMapper.ts:28-46 | a written record never holds a field with an empty value |
| DialogueMapper.ReadWriteIdentityIffCanonical | packages/extension/src/helpers/dialogueMapper.ts:6-46 | reading then writing a record gives it back if and only if it holds no empty field |
| DialogueMapper.NormaliseIdempotent | packages/extension/src/helpers/dialogueMapper.ts:6-46 | read-then-write is idempotent |
| DialogueMapper.TagAndButtonsPreserved | packages/extension/src/helpers/dialogueMapper.ts:8-38 | the tag/id and the buttons, in order, survive both directions |
| Classifier.DigitChar | packages/extension/src/stores/dialogueStore.ts:233 | the character printed for a digit is a decimal digit whose value is that digit |
| Classifier.NatText | packages/extension/src/stores/dialogueStore.ts:233 | `${index}` prints a non-empty string of decimal digits that denotes the index (read by the separate `DecimalValue`), with a leading zero only for the index 0 |
| Classifier.NatTextInjective | packages/extension/src/stores/dialogueStore.ts:233 | different indices print differently |
| Classifier.DigitsPrefix | packages/extension/src/stores/dialogueStore.ts:271-277 | a run of digits followed by a non-digit splits off in one way only, so `button.${index}.` determines the index |
| Classifier.PrefixCancels | packages/extension/src/stores/dialogueStore.ts:233-277 | equal texts with the same prefix have equal remainders |
| Classifier.PathTextLead | packages/extension/src/stores/dialogueStore.ts:216-277 | the first character of a path tells which kind of leaf it names |
| Classifier.ButtonPathSplit | packages/extension/src/stores/dialogueStore.ts:271-277 | a button path is `button.`, the button index, then the leaf's suffix |
| Classifier.ButtonPathInjective | packages/extension/src/stores/dialogueStore.ts:271-277 | two button paths agree only for the same button and the same leaf of it |
| Classifier.PathTextInjective | packages/extension/src/stores/dialogueStore.ts:216-277 | different leaves are written as different paths, for every pair of paths |
| Classifier.ChangeIdInjective | packages/extension/src/stores/dialogueStore.ts:286-289 | within one scene, the change id `<sceneId>.<path>` names one leaf only, so edits to different leaves never share the change id the debouncer merges on |
| Classifier.SplitLines | packages/extension/src/stores/dialogueStore.ts:225-226 | `split("\n")` gives at least one line, and no line contains a newline |
| Classifier.JoinSplit | packages/extension/src/stores/dialogueStore.ts:225 | joining the split lines with newlines gives the text back |
| Classifier.SplitInjective | packages/extension/src/stores/dialogueStore.ts:224-236 | texts that split into the same lines are equal, so the line array loses nothing |
| Classifier.Tagged | packages/extension/src/stores/dialogueStore.ts:231-235 | each recorded index becomes the path of its list, in the same order |
| Classifier.DiffIndicesExact | packages/extension/src/stores/dialogueStore.ts:243-247 | the per-index `forEach` records exactly the indices where two lists of equal length differ, in increasing order |
| Classifier.DiffEmptyIff | packages/extension/src/stores/dialogueStore.ts:243-247 | nothing is recorded if and only if the lists are equal |
| Classifier.DiffSingle | packages/extension/src/stores/dialogueStore.ts:243-247 | changing one entry records exactly that index |
| Classifier.FlattenEmptyIff | packages/extension/src/stores/dialogueStore.ts:263-281 | the changes pushed by all buttons are empty if and only if each button pushed none |
| Classifier.FlattenSingle | packages/extension/src/stores/dialogueStore.ts:263-281 | when only one button pushes changes, the list holds exactly that button's changes |
| Classifier.OneButtonChanges | packages/extension/src/stores/dialogueStore.ts:264-279 | one button's pushes: none when its command count changed, else its name change, then its differing commands; characterised by `OneButtonMember` and `OneButtonEmptyIff` |
| Classifier.ButtonChanges | packages/extension/src/stores/dialogueStore.ts:263-281 | the buttons' pushes in button order; characterised by `ButtonChangesMember`, `ButtonChangesEmptyIff` and `ButtonChangesUpdate` |
| Classifier.OneButtonEmptyIff | packages/extension/src/stores/dialogueStore.ts:264-279 | a button records nothing if and only if it is unchanged or its command count changed |
| Classifier.ButtonChangesEmptyIff | packages/extension/src/stores/dialogueStore.ts:263-281 | the buttons record nothing if and only if every button is unchanged, except those whose command count changed |
| Classifier.OneButtonUnchanged | packages/extension/src/stores/dialogueStore.ts:263-281 | an unchanged button records nothing |
| Classifier.ButtonChangesUpdate | packages/extension/src/stores/dialogueStore.ts:263-281 | replacing one button records exactly what that button records, under its index |
| Classifier.SameShapeLeaves | packages/extension/src/stores/dialogueStore.ts:216-281 | with the same id, text and list lengths, the recorded changes are the name change followed by the per-index list changes |
| Classifier.LineChanges | packages/extension/src/stores/dialogueStore.ts:224-237 | unchanged text records nothing, a changed line count is an early return, else one path per differing line; characterised by `LineChangesEmptyIff` and `ListLeafRecorded` |
| Classifier.ListChanges | packages/extension/src/stores/dialogueStore.ts:240-281 | the close-command, then open-command, then button pushes; characterised by `ListLeafRecorded` and `ButtonLeafRecorded` |
| Classifier.RecordedChanges | packages/extension/src/stores/dialogueStore.ts:214-281 | an early return, or the paths pushed in push order; characterised by `RecordedIffLeafDiffers` and `StructuralChangeIsMajor` |
| Classifier.CompareScenes | packages/extension/src/stores/dialogueStore.ts:209-293 | the verdict from what was recorded; characterised by `CompareNoChangeIff`, `TwoDifferingLeavesAreMajor`, `OneRecordedIsMinor` and the `Only…Changed` lemmas |
| Classifier.StructuralChangeIsMajor | packages/extension/src/stores/dialogueStore.ts:216-261 | another id or another number of lines, close commands, open commands or buttons gives `major` |
| Classifier.LineChangesEmptyIff | packages/extension/src/stores/dialogueStore.ts:224-237 | the text contributes no change if and only if it is unchanged |
| Classifier.NoChangeIffNothingRecorded | packages/extension/src/stores/dialogueStore.ts:283-292 | the verdict is `none` if and only if no early return happened and nothing was recorded |
| Classifier.CompareNoChangeIff | packages/extension/src/stores/dialogueStore.ts:209-292 | the verdict is `none` if and only if every field agrees, buttons whose command count changed aside |
| Classifier.CompareIdentical | packages/extension/src/stores/dialogueStore.ts:209-292 | a scene compared with itself gives `none` |
| Classifier.OneRecordedIsMinor | packages/extension/src/stores/dialogueStore.ts:287-289 | exactly one recorded change gives `minor` named by the new scene's id, a dot and the change's path |
| Classifier.OnlyNpcNameChanged | packages/extension/src/stores/dialogueStore.ts:220-222 | changing only the NPC name gives `minor` with change id `<id>.npcName` |
| Classifier.RecordedSceneTextLine | packages/extension/src/stores/dialogueStore.ts:224-237 | changing one text line, with the same line count, records exactly that line |
| Classifier.OnlySceneTextLineChanged | packages/extension/src/stores/dialogueStore.ts:224-289 | changing one text line gives `minor` with change id `<id>.sceneText.<i>` |
| Classifier.RecordedCloseCommand | packages/extension/src/stores/dialogueStore.ts:240-247 | changing one close command records exactly that index |
| Classifier.OnlyCloseCommandChanged | packages/extension/src/stores/dialogueStore.ts:243-289 | changing one close command gives `minor` with change id `<id>.closeCommands.<i>` |
| Classifier.OpenCommandListChanges | packages/extension/src/stores/dialogueStore.ts:249-256 | changing one open command gives exactly that index among the list changes |
| Classifier.RecordedOpenCommand | packages/extension/src/stores/dialogueStore.ts:249-256 | changing one open command records exactly that index |
| Classifier.OnlyOpenCommandChanged | packages/extension/src/stores/dialogueStore.ts:252-289 | changing one open command gives `minor` with change id `<id>.openCommands.<i>` |
| Classifier.RecordedButtonName | packages/extension/src/stores/dialogueStore.ts:270-272 | renaming one button records exactly its display name |
| Classifier.OnlyButtonNameChanged | packages/extension/src/stores/dialogueStore.ts:270-289 | renaming one button gives `minor` with change id `<id>.button.<i>.displayName` |
| Classifier.OneButtonCommandChanged | packages/extension/src/stores/dialogueStore.ts:275-279 | changing one command of one button records exactly that button and command index |
| Classifier.RecordedButtonCommand | packages/extension/src/stores/dialogueStore.ts:275-279 | the same change, as the scene comparison records it |
| Classifier.OnlyButtonCommandChanged | packages/extension/src/stores/dialogueStore.ts:275-289 | changing one button command gives `minor` with change id `<id>.button.<i>.commands.<j>` |
| Classifier.TwoLeafChangesAreMajor | packages/extension/src/stores/dialogueStore.ts:283-285 | changing the NPC name and a close command together gives `major`, though each alone is minor; derived from `TwoDifferingLeavesAreMajor` |
| Classifier.TaggedMember | packages/extension/src/stores/dialogueStore.ts:231-235 | a path is among a list's recorded entries exactly when it names a recorded index of that list |
| Classifier.DiffTaggedMember | packages/extension/src/stores/dialogueStore.ts:243-247 | a path is among a per-index comparison's entries exactly when it names an index where the lists differ |
| Classifier.FlattenMember | packages/extension/src/stores/dialogueStore.ts:263-281 | a change is among all buttons' pushes exactly when some button pushed it |
| Classifier.OneButtonMember | packages/extension/src/stores/dialogueStore.ts:264-279 | a button records exactly its renamed display name and its differing commands, and nothing if its command count changed |
| Classifier.ButtonChangesMember | packages/extension/src/stores/dialogueStore.ts:263-281 | a button path is recorded exactly when the button it indexes records it |
| Classifier.SameShapeRecorded | packages/extension/src/stores/dialogueStore.ts:214-281 | with no early return, the recorded changes are the name change, then the differing lines, then the list changes |
| Classifier.ButtonLeafRecorded | packages/extension/src/stores/dialogueStore.ts:263-281 | a button path is recorded exactly when that leaf differs, for buttons with unchanged command counts |
| Classifier.ListLeafRecorded | packages/extension/src/stores/dialogueStore.ts:224-256 | a text line, close command or open command path is recorded exactly when that entry differs |
| Classifier.RecordedIffLeafDiffers | packages/extension/src/stores/dialogueStore.ts:214-281 | for scenes of the same shape, a path is recorded if and only if the leaf it names differs |
| Classifier.TwoDifferingLeavesAreMajor | packages/extension/src/stores/dialogueStore.ts:283-285 | any two different differing leaves, in any fields, give `major` |
| Classifier.DifferingLeafIsNoticed | packages/extension/src/stores/dialogueStore.ts:283-292 | a single differing leaf never yields `none` |
| Classifier.ButtonCommandCountChangeIsIgnored | packages/extension/src/stores/dialogueStore.ts:266-268 | replacing a button by one with another command count, on its own, gives `none` |
| SceneStore.Ids | packages/extension/src/stores/dialogueStore.ts:51-53 | the new order collects one id per incoming scene, in input order |
| SceneStore.Upsert | packages/extension/src/stores/dialogueStore.ts:81-124 | `upsertScene` on the store's state; characterised by `UpsertIdenticalIsNoOp`, `UpsertNewScene`, `UpsertChangedScene` and `UpsertKeepsValid` |
| SceneStore.Delete | packages/extension/src/stores/dialogueStore.ts:134-154 | `deleteScene` on the store's state; characterised by `DeleteAbsentIsNoOp`, `DeletePresentScene` and `DeleteKeepsValid` |
| SceneStore.SetAll | packages/extension/src/stores/dialogueStore.ts:48-69 | `setScenes` on the store's state; characterised by `SetScenesKeysAndOrder` and `SetScenesThenGetScenes` |
| SceneStore.ScenesInOrder | packages/extension/src/stores/dialogueStore.ts:164-179 | `getScenes` gives `null` if and only if some id of the order is missing from the map; otherwise it gives the stored scenes in order |
| SceneStore.SceneMessages | packages/extension/src/stores/dialogueStore.ts:188-199 | one create message per stored scene, in map order, carrying its id and scene; every stored id has one |
| SceneStore.UpsertKeepsValid | packages/extension/src/stores/dialogueStore.ts:81-124 | after an upsert, the key order still lists every stored id once, and every scene sits under its own id |
| SceneStore.DeleteKeepsValid | packages/extension/src/stores/dialogueStore.ts:134-154 | the same holds after a delete |
| SceneStore.UpsertIdenticalIsNoOp | packages/extension/src/stores/dialogueStore.ts:82-90 | upserting the scene already stored changes neither map nor order and emits nothing |
| SceneStore.UpsertTwiceIsUpsertOnce | packages/extension/src/stores/dialogueStore.ts:81-124 | a repeated upsert of the same scene, from any source, changes nothing more |
| SceneStore.UpsertNewScene | packages/extension/src/stores/dialogueStore.ts:93-110 | a new id is stored, joins the order if and only if the source is the webview, and exactly one create message is emitted with that source and scene |
| SceneStore.UpsertChangedScene | packages/extension/src/stores/dialogueStore.ts:113-123 | a changed scene replaces the old one, the orders stay, and one update message is emitted whose verdict is `compareScenes(old, new)` |
| SceneStore.DeleteAbsentIsNoOp | packages/extension/src/stores/dialogueStore.ts:134-140 | deleting an id not stored changes nothing and emits nothing |
| SceneStore.DeletePresentScene | packages/extension/src/stores/dialogueStore.ts:134-153 | deleting a stored id removes it from the map and filters it from the key order; the declaration order is exactly the old one filtered for the webview and unchanged for the extension; one delete message is emitted |
| SceneStore.WebviewDeleteGetScenes | packages/extension/src/stores/dialogueStore.ts:143-179 | after a webview delete of the scene at position `i` of a synced, duplicate-free order, the order loses exactly position `i`, and `getScenes` gives the old result with exactly that scene cut out |
| SceneStore.CutScenesInOrder | packages/extension/src/stores/dialogueStore.ts:164-179 | reading with one id cut out of the map and of a duplicate-free order gives the old reading with that scene cut out |
| SceneStore.UpsertStores | packages/extension/src/stores/dialogueStore.ts:93 | after any upsert the map holds the scene under its id, and every other entry is unchanged |
| SceneStore.UpsertAllLast | packages/extension/src/stores/dialogueStore.ts:52-55 | the upsert loop over one more scene upserts that scene into what the earlier ones left |
| SceneStore.UpsertAllEffect | packages/extension/src/stores/dialogueStore.ts:52-55 | the upsert loop keeps the store valid, adds exactly the incoming ids to the keys, and keeps every other stored scene |
| SceneStore.UpsertEffectStep | packages/extension/src/stores/dialogueStore.ts:54 | one upsert adds its id to the ids upserted so far and keeps the other scenes |
| SceneStore.UpsertAllStoresEach | packages/extension/src/stores/dialogueStore.ts:52-55 | with distinct ids, each incoming scene is what ends up stored under its id |
| SceneStore.DeleteAbsentEffect | packages/extension/src/stores/dialogueStore.ts:59-64 | the delete loop keeps the store valid, removes exactly the visited keys not kept, and changes no kept scene |
| SceneStore.SetScenesKeysAndOrder | packages/extension/src/stores/dialogueStore.ts:48-68 | after `setScenes`, the stored ids are exactly the incoming ids and the order is the incoming ids in input order, whatever the prior state |
| SceneStore.ReadBackInOrder | packages/extension/src/stores/dialogueStore.ts:164-179 | reading a map that holds each scene under its id, in id order, gives the scenes |
| SceneStore.SetScenesThenGetScenes | packages/extension/src/stores/dialogueStore.ts:48-179 | `setScenes` with distinct ids, then `getScenes`, gives back exactly those scenes |
| SceneStore.SyncedScenesInOrder | packages/extension/src/stores/dialogueStore.ts:169-177 | when every ordered id is stored, `getScenes` does not return `null` |
| SceneStore.UpsertKeepsSynced | packages/extension/src/stores/dialogueStore.ts:81-124 | upserts never make `getScenes` fail |
| SceneStore.WebviewDeleteKeepsSynced | packages/extension/src/stores/dialogueStore.ts:143-145 | a delete from the webview never makes `getScenes` fail |
| SceneStore.ExtensionDeleteBreaksGetScenes | packages/extension/src/stores/dialogueStore.ts:142-145 | a delete from the extension of an ordered id makes `getScenes` return `null` |
| SceneStore.ExtensionDeleteAfterWebviewCreate | packages/extension/src/stores/dialogueStore.ts:105-145 | a create from the webview, then a delete from the extension, reaches that `null` from the empty store |
| SceneStore.DialogueStore.constructor | packages/extension/src/stores/dialogueStore.ts:10-14 | a new store is empty |
| SceneStore.DialogueStore.UpsertScene | packages/extension/src/stores/dialogueStore.ts:81-124 | the fields become the upsert of the old state |
| SceneStore.DialogueStore.DeleteScene | packages/extension/src/stores/dialogueStore.ts:134-154 | the fields become the delete of the old state |
| SceneStore.DialogueStore.UpsertEach | packages/extension/src/stores/dialogueStore.ts:51-55 | the first loop of `setScenes` upserts every scene in order and returns the ids in input order |
| SceneStore.DialogueStore.DeleteEachAbsent | packages/extension/src/stores/dialogueStore.ts:59-64 | the second loop deletes, in key order, every key not kept |
| SceneStore.DialogueStore.SetScenes | packages/extension/src/stores/dialogueStore.ts:48-69 | the fields become `setScenes` of the old state |
| SceneStore.DialogueStore.GetScenes | packages/extension/src/stores/dialogueStore.ts:164-180 | the loop's result is `getScenes`' value on the current map and order: `null` when an ordered id is missing, else the scenes in order |
| SceneStore.DialogueStore.GetSceneMessages | packages/extension/src/stores/dialogueStore.ts:188-199 | one create message per stored scene, in map order |
| Debouncer.EnqueueKeepsCoherent | packages/extension/src/classes/DialogueDebouncer.ts:23-59 | the pending id, the pending scenes and the timer stay all present or all absent |
| Debouncer.Enqueued | packages/extension/src/classes/DialogueDebouncer.ts:23-59 | `enqueueChange` on the debouncer's state; characterised by `MajorChangeWritesAtOnce`, `NoChangeIsIgnored`, `MinorChangeCoalesces`, `MinorChangeElsewhereFlushes` and `EnqueueKeepsCoherent` |
| Debouncer.Flushed | packages/extension/src/classes/DialogueDebouncer.ts:64-70 | `flushChanges`; characterised by `FlushWritesPendingOnce` |
| Debouncer.Cleared | packages/extension/src/classes/DialogueDebouncer.ts:75-82 | `clear`; characterised by `ClearWritesNothing` |
| Debouncer.Fired | packages/extension/src/classes/DialogueDebouncer.ts:42-45 | the timer callback; characterised by `FlushClearFireLeaveNothingPending` and `MinorRunHoldsLast` |
| Debouncer.FlushClearFireLeaveNothingPending | packages/extension/src/classes/DialogueDebouncer.ts:64-82 | after a flush, a clear or the timer firing, nothing is pending and no timer runs |
| Debouncer.FlushWritesPendingOnce | packages/extension/src/classes/DialogueDebouncer.ts:64-70 | a flush writes exactly the pending scenes, if any, once; a second flush writes nothing |
| Debouncer.ClearWritesNothing | packages/extension/src/classes/DialogueDebouncer.ts:75-82 | a clear writes nothing and discards what was pending |
| Debouncer.MajorChangeWritesAtOnce | packages/extension/src/classes/DialogueDebouncer.ts:26-30 | a major change, or any change with delay 0, is written at once, exactly once, and nothing stays pending |
| Debouncer.NoChangeIsIgnored | packages/extension/src/classes/DialogueDebouncer.ts:31-33 | a `none` verdict changes nothing and writes nothing |
| Debouncer.MinorChangeCoalesces | packages/extension/src/classes/DialogueDebouncer.ts:38-45 | a minor change to the pending field, or with nothing pending, writes nothing; it is pending afterwards, and a timer runs |
| Debouncer.MinorChangeElsewhereFlushes | packages/extension/src/classes/DialogueDebouncer.ts:47-55 | a minor change to another field first writes the old pending scenes, then holds the new ones with a timer |
| Debouncer.EnqueueWritesAtMostOnce | packages/extension/src/classes/DialogueDebouncer.ts:23-59 | one call writes at most one scene list and only appends to the writes |
| Debouncer.MinorRunHoldsLast | packages/extension/src/classes/DialogueDebouncer.ts:38-45 | any run of minor edits to one field writes nothing; when the timer fires, exactly the last edit is written, once |
| Debouncer.DialogueDebouncer.constructor | packages/extension/src/classes/DialogueDebouncer.ts:14-21 | a new debouncer holds nothing and has written nothing |
| Debouncer.DialogueDebouncer.EnqueueChange | packages/extension/src/classes/DialogueDebouncer.ts:23-59 | the fields become `enqueueChange` of the old state, and coherence is kept |
| Debouncer.DialogueDebouncer.FlushChanges | packages/extension/src/classes/DialogueDebouncer.ts:64-70 | the fields become the flush of the old state |
| Debouncer.DialogueDebouncer.Clear | packages/extension/src/classes/DialogueDebouncer.ts:75-82 | the fields become the clear of the old state |
| Debouncer.DialogueDebouncer.Dispose | packages/extension/src/classes/DialogueDebouncer.ts:84-86 | dispose is a clear |
| Debouncer.DialogueDebouncer.TimerFires | packages/extension/src/classes/DialogueDebouncer.ts:42-45 | the timer callback forgets the timer and flushes |
| Debouncer.DialogueDebouncer.ApplyChange | packages/extension/src/classes/DialogueDebouncer.ts:89-93 | a rewrite appends the scenes to the writes and changes nothing else |
| Debouncer.TypingInOneField | packages/extension/src/classes/DialogueDebouncer.ts:38-45 | two edits to one field, then the delay elapsing, write once, with the second edit |
| Debouncer.EditingTwoFields | packages/extension/src/classes/DialogueDebouncer.ts:47-55 | an edit to a second field writes the first field's edit at once, and the second one when the timer fires |
| Debouncer.MajorAfterMinor | packages/extension/src/classes/DialogueDebouncer.ts:26-30 | a major change discards a pending minor edit unwritten and cancels its timer |
| Layout.WriteButton | packages/app/src/composables/useLayoutData.ts:79 | `buttonPositions[slot] = position` sets that slot, grows the array to cover it, keeps every other slot, and leaves holes at new intermediate slots |
| Layout.SetPosition | packages/app/src/composables/useLayoutData.ts:66-100 | `setNodePosition` on the layout's state; characterised by `GetAfterSet`, `SetFailsOnUnknownCommandSlot`, `SetKeepsOtherScenes`, `SetKeepsOtherSlots` and `FirstSetCreatesScene` |
| Layout.GetPosition | packages/app/src/composables/useLayoutData.ts:102-124 | `getNodePosition`; characterised by `GetUnknownScene`, `GetFailsOnUnknownCommandSlot` and `GetAfterSet` |
| Layout.AddDocked | packages/app/src/composables/useLayoutData.ts:52-55 | `addDockedScene`; characterised by `AddDockedIsSetInsert` and `MutatorsSaveSnapshot` |
| Layout.RemoveDocked | packages/app/src/composables/useLayoutData.ts:57-60 | `removeDockedScene`; characterised by `RemoveDockedIsSetRemove` and `MutatorsSaveSnapshot` |
| Layout.SetViewport | packages/app/src/composables/useLayoutData.ts:126-129 | `setViewportState`; characterised by `MutatorsKeepValid` and `MutatorsSaveSnapshot` |
| Layout.Restore | packages/app/src/composables/useLayoutData.ts:26-40 | the start-up state; characterised by `RestoreSnapshot` and `RestoreValid` |
| Layout.Snapshot | packages/app/src/composables/useLayoutData.ts:42-50 | the snapshot lists the table values in key order, the viewport and the docked ids |
| Layout.GetAfterSet | packages/app/src/composables/useLayoutData.ts:66-124 | after a successful set, a get of the same node returns the position set |
| Layout.SetFailsOnUnknownCommandSlot | packages/app/src/composables/useLayoutData.ts:82-90 | a set throws if and only if it names a command slot other than open or close, and then with the set error |
| Layout.GetFailsOnUnknownCommandSlot | packages/app/src/composables/useLayoutData.ts:102-119 | a get throws if and only if the scene is known and the command slot is neither open nor close, and then with the get error |
| Layout.GetUnknownScene | packages/app/src/composables/useLayoutData.ts:103-106 | a get on an unknown scene returns undefined, for any node |
| Layout.SetKeepsOtherScenes | packages/app/src/composables/useLayoutData.ts:66-100 | a set leaves every other scene's positions as they were |
| Layout.SetKeepsOtherSlots | packages/app/src/composables/useLayoutData.ts:77-95 | a set on a known scene leaves its other slots as they were |
| Layout.FirstSetCreatesScene | packages/app/src/composables/useLayoutData.ts:68-75 | the first set on a scene appends it to the key order and creates it with the scene node at (0, 0), no command nodes and no buttons |
| Layout.MutatorsKeepValid | packages/app/src/composables/useLayoutData.ts:52-129 | every mutator keeps each key once, the keys in step with the table, and the docked ids distinct |
| Layout.MutatorsSaveSnapshot | packages/app/src/composables/useLayoutData.ts:42-129 | every mutator saves exactly one snapshot, of the state it leaves behind |
| Layout.AddDockedIsSetInsert | packages/app/src/composables/useLayoutData.ts:52-55 | docking adds the id and keeps the others; a new id goes last; docking twice is docking once |
| Layout.RemoveDockedIsSetRemove | packages/app/src/composables/useLayoutData.ts:57-60 | undocking removes exactly the id; undocking an absent id changes nothing |
| Layout.RestoreDockedOfDistinct | packages/app/src/composables/useLayoutData.ts:36-38 | restoring distinct docked ids gives them back in order |
| Layout.RestoreKeysOfDistinct | packages/app/src/composables/useLayoutData.ts:33-35 | restoring scene states with distinct ids gives those ids back in order |
| Layout.RestoreMapOfKeyed | packages/app/src/composables/useLayoutData.ts:33-35 | restoring the states that a table holds under distinct keys rebuilds exactly that part of the table |
| Layout.RestoreMapStep | packages/app/src/composables/useLayoutData.ts:34 | one step of the restoring loop adds one key with its state |
| Layout.RestoreSnapshot | packages/app/src/composables/useLayoutData.ts:31-50 | restoring a saved snapshot gives back the table, the key order, the viewport and the docked ids |
| Layout.RestoreKeysDistinct | packages/app/src/composables/useLayoutData.ts:33-35 | whatever was saved, the restored key order lists each key once |
| Layout.RestoreTableValid | packages/app/src/composables/useLayoutData.ts:33-35 | whatever was saved, the restored key order is in step with the restored map, and each state sits under its own id |
| Layout.RestoreDockedDistinct | packages/app/src/composables/useLayoutData.ts:36-38 | whatever was saved, the restored docked set holds each saved id once and nothing else |
| Layout.RestoreValid | packages/app/src/composables/useLayoutData.ts:26-40 | the start-up state satisfies the layout invariant, with or without a saved snapshot |
| Layout.LayoutData.constructor | packages/app/src/composables/useLayoutData.ts:26-40 | start-up state is the restore of the saved state, or empty with the initial viewport when nothing is saved; either way the layout invariant holds, so every mutator can be called |
| Layout.LayoutData.SaveState | packages/app/src/composables/useLayoutData.ts:42-50 | appends the snapshot of the current state to the saves |
| Layout.LayoutData.AddDockedScene | packages/app/src/composables/useLayoutData.ts:52-55 | the fields become the docking of the old state, saved |
| Layout.LayoutData.RemoveDockedScene | packages/app/src/composables/useLayoutData.ts:57-60 | the fields become the undocking of the old state, saved |
| Layout.LayoutData.GetDockedScenes | packages/app/src/composables/useLayoutData.ts:62-64 | lists each docked id once, as the docked list kept in the order `AddDocked` appended them |
| Layout.LayoutData.SetNodePosition | packages/app/src/composables/useLayoutData.ts:66-100 | on success the fields become the set of the old state; on an unknown command slot it fails with the set error and changes nothing |
| Layout.LayoutData.StoreSceneState | packages/app/src/composables/useLayoutData.ts:97-99 | the updated scene state is stored under its id, the id is added to the key order, and the state is saved |
| Layout.LayoutData.GetNodePosition | packages/app/src/composables/useLayoutData.ts:102-124 | returns what the get of the current state gives |
| Layout.LayoutData.SetViewportState | packages/app/src/composables/useLayoutData.ts:126-129 | replaces the viewport and saves |
| Layout.LayoutData.GetViewportState | packages/app/src/composables/useLayoutData.ts:131-133 | returns the current viewport |
| Dock.DockDockedIsNoOp | packages/app/src/composables/useSceneDock.ts:14-16 | docking a docked id changes nothing and notifies no one |
| Dock.Dock | packages/app/src/composables/useSceneDock.ts:14-20 | `dockScene` on the dock's state; characterised by `DockDockedIsNoOp` and `DockNewScene` |
| Dock.Undock | packages/app/src/composables/useSceneDock.ts:22-27 | `undockScene`; characterised by `UndockUndockedIsNoOp` and `UndockDockedScene` |
| Dock.Remove | packages/app/src/composables/useSceneDock.ts:37-39 | `deleteScene`; characterised by `DeleteIsSilent` |
| Dock.DockNewScene | packages/app/src/composables/useSceneDock.ts:14-20 | docking a new id appends it after the others and notifies the dock listeners once with that id |
| Dock.UndockUndockedIsNoOp | packages/app/src/composables/useSceneDock.ts:22-24 | undocking an id not docked changes nothing and notifies no one |
| Dock.UndockDockedScene | packages/app/src/composables/useSceneDock.ts:22-27 | undocking a docked id removes exactly it and notifies the undock listeners once with that id |
| Dock.DeleteIsSilent | packages/app/src/composables/useSceneDock.ts:37-39 | `deleteScene` removes the id without notifying anyone and reports whether it was docked |
| Dock.DockThenUndock | packages/app/src/composables/useSceneDock.ts:14-27 | docking then undocking a new id restores the docked set, with one notification each |
| Dock.SceneDock.constructor | packages/app/src/composables/useSceneDock.ts:8-12 | a new dock is empty and has notified no one |
| Dock.SceneDock.DockScene | packages/app/src/composables/useSceneDock.ts:14-20 | the fields become the docking of the old state |
| Dock.SceneDock.UndockScene | packages/app/src/composables/useSceneDock.ts:22-27 | the fields become the undocking of the old state |
| Dock.SceneDock.DeleteScene | packages/app/src/composables/useSceneDock.ts:37-39 | the fields become the silent removal, and the result says whether the id was docked |
| Dock.SceneDock.IsSceneDocked | packages/app/src/composables/useSceneDock.ts:41-43 | true exactly for docked ids |
| Dock.SceneDock.DockedSceneIds | packages/app/src/composables/useSceneDock.ts:45 | lists exactly the docked ids, each once, in the order `Dock` appended them (the insertion order `Array.from` gives for a Set) |
| DagreLayout.ButtonTreeLandsOnScene | packages/app/src/composables/useDagreLayout.ts:40-48 | the button tree keeps its nodes, is shifted rigidly, and its scene node lands exactly on the scene position |
| DagreLayout.Grouped | packages/app/src/composables/useDagreLayout.ts:10-97 | the positions `groupAroundScene` returns; characterised by `NoCommandsGivesButtons`, `WithCommandsKeys` and the `WithCommands…` formula lemmas |
| DagreLayout.MovedButtons | packages/app/src/composables/useDagreLayout.ts:74-86 | the button loop's result; characterised by `GroupedButton` |
| DagreLayout.ScaledCommands | packages/app/src/composables/useDagreLayout.ts:88-93 | the command loop's result; characterised by `GroupedCommand` |
| DagreLayout.CommandTreeShift | packages/app/src/composables/useDagreLayout.ts:51-59 | the command tree keeps its nodes and is shifted rigidly, across by its own scene node and down by the button tree's |
| DagreLayout.NoCommandsGivesButtons | packages/app/src/composables/useDagreLayout.ts:62-63 | without commands, the result is the unscaled translated button tree, scene node included, on the scene position |
| DagreLayout.WithCommandsKeys | packages/app/src/composables/useDagreLayout.ts:67-93 | with commands, the result holds every command-tree node and every button node except the scene node |
| DagreLayout.GroupedButton | packages/app/src/composables/useDagreLayout.ts:74-86 | with commands, a button is its translated position moved by the difference of the two scene nodes, dropped by 60 and scaled |
| DagreLayout.GroupedCommand | packages/app/src/composables/useDagreLayout.ts:88-93 | with commands, a command-tree node is its translated position scaled; a command wins over a button of the same id |
| DagreLayout.WithCommandsButtonFormula | packages/app/src/composables/useDagreLayout.ts:69-85 | the same button position as one closed formula over the layout library's output |
| DagreLayout.WithCommandsCommandFormula | packages/app/src/composables/useDagreLayout.ts:51-92 | a command position as one closed formula over the layout library's output |
| DagreLayout.WithCommandsSceneNode | packages/app/src/composables/useDagreLayout.ts:82-93 | with commands, the scene node comes from the command tree and is scaled; when both trees put their scene nodes at the same height it lands at `scale` times the scene position |
| DagreLayout.ButtonsSitBelowCommands | packages/app/src/composables/useDagreLayout.ts:69-92 | a button and a command at the same spot in their trees end up, before scaling, 60 apart vertically with the button below, and apart horizontally by the difference of the scene nodes |
| DagreLayout.TranslateNodes | packages/app/src/composables/useDagreLayout.ts:45-48 | the loop over the graph's nodes gives every node its layout position shifted by the same amount |
| DagreLayout.MoveButtons | packages/app/src/composables/useDagreLayout.ts:74-86 | the button loop moves, drops and scales every button and skips the scene node |
| DagreLayout.AddCommands | packages/app/src/composables/useDagreLayout.ts:88-93 | the command loop writes every scaled command over what the button loop left |
| DagreLayout.CombineTrees | packages/app/src/composables/useDagreLayout.ts:66-94 | the branch with commands gives the grouping's result |
| DagreLayout.GroupedFromParts | packages/app/src/composables/useDagreLayout.ts:67-94 | the merged moved buttons and scaled commands are the grouping with commands |
| DagreLayout.GroupAroundScene | packages/app/src/composables/useDagreLayout.ts:10-97 | the whole procedure, with the default scale 5, gives the grouping of the two given layouts |

## Left out

- **The layout library.** Its layered layout, and the graph building with `setNode`/`setEdge` and node sizes, are not modelled. Its output is an input here: one relative position per node of each tree. Non-overlap of the nodes cannot be stated from this code.
- **Floating point.** Positions, the viewport and the scale are exact reals. JavaScript's floating-point rounding is not modelled.
- **Listeners.** Listener registration and removal (`onSceneCreate`, `onSceneUpdate`, `onSceneDelete`, `onDockScene`, `onUndockScene` and their `Disposable` handles) are left out. Each emission is one entry in an event log, however many listeners are registered.
- **Timers.** `setTimeout` and `clearTimeout` are left out. A running timer is the `timerArmed` flag, and its expiry is `TimerFires`.
- **The configured edit delay.** It is read from the editor settings on every call. Here it is a parameter of `EnqueueChange`.
- **Document writes.** `applyChange` is an append to the `writes` log. Writing the dialogue text (`toDialogue`, `DialogueDocument`) is not modelled, and neither is the asynchronous completion of the write or its success flag.
- **Deep equality.** `fast-deep-equal` is Dafny's structural equality on scene values.
- **Webview state storage.** `getState` is the constructor's parameter, and `setState` appends to the `saves` log. Snapshots are taken as copies: the structured cloning that makes them copies is not modelled.
- **In-place updates in `setNodePosition`.** The scene state is updated as a value and stored back. The source mutates the object in place, and that object is shared with the map, so the two behave alike.
- **Button slots.** A button slot is a natural number. With JavaScript arrays, slot indices that are negative or non-integer are not modelled.
- **Types from other files.** `LogicalScene` (with `getSlots`/`getCommands`) and `NodeStateOptions` are not part of this model. They are represented as plain id sequences and a small node-kind datatype. `GenericSceneMessage`, `Scene` and `SceneData` come from the shared package; their fields are taken from their uses here.
- **`StoreScene`.** The interface at `storeMessages.ts:25-29` is declared but never used by the core, so it is not modelled.
- **The `DialogueStoreMessage` union.** It is the `StoreMessage` datatype; the `messageType` tag is its constructor.
- **The debouncer's document handle.** The `dialogueTextDocument` field is left out. The document is only reached through `applyChange`.
- **Editor and webview plumbing.** Commands, configuration, theme, message passing and start-up code are left out: they are I/O and user interface.
