/**
 * `compareScenes`: how large the edit from one scene value to the next is.
 * A structural mismatch (another id, another number of text lines, commands or
 * buttons) is a major change at once; otherwise every differing leaf field is
 * recorded, and the verdict is none, minor (exactly one leaf, named by its
 * dotted path) or major (more than one).
 */
module Classifier {
  import opened Scenes
  import opened Wrappers
  import opened StoreMessages

  // ---------------------------------------------------------------- text helpers

  predicate IsDigit(c: char) {
    '0' <= c <= '9'
  }

  predicate AllDigits(s: string) {
    forall k :: 0 <= k < |s| ==> IsDigit(s[k])
  }

  /** The value of a decimal digit character. */
  function DigitValue(c: char): nat
    requires IsDigit(c)
  {
    c as int - '0' as int
  }

  /** The character of a decimal digit. */
  function DigitChar(d: nat): (c: char)
    requires d < 10
    ensures IsDigit(c) && DigitValue(c) == d
  {
    ('0' as int + d) as char
  }

  /** The number a string of decimal digits denotes, most significant digit first. */
  function DecimalValue(s: string): nat
    requires AllDigits(s)
    decreases |s|
  {
    if |s| == 0 then 0 else DecimalValue(s[..|s| - 1]) * 10 + DigitValue(s[|s| - 1])
  }

  /**
   * Decimal form of an index, as a template literal `${index}` prints it: the
   * digits denote `n`, and only `0` itself starts with the digit zero.
   */
  function NatText(n: nat): (r: string)
    ensures 1 <= |r| && AllDigits(r)
    ensures DecimalValue(r) == n
    ensures r[0] == '0' <==> n == 0
    decreases n
  {
    if n < 10 then [DigitChar(n)]
    else
      var r := NatText(n / 10) + [DigitChar(n % 10)];
      assert r[..|r| - 1] == NatText(n / 10);
      r
  }

  /** Different indices print differently. */
  lemma NatTextInjective(a: nat, b: nat)
    requires NatText(a) == NatText(b)
    ensures a == b
  {
  }

  /** A run of digits followed by a non-digit splits off in one way only. */
  lemma DigitsPrefix(d1: string, r1: string, d2: string, r2: string)
    requires AllDigits(d1) && AllDigits(d2)
    requires 0 < |r1| && !IsDigit(r1[0]) && 0 < |r2| && !IsDigit(r2[0])
    requires d1 + r1 == d2 + r2
    ensures d1 == d2 && r1 == r2
  {
    var s := d1 + r1;
    assert d1 == s[..|d1|] && d2 == s[..|d2|];
    assert r1 == s[|d1|..] && r2 == s[|d2|..];
  }

  /** `s.split("\n")`: the lines of `s`; the empty text is one empty line. */
  function SplitLines(s: string): (lines: seq<string>)
    ensures 1 <= |lines|
    ensures forall k :: 0 <= k < |lines| ==> '\n' !in lines[k]
    decreases |s|
  {
    if |s| == 0 then [""]
    else
      var rest := SplitLines(s[1..]);
      if s[0] == '\n' then [""] + rest
      else [[s[0]] + rest[0]] + rest[1..]
  }

  /** `lines.join("\n")`. */
  function JoinLines(lines: seq<string>): string
    decreases |lines|
  {
    if |lines| == 0 then ""
    else if |lines| == 1 then lines[0]
    else lines[0] + "\n" + JoinLines(lines[1..])
  }

  lemma {:induction false} JoinSplit(s: string)
    ensures JoinLines(SplitLines(s)) == s
    decreases |s|
  {
    if |s| > 0 {
      var rest := SplitLines(s[1..]);
      JoinSplit(s[1..]);
      if s[0] == '\n' {
        assert ([""] + rest)[1..] == rest;
      } else {
        var lines := [[s[0]] + rest[0]] + rest[1..];
        if |rest| > 1 {
          assert lines[1..] == rest[1..];
        }
      }
    }
  }

  /** Different texts never split into the same lines. */
  lemma SplitInjective(a: string, b: string)
    requires SplitLines(a) == SplitLines(b)
    ensures a == b
  {
    JoinSplit(a);
    JoinSplit(b);
  }

  // ---------------------------------------------------------------- change paths

  /** The leaf a recorded change refers to. */
  datatype ChangePath =
    | NpcName
    | SceneTextLine(line: nat)
    | CloseCommand(index: nat)
    | OpenCommand(index: nat)
    | ButtonDisplayName(button: nat)
    | ButtonCommand(button: nat, command: nat)

  /** The dotted path the source writes into the change list. */
  function PathText(p: ChangePath): string {
    match p
    case NpcName => "npcName"
    case SceneTextLine(i) => "sceneText." + NatText(i)
    case CloseCommand(i) => "closeCommands." + NatText(i)
    case OpenCommand(i) => "openCommands." + NatText(i)
    case ButtonDisplayName(b) => "button." + NatText(b) + ".displayName"
    case ButtonCommand(b, c) => "button." + NatText(b) + ".commands." + NatText(c)
  }

  /** What follows the button index in a button path. */
  function ButtonSuffix(p: ChangePath): string
    requires p.ButtonDisplayName? || p.ButtonCommand?
  {
    if p.ButtonDisplayName? then ".displayName" else ".commands." + NatText(p.command)
  }

  lemma PrefixCancels(a: string, x: string, y: string)
    requires a + x == a + y
    ensures x == y
  {
    assert x == (a + x)[|a|..];
    assert y == (a + y)[|a|..];
  }

  /** The first character of a path tells which kind of leaf it names. */
  lemma PathTextLead(p: ChangePath)
    ensures 0 < |PathText(p)|
    ensures PathText(p)[0] == match p
      case NpcName => 'n'
      case SceneTextLine(_) => 's'
      case CloseCommand(_) => 'c'
      case OpenCommand(_) => 'o'
      case ButtonDisplayName(_) => 'b'
      case ButtonCommand(_, _) => 'b'
  {
  }

  lemma ButtonPathSplit(p: ChangePath)
    requires p.ButtonDisplayName? || p.ButtonCommand?
    ensures PathText(p) == "button." + (NatText(p.button) + ButtonSuffix(p))
  {
  }

  /** Two button paths agree only for the same button and the same leaf of it. */
  lemma ButtonPathInjective(p: ChangePath, q: ChangePath)
    requires p.ButtonDisplayName? || p.ButtonCommand?
    requires q.ButtonDisplayName? || q.ButtonCommand?
    requires PathText(p) == PathText(q)
    ensures p == q
  {
    ButtonPathSplit(p);
    ButtonPathSplit(q);
    PrefixCancels("button.", NatText(p.button) + ButtonSuffix(p), NatText(q.button) + ButtonSuffix(q));
    DigitsPrefix(NatText(p.button), ButtonSuffix(p), NatText(q.button), ButtonSuffix(q));
    NatTextInjective(p.button, q.button);
    if p.ButtonCommand? && q.ButtonCommand? {
      PrefixCancels(".commands.", NatText(p.command), NatText(q.command));
      NatTextInjective(p.command, q.command);
    }
  }

  /** Different leaves are written as different paths. */
  lemma PathTextInjective(p: ChangePath, q: ChangePath)
    requires PathText(p) == PathText(q)
    ensures p == q
  {
    PathTextLead(p);
    PathTextLead(q);
    match p
    case NpcName =>
    case SceneTextLine(i) =>
      if q.SceneTextLine? {
        PrefixCancels("sceneText.", NatText(i), NatText(q.line));
        NatTextInjective(i, q.line);
      }
    case CloseCommand(i) =>
      if q.CloseCommand? {
        PrefixCancels("closeCommands.", NatText(i), NatText(q.index));
        NatTextInjective(i, q.index);
      }
    case OpenCommand(i) =>
      if q.OpenCommand? {
        PrefixCancels("openCommands.", NatText(i), NatText(q.index));
        NatTextInjective(i, q.index);
      }
    case ButtonDisplayName(_) =>
      if q.ButtonDisplayName? || q.ButtonCommand? {
        ButtonPathInjective(p, q);
      }
    case ButtonCommand(_, _) =>
      if q.ButtonDisplayName? || q.ButtonCommand? {
        ButtonPathInjective(p, q);
      }
  }

  /**
   * Within one scene, the change id `<sceneId>.<path>` names one leaf only, so
   * edits to different leaves never share a change id.
   */
  lemma ChangeIdInjective(id: string, p: ChangePath, q: ChangePath)
    requires id + "." + PathText(p) == id + "." + PathText(q)
    ensures p == q
  {
    assert id + "." + PathText(p) == (id + ".") + PathText(p);
    PrefixCancels(id + ".", PathText(p), PathText(q));
    PathTextInjective(p, q);
  }

  /** Which per-index list a recorded index belongs to. */
  datatype ListField = SceneTextLines | CloseCommands | OpenCommands | ButtonCommands(button: nat)

  function Entry(field: ListField, i: nat): ChangePath {
    match field
    case SceneTextLines => SceneTextLine(i)
    case CloseCommands => CloseCommand(i)
    case OpenCommands => OpenCommand(i)
    case ButtonCommands(b) => ButtonCommand(b, i)
  }

  function Tagged(indices: seq<nat>, field: ListField): (paths: seq<ChangePath>)
    ensures |paths| == |indices|
    ensures forall k :: 0 <= k < |indices| ==> paths[k] == Entry(field, indices[k])
  {
    seq(|indices|, k requires 0 <= k < |indices| => Entry(field, indices[k]))
  }

  /**
   * `a.forEach((x, i) => { if (x !== b[i]) changes.push(i) })`: the indices at
   * which two lists of equal length differ, in increasing order.
   */
  function DiffIndices(a: seq<string>, b: seq<string>): (r: seq<nat>)
    requires |a| == |b|
    decreases |a|
  {
    if |a| == 0 then []
    else
      var n := |a| - 1;
      DiffIndices(a[..n], b[..n]) + (if a[n] != b[n] then [n] else [])
  }

  /** The recorded indices are exactly those at which the lists differ, in increasing order. */
  lemma {:induction false} DiffIndicesExact(a: seq<string>, b: seq<string>)
    requires |a| == |b|
    ensures forall i: nat :: i in DiffIndices(a, b) <==> i < |a| && a[i] != b[i]
    ensures forall k, l :: 0 <= k < l < |DiffIndices(a, b)| ==> DiffIndices(a, b)[k] < DiffIndices(a, b)[l]
    decreases |a|
  {
    if |a| > 0 {
      var n := |a| - 1;
      var rest := DiffIndices(a[..n], b[..n]);
      DiffIndicesExact(a[..n], b[..n]);
      assert DiffIndices(a, b) == rest + (if a[n] != b[n] then [n] else []);
      forall i: nat
        ensures i in DiffIndices(a, b) <==> i < |a| && a[i] != b[i]
      {
        if i < n {
          assert a[..n][i] == a[i] && b[..n][i] == b[i];
        }
      }
      forall k | 0 <= k < |rest|
        ensures rest[k] < n
      {
        assert rest[k] in rest;
      }
    }
  }

  lemma DiffEmptyIff(a: seq<string>, b: seq<string>)
    requires |a| == |b|
    ensures DiffIndices(a, b) == [] <==> a == b
  {
    DiffIndicesExact(a, b);
    if a != b {
      var i :| 0 <= i < |a| && a[i] != b[i];
      assert i in DiffIndices(a, b);
    }
  }

  /** Two lists differing at exactly one index record exactly that index. */
  lemma {:induction false} DiffSingle(a: seq<string>, i: nat, x: string)
    requires i < |a| && x != a[i]
    ensures DiffIndices(a, a[i := x]) == [i]
    decreases |a|
  {
    var n := |a| - 1;
    var b := a[i := x];
    if i == n {
      assert b[..n] == a[..n];
      DiffEmptyIff(a[..n], a[..n]);
    } else {
      assert b[..n] == a[..n][i := x];
      DiffSingle(a[..n], i, x);
    }
  }

  // ---------------------------------------------------------------- buttons

  /**
   * The changes recorded for the button at `index`. When its command count
   * differs, the callback returns before recording anything: the `return` only
   * leaves the `forEach` callback, so the button contributes no change.
   */
  function OneButtonChanges(index: nat, oldButton: Button, newButton: Button): seq<ChangePath> {
    if |oldButton.commands| != |newButton.commands| then []
    else
      (if oldButton.displayName != newButton.displayName then [ButtonDisplayName(index)] else [])
      + Tagged(DiffIndices(oldButton.commands, newButton.commands), ButtonCommands(index))
  }

  /** The per-button change lists joined in order, as the pushes onto one list produce them. */
  function Flatten<T>(s: seq<seq<T>>): seq<T> {
    if |s| == 0 then [] else s[0] + Flatten(s[1..])
  }

  lemma {:induction false} FlattenEmptyIff<T>(s: seq<seq<T>>)
    ensures |Flatten(s)| == 0 <==> forall j :: 0 <= j < |s| ==> |s[j]| == 0
  {
    if |s| > 0 {
      FlattenEmptyIff(s[1..]);
      assert forall j :: 1 <= j < |s| ==> s[j] == s[1..][j - 1];
    }
  }

  /** When every part but the `i`-th is empty, the join is that part. */
  lemma {:induction false} FlattenSingle<T>(s: seq<seq<T>>, i: nat)
    requires i < |s|
    requires forall j :: 0 <= j < |s| && j != i ==> s[j] == []
    ensures Flatten(s) == s[i]
  {
    if i == 0 {
      FlattenEmptyIff(s[1..]);
      assert s[0] + Flatten(s[1..]) == s[0] + [];
    } else {
      assert forall j :: 0 <= j < |s| - 1 && j != i - 1 ==> s[1..][j] == s[j + 1];
      FlattenSingle(s[1..], i - 1);
      assert Flatten(s) == [] + s[i];
    }
  }

  /** What each button of equally many records, by index. */
  function PerButton(a: seq<Button>, b: seq<Button>): (r: seq<seq<ChangePath>>)
    requires |a| == |b|
  {
    seq(|a|, i requires 0 <= i < |a| => OneButtonChanges(i, a[i], b[i]))
  }

  /** The changes the `forEach` over equally many buttons records, in index order. */
  function ButtonChanges(a: seq<Button>, b: seq<Button>): seq<ChangePath>
    requires |a| == |b|
  {
    Flatten(PerButton(a, b))
  }

  /** A button whose command count changed is skipped; any other must be unchanged. */
  ghost predicate ButtonAgrees(x: Button, y: Button) {
    |x.commands| == |y.commands| ==> x == y
  }

  /** Equal buttons, or a button whose command count changed, record nothing. */
  ghost predicate ButtonsAgreeModuloCount(a: seq<Button>, b: seq<Button>) {
    |a| == |b| && forall i :: 0 <= i < |a| ==> ButtonAgrees(a[i], b[i])
  }

  lemma OneButtonEmptyIff(index: nat, x: Button, y: Button)
    ensures |OneButtonChanges(index, x, y)| == 0 <==> ButtonAgrees(x, y)
  {
    if |x.commands| == |y.commands| {
      DiffEmptyIff(x.commands, y.commands);
    }
  }

  /** The button changes are empty exactly when every button agrees, up to skipped ones. */
  lemma ButtonChangesEmptyIff(a: seq<Button>, b: seq<Button>)
    requires |a| == |b|
    ensures ButtonChanges(a, b) == [] <==> ButtonsAgreeModuloCount(a, b)
  {
    var per := PerButton(a, b);
    FlattenEmptyIff(per);
    forall i | 0 <= i < |a|
      ensures |per[i]| == 0 <==> ButtonAgrees(a[i], b[i])
    {
      OneButtonEmptyIff(i, a[i], b[i]);
    }
  }

  lemma OneButtonUnchanged(index: nat, x: Button)
    ensures OneButtonChanges(index, x, x) == []
  {
    OneButtonEmptyIff(index, x, x);
  }

  /** Replacing one button records exactly what that button records. */
  lemma ButtonChangesUpdate(a: seq<Button>, i: nat, nb: Button)
    requires i < |a|
    ensures ButtonChanges(a, a[i := nb]) == OneButtonChanges(i, a[i], nb)
  {
    var b := a[i := nb];
    var per := PerButton(a, b);
    forall j | 0 <= j < |a| && j != i
      ensures per[j] == []
    {
      OneButtonUnchanged(j, a[j]);
    }
    FlattenSingle(per, i);
  }

  // ---------------------------------------------------------------- the verdict

  /** What the comparison collects: an early structural return, or the leaf changes found. */
  datatype Recorded = Structural | Leaves(paths: seq<ChangePath>)

  /**
   * The text lines that changed; `None` when the texts differ and split into a
   * different number of lines. Equal texts are not split at all.
   */
  function LineChanges(oldText: string, newText: string): Option<seq<ChangePath>> {
    if oldText == newText then Some([])
    else
      var oldLines, newLines := SplitLines(oldText), SplitLines(newText);
      if |oldLines| != |newLines| then None
      else Some(Tagged(DiffIndices(oldLines, newLines), SceneTextLines))
  }

  function NpcNameChanges(o: Scene, n: Scene): seq<ChangePath> {
    if o.npcName != n.npcName then [NpcName] else []
  }

  /** The per-index changes of the command lists and the buttons, once their lengths agree. */
  function ListChanges(o: Scene, n: Scene): seq<ChangePath>
    requires |o.closeCommands| == |n.closeCommands| && |o.openCommands| == |n.openCommands| && |o.buttons| == |n.buttons|
  {
    Tagged(DiffIndices(o.closeCommands, n.closeCommands), CloseCommands)
    + Tagged(DiffIndices(o.openCommands, n.openCommands), OpenCommands)
    + ButtonChanges(o.buttons, n.buttons)
  }

  function RecordedChanges(o: Scene, n: Scene): Recorded {
    if o.sceneId != n.sceneId then Structural
    else
      var lines := LineChanges(o.sceneText, n.sceneText);
      if lines.None? then Structural
      else if |o.closeCommands| != |n.closeCommands| then Structural
      else if |o.openCommands| != |n.openCommands| then Structural
      else if |o.buttons| != |n.buttons| then Structural
      else Leaves(NpcNameChanges(o, n) + lines.value + ListChanges(o, n))
  }

  /** `compareScenes(oldScene, newScene)`. */
  function CompareScenes(o: Scene, n: Scene): StoreSceneUpdateInfo {
    match RecordedChanges(o, n)
    case Structural => MajorChange
    case Leaves(paths) =>
      if |paths| > 1 then MajorChange
      else if |paths| == 1 then MinorChange(n.sceneId + "." + PathText(paths[0]))
      else NoChange
  }

  // ---------------------------------------------------------------- properties

  /** The shape of the comparison when id, text and all lengths agree. */
  lemma SameShapeLeaves(o: Scene, n: Scene)
    requires o.sceneId == n.sceneId && o.sceneText == n.sceneText
    requires |o.closeCommands| == |n.closeCommands| && |o.openCommands| == |n.openCommands|
    requires |o.buttons| == |n.buttons|
    ensures RecordedChanges(o, n) == Leaves(NpcNameChanges(o, n) + ListChanges(o, n))
  {
    assert LineChanges(o.sceneText, n.sceneText) == Some([]);
    assert NpcNameChanges(o, n) + [] == NpcNameChanges(o, n);
  }

  /** Another id, or another number of lines, commands or buttons, is a major change. */
  lemma StructuralChangeIsMajor(o: Scene, n: Scene)
    requires || o.sceneId != n.sceneId
             || |SplitLines(o.sceneText)| != |SplitLines(n.sceneText)|
             || |o.closeCommands| != |n.closeCommands|
             || |o.openCommands| != |n.openCommands|
             || |o.buttons| != |n.buttons|
    ensures CompareScenes(o, n) == MajorChange
  {
  }

  /** The text contributes no change exactly when it is unchanged. */
  lemma LineChangesEmptyIff(oldText: string, newText: string)
    ensures LineChanges(oldText, newText) == Some([]) <==> oldText == newText
  {
    if oldText != newText {
      var oldLines, newLines := SplitLines(oldText), SplitLines(newText);
      if |oldLines| == |newLines| {
        if oldLines == newLines {
          SplitInjective(oldText, newText);
        }
        DiffEmptyIff(oldLines, newLines);
      }
    }
  }

  /** The verdict is `none` exactly when nothing was recorded and nothing was structural. */
  lemma NoChangeIffNothingRecorded(o: Scene, n: Scene)
    ensures CompareScenes(o, n) == NoChange <==> RecordedChanges(o, n) == Leaves([])
  {
  }

  /**
   * The verdict is `none` exactly when every leaf agrees, except that a button
   * whose command count changed is not compared at all.
   */
  lemma CompareNoChangeIff(o: Scene, n: Scene)
    ensures CompareScenes(o, n) == NoChange <==>
      && o.sceneId == n.sceneId
      && o.npcName == n.npcName
      && o.sceneText == n.sceneText
      && o.closeCommands == n.closeCommands
      && o.openCommands == n.openCommands
      && ButtonsAgreeModuloCount(o.buttons, n.buttons)
  {
    NoChangeIffNothingRecorded(o, n);
    LineChangesEmptyIff(o.sceneText, n.sceneText);
    if |o.closeCommands| == |n.closeCommands| {
      DiffEmptyIff(o.closeCommands, n.closeCommands);
    }
    if |o.openCommands| == |n.openCommands| {
      DiffEmptyIff(o.openCommands, n.openCommands);
    }
    if |o.buttons| == |n.buttons| {
      ButtonChangesEmptyIff(o.buttons, n.buttons);
    }
  }

  lemma CompareIdentical(s: Scene)
    ensures CompareScenes(s, s) == NoChange
  {
    CompareNoChangeIff(s, s);
  }

  lemma TaggedEmptyAndSingle(field: ListField, i: nat)
    ensures Tagged([], field) == []
    ensures Tagged([i], field) == [Entry(field, i)]
  {
  }

  /** Exactly one recorded change is a minor change named by the new id and the change's path. */
  lemma OneRecordedIsMinor(o: Scene, n: Scene, p: ChangePath, id: string, text: string)
    requires RecordedChanges(o, n) == Leaves([p])
    requires n.sceneId == id && PathText(p) == text
    ensures CompareScenes(o, n) == MinorChange(id + "." + text)
  {
  }

  /** Facts about a scene compared with itself, used by the single-leaf lemmas. */
  lemma SameParts(s: Scene)
    ensures DiffIndices(s.closeCommands, s.closeCommands) == []
    ensures DiffIndices(s.openCommands, s.openCommands) == []
    ensures ButtonChanges(s.buttons, s.buttons) == []
  {
    DiffEmptyIff(s.closeCommands, s.closeCommands);
    DiffEmptyIff(s.openCommands, s.openCommands);
    ButtonChangesEmptyIff(s.buttons, s.buttons);
  }

  lemma OnlyNpcNameChanged(o: Scene, name: string)
    requires name != o.npcName
    ensures CompareScenes(o, o.(npcName := name)) == MinorChange(o.sceneId + "." + "npcName")
  {
    var n := o.(npcName := name);
    SameParts(o);
    TaggedEmptyAndSingle(CloseCommands, 0);
    TaggedEmptyAndSingle(OpenCommands, 0);
    SameShapeLeaves(o, n);
    assert ListChanges(o, n) == [] + [] + [];
    assert RecordedChanges(o, n) == Leaves([NpcName] + ([] + [] + []));
    OneRecordedIsMinor(o, n, NpcName, o.sceneId, "npcName");
  }

  lemma RecordedSceneTextLine(o: Scene, text: string, i: nat)
    requires |SplitLines(text)| == |SplitLines(o.sceneText)| && i < |SplitLines(o.sceneText)|
    requires forall k :: 0 <= k < |SplitLines(text)| && k != i ==> SplitLines(text)[k] == SplitLines(o.sceneText)[k]
    requires SplitLines(text)[i] != SplitLines(o.sceneText)[i]
    ensures RecordedChanges(o, o.(sceneText := text)) == Leaves([SceneTextLine(i)])
  {
    var oldLines, newLines := SplitLines(o.sceneText), SplitLines(text);
    assert newLines == oldLines[i := newLines[i]];
    DiffSingle(oldLines, i, newLines[i]);
    TaggedEmptyAndSingle(SceneTextLines, i);
    assert o.sceneText != text;
    assert LineChanges(o.sceneText, text) == Some([SceneTextLine(i)]);
    SameParts(o);
    TaggedEmptyAndSingle(CloseCommands, i);
    TaggedEmptyAndSingle(OpenCommands, i);
    var n := o.(sceneText := text);
    assert NpcNameChanges(o, n) == [];
    assert ListChanges(o, n) == [] + [] + [];
    assert RecordedChanges(o, n) == Leaves([] + [SceneTextLine(i)] + ([] + [] + []));
  }

  lemma OnlySceneTextLineChanged(o: Scene, text: string, i: nat)
    requires |SplitLines(text)| == |SplitLines(o.sceneText)| && i < |SplitLines(o.sceneText)|
    requires forall k :: 0 <= k < |SplitLines(text)| && k != i ==> SplitLines(text)[k] == SplitLines(o.sceneText)[k]
    requires SplitLines(text)[i] != SplitLines(o.sceneText)[i]
    ensures CompareScenes(o, o.(sceneText := text)) == MinorChange(o.sceneId + "." + ("sceneText." + NatText(i)))
  {
    var n := o.(sceneText := text);
    RecordedSceneTextLine(o, text, i);
    OneRecordedIsMinor(o, n, SceneTextLine(i), o.sceneId, "sceneText." + NatText(i));
  }

  lemma RecordedCloseCommand(o: Scene, i: nat, command: string)
    requires i < |o.closeCommands| && command != o.closeCommands[i]
    ensures RecordedChanges(o, o.(closeCommands := o.closeCommands[i := command])) == Leaves([CloseCommand(i)])
  {
    var n := o.(closeCommands := o.closeCommands[i := command]);
    SameParts(o);
    DiffSingle(o.closeCommands, i, command);
    TaggedEmptyAndSingle(CloseCommands, i);
    TaggedEmptyAndSingle(OpenCommands, i);
    SameShapeLeaves(o, n);
    assert NpcNameChanges(o, n) == [];
    assert ListChanges(o, n) == [CloseCommand(i)] + [] + [];
    assert RecordedChanges(o, n) == Leaves([] + ([CloseCommand(i)] + [] + []));
  }

  lemma OnlyCloseCommandChanged(o: Scene, i: nat, command: string)
    requires i < |o.closeCommands| && command != o.closeCommands[i]
    ensures CompareScenes(o, o.(closeCommands := o.closeCommands[i := command]))
         == MinorChange(o.sceneId + "." + ("closeCommands." + NatText(i)))
  {
    var n := o.(closeCommands := o.closeCommands[i := command]);
    RecordedCloseCommand(o, i, command);
    OneRecordedIsMinor(o, n, CloseCommand(i), o.sceneId, "closeCommands." + NatText(i));
  }

  lemma OpenCommandListChanges(o: Scene, i: nat, command: string)
    requires i < |o.openCommands| && command != o.openCommands[i]
    ensures ListChanges(o, o.(openCommands := o.openCommands[i := command])) == [OpenCommand(i)]
  {
    var n := o.(openCommands := o.openCommands[i := command]);
    SameParts(o);
    DiffSingle(o.openCommands, i, command);
    TaggedEmptyAndSingle(CloseCommands, i);
    TaggedEmptyAndSingle(OpenCommands, i);
    assert ListChanges(o, n) == [] + [OpenCommand(i)] + [];
  }

  lemma RecordedOpenCommand(o: Scene, i: nat, command: string)
    requires i < |o.openCommands| && command != o.openCommands[i]
    ensures RecordedChanges(o, o.(openCommands := o.openCommands[i := command])) == Leaves([OpenCommand(i)])
  {
    var n := o.(openCommands := o.openCommands[i := command]);
    OpenCommandListChanges(o, i, command);
    SameShapeLeaves(o, n);
    assert NpcNameChanges(o, n) == [];
    assert RecordedChanges(o, n) == Leaves([] + [OpenCommand(i)]);
  }

  lemma OnlyOpenCommandChanged(o: Scene, i: nat, command: string)
    requires i < |o.openCommands| && command != o.openCommands[i]
    ensures CompareScenes(o, o.(openCommands := o.openCommands[i := command]))
         == MinorChange(o.sceneId + "." + ("openCommands." + NatText(i)))
  {
    var n := o.(openCommands := o.openCommands[i := command]);
    RecordedOpenCommand(o, i, command);
    OneRecordedIsMinor(o, n, OpenCommand(i), o.sceneId, "openCommands." + NatText(i));
  }

  lemma RecordedButtonName(o: Scene, i: nat, name: string)
    requires i < |o.buttons| && name != o.buttons[i].displayName
    ensures RecordedChanges(o, o.(buttons := o.buttons[i := o.buttons[i].(displayName := name)]))
         == Leaves([ButtonDisplayName(i)])
  {
    var nb := o.buttons[i].(displayName := name);
    var n := o.(buttons := o.buttons[i := nb]);
    SameParts(o);
    ButtonChangesUpdate(o.buttons, i, nb);
    DiffEmptyIff(o.buttons[i].commands, nb.commands);
    TaggedEmptyAndSingle(ButtonCommands(i), 0);
    assert OneButtonChanges(i, o.buttons[i], nb) == [ButtonDisplayName(i)] + [];
    TaggedEmptyAndSingle(CloseCommands, i);
    TaggedEmptyAndSingle(OpenCommands, i);
    SameShapeLeaves(o, n);
    assert NpcNameChanges(o, n) == [];
    assert ListChanges(o, n) == [] + [] + [ButtonDisplayName(i)];
    assert RecordedChanges(o, n) == Leaves([] + ([] + [] + [ButtonDisplayName(i)]));
  }

  lemma OnlyButtonNameChanged(o: Scene, i: nat, name: string)
    requires i < |o.buttons| && name != o.buttons[i].displayName
    ensures CompareScenes(o, o.(buttons := o.buttons[i := o.buttons[i].(displayName := name)]))
         == MinorChange(o.sceneId + "." + ("button." + NatText(i) + ".displayName"))
  {
    var n := o.(buttons := o.buttons[i := o.buttons[i].(displayName := name)]);
    RecordedButtonName(o, i, name);
    OneRecordedIsMinor(o, n, ButtonDisplayName(i), o.sceneId, "button." + NatText(i) + ".displayName");
  }

  lemma OneButtonCommandChanged(a: seq<Button>, i: nat, j: nat, command: string)
    requires i < |a| && j < |a[i].commands| && command != a[i].commands[j]
    ensures ButtonChanges(a, a[i := a[i].(commands := a[i].commands[j := command])]) == [ButtonCommand(i, j)]
  {
    var nb := a[i].(commands := a[i].commands[j := command]);
    ButtonChangesUpdate(a, i, nb);
    DiffSingle(a[i].commands, j, command);
    TaggedEmptyAndSingle(ButtonCommands(i), j);
    assert OneButtonChanges(i, a[i], nb) == [] + [ButtonCommand(i, j)];
  }

  lemma RecordedButtonCommand(o: Scene, i: nat, j: nat, command: string)
    requires i < |o.buttons| && j < |o.buttons[i].commands| && command != o.buttons[i].commands[j]
    ensures RecordedChanges(o, o.(buttons := o.buttons[i := o.buttons[i].(commands := o.buttons[i].commands[j := command])]))
         == Leaves([ButtonCommand(i, j)])
  {
    var nb := o.buttons[i].(commands := o.buttons[i].commands[j := command]);
    var n := o.(buttons := o.buttons[i := nb]);
    SameParts(o);
    OneButtonCommandChanged(o.buttons, i, j, command);
    TaggedEmptyAndSingle(CloseCommands, i);
    TaggedEmptyAndSingle(OpenCommands, i);
    SameShapeLeaves(o, n);
    assert NpcNameChanges(o, n) == [];
    assert ListChanges(o, n) == [] + [] + [ButtonCommand(i, j)];
    assert RecordedChanges(o, n) == Leaves([] + ([] + [] + [ButtonCommand(i, j)]));
  }

  lemma OnlyButtonCommandChanged(o: Scene, i: nat, j: nat, command: string)
    requires i < |o.buttons| && j < |o.buttons[i].commands| && command != o.buttons[i].commands[j]
    ensures CompareScenes(o, o.(buttons := o.buttons[i := o.buttons[i].(commands := o.buttons[i].commands[j := command])]))
         == MinorChange(o.sceneId + "." + ("button." + NatText(i) + ".commands." + NatText(j)))
  {
    var n := o.(buttons := o.buttons[i := o.buttons[i].(commands := o.buttons[i].commands[j := command])]);
    RecordedButtonCommand(o, i, j, command);
    OneRecordedIsMinor(o, n, ButtonCommand(i, j), o.sceneId, "button." + NatText(i) + ".commands." + NatText(j));
  }

  /**
   * Two leaf changes at once are a major change, even in unrelated fields: an
   * instance of `TwoDifferingLeavesAreMajor`.
   */
  lemma TwoLeafChangesAreMajor(o: Scene, name: string, i: nat, command: string)
    requires name != o.npcName
    requires i < |o.closeCommands| && command != o.closeCommands[i]
    ensures CompareScenes(o, o.(npcName := name, closeCommands := o.closeCommands[i := command])) == MajorChange
  {
    var n := o.(npcName := name, closeCommands := o.closeCommands[i := command]);
    TwoDifferingLeavesAreMajor(o, n, NpcName, CloseCommand(i));
  }

  /**
   * A button whose command count changed is skipped, even if its name changed as
   * well: on its own such an edit is classified `none`.
   */
  lemma ButtonCommandCountChangeIsIgnored(o: Scene, i: nat, nb: Button)
    requires i < |o.buttons| && |nb.commands| != |o.buttons[i].commands|
    ensures CompareScenes(o, o.(buttons := o.buttons[i := nb])) == NoChange
  {
    var n := o.(buttons := o.buttons[i := nb]);
    SameParts(o);
    ButtonChangesUpdate(o.buttons, i, nb);
    TaggedEmptyAndSingle(CloseCommands, i);
    TaggedEmptyAndSingle(OpenCommands, i);
    SameShapeLeaves(o, n);
    assert ListChanges(o, n) == [] + [] + [];
    assert RecordedChanges(o, n) == Leaves([] + ([] + [] + []));
  }

  // ------------------------------------------------------------ every differing leaf is recorded

  /** No early return: same id, as many text lines, and lists of the same lengths. */
  ghost predicate SameShape(o: Scene, n: Scene) {
    && o.sceneId == n.sceneId
    && |SplitLines(o.sceneText)| == |SplitLines(n.sceneText)|
    && |o.closeCommands| == |n.closeCommands|
    && |o.openCommands| == |n.openCommands|
    && |o.buttons| == |n.buttons|
  }

  /**
   * The leaf at path `p` holds different values in the two scenes: a reference
   * definition, field by field, of what the comparison should record. A
   * button whose command count changed has no differing leaf, as in the source.
   */
  ghost predicate LeafDiffers(o: Scene, n: Scene, p: ChangePath)
    requires SameShape(o, n)
  {
    match p
    case NpcName => o.npcName != n.npcName
    case SceneTextLine(i) => i < |SplitLines(o.sceneText)| && SplitLines(o.sceneText)[i] != SplitLines(n.sceneText)[i]
    case CloseCommand(i) => i < |o.closeCommands| && o.closeCommands[i] != n.closeCommands[i]
    case OpenCommand(i) => i < |o.openCommands| && o.openCommands[i] != n.openCommands[i]
    case ButtonDisplayName(b) =>
      b < |o.buttons| && |o.buttons[b].commands| == |n.buttons[b].commands|
      && o.buttons[b].displayName != n.buttons[b].displayName
    case ButtonCommand(b, c) =>
      b < |o.buttons| && |o.buttons[b].commands| == |n.buttons[b].commands| && c < |o.buttons[b].commands|
      && o.buttons[b].commands[c] != n.buttons[b].commands[c]
  }

  /** The paths a list field's entries take. */
  predicate IsEntry(field: ListField, p: ChangePath) {
    match field
    case SceneTextLines => p.SceneTextLine?
    case CloseCommands => p.CloseCommand?
    case OpenCommands => p.OpenCommand?
    case ButtonCommands(b) => p.ButtonCommand? && p.button == b
  }

  /** The list index an entry path names. */
  function EntryIndex(field: ListField, p: ChangePath): nat
    requires IsEntry(field, p)
  {
    match field
    case SceneTextLines => p.line
    case CloseCommands => p.index
    case OpenCommands => p.index
    case ButtonCommands(_) => p.command
  }

  /** A path is among a list's recorded entries exactly when it names a recorded index of that list. */
  lemma TaggedMember(indices: seq<nat>, field: ListField, p: ChangePath)
    ensures p in Tagged(indices, field) <==> IsEntry(field, p) && EntryIndex(field, p) in indices
  {
    var paths := Tagged(indices, field);
    if p in paths {
      var k :| 0 <= k < |paths| && paths[k] == p;
      assert p == Entry(field, indices[k]);
    }
    if IsEntry(field, p) && EntryIndex(field, p) in indices {
      var k :| 0 <= k < |indices| && indices[k] == EntryIndex(field, p);
      assert paths[k] == Entry(field, indices[k]) == p;
    }
  }

  /** A path is among the entries a per-index comparison records exactly when it names a differing index. */
  lemma DiffTaggedMember(a: seq<string>, b: seq<string>, field: ListField, p: ChangePath)
    requires |a| == |b|
    ensures p in Tagged(DiffIndices(a, b), field) <==>
      IsEntry(field, p) && EntryIndex(field, p) < |a| && a[EntryIndex(field, p)] != b[EntryIndex(field, p)]
  {
    TaggedMember(DiffIndices(a, b), field, p);
    DiffIndicesExact(a, b);
  }

  /** An element of the join lies in one of the parts, and every element of a part is in the join. */
  lemma {:induction false} FlattenMember<T>(s: seq<seq<T>>, x: T)
    ensures x in Flatten(s) <==> exists j :: 0 <= j < |s| && x in s[j]
  {
    if |s| > 0 {
      FlattenMember(s[1..], x);
      assert forall j :: 1 <= j < |s| ==> s[j] == s[1..][j - 1];
      if x in Flatten(s[1..]) {
        var j :| 0 <= j < |s| - 1 && x in s[1..][j];
        assert x in s[j + 1];
      }
    }
  }

  /** What one button records: its name and its differing commands, unless its command count changed. */
  lemma OneButtonMember(index: nat, x: Button, y: Button, p: ChangePath)
    ensures p in OneButtonChanges(index, x, y) <==>
      |x.commands| == |y.commands| &&
      ((p == ButtonDisplayName(index) && x.displayName != y.displayName) ||
       (p.ButtonCommand? && p.button == index && p.command < |x.commands| && x.commands[p.command] != y.commands[p.command]))
  {
    if |x.commands| == |y.commands| {
      DiffTaggedMember(x.commands, y.commands, ButtonCommands(index), p);
    }
  }

  /** A path is among the buttons' records exactly when it names a differing leaf of the button it indexes. */
  lemma ButtonChangesMember(a: seq<Button>, b: seq<Button>, p: ChangePath)
    requires |a| == |b|
    ensures p in ButtonChanges(a, b) <==>
      (p.ButtonDisplayName? || p.ButtonCommand?) && p.button < |a| && p in OneButtonChanges(p.button, a[p.button], b[p.button])
  {
    var per := PerButton(a, b);
    FlattenMember(per, p);
    if p in ButtonChanges(a, b) {
      var j :| 0 <= j < |per| && p in per[j];
      OneButtonMember(j, a[j], b[j], p);
    }
    if (p.ButtonDisplayName? || p.ButtonCommand?) && p.button < |a| {
      assert per[p.button] == OneButtonChanges(p.button, a[p.button], b[p.button]);
    }
  }

  /** The leaves recorded for two scenes of the same shape. */
  lemma SameShapeRecorded(o: Scene, n: Scene)
    requires SameShape(o, n)
    ensures RecordedChanges(o, n) == Leaves(NpcNameChanges(o, n)
      + Tagged(DiffIndices(SplitLines(o.sceneText), SplitLines(n.sceneText)), SceneTextLines)
      + ListChanges(o, n))
  {
    if o.sceneText == n.sceneText {
      DiffEmptyIff(SplitLines(o.sceneText), SplitLines(n.sceneText));
    }
    assert LineChanges(o.sceneText, n.sceneText)
      == Some(Tagged(DiffIndices(SplitLines(o.sceneText), SplitLines(n.sceneText)), SceneTextLines));
  }

  /** The button part of the comparison records exactly the differing button leaves. */
  lemma ButtonLeafRecorded(o: Scene, n: Scene, p: ChangePath)
    requires SameShape(o, n) && (p.ButtonDisplayName? || p.ButtonCommand?)
    ensures p in ButtonChanges(o.buttons, n.buttons) <==> LeafDiffers(o, n, p)
  {
    ButtonChangesMember(o.buttons, n.buttons, p);
    if p.button < |o.buttons| {
      OneButtonMember(p.button, o.buttons[p.button], n.buttons[p.button], p);
    }
  }

  /** A list-entry path is recorded exactly when that entry differs. */
  lemma ListLeafRecorded(o: Scene, n: Scene, p: ChangePath)
    requires SameShape(o, n)
    ensures p in Tagged(DiffIndices(SplitLines(o.sceneText), SplitLines(n.sceneText)), SceneTextLines) <==> p.SceneTextLine? && LeafDiffers(o, n, p)
    ensures p in Tagged(DiffIndices(o.closeCommands, n.closeCommands), CloseCommands) <==> p.CloseCommand? && LeafDiffers(o, n, p)
    ensures p in Tagged(DiffIndices(o.openCommands, n.openCommands), OpenCommands) <==> p.OpenCommand? && LeafDiffers(o, n, p)
  {
    DiffTaggedMember(SplitLines(o.sceneText), SplitLines(n.sceneText), SceneTextLines, p);
    DiffTaggedMember(o.closeCommands, n.closeCommands, CloseCommands, p);
    DiffTaggedMember(o.openCommands, n.openCommands, OpenCommands, p);
  }

  /**
   * For two scenes of the same shape, a path is among the recorded changes
   * exactly when the leaf it names differs: nothing differing is missed and
   * nothing equal is recorded.
   */
  lemma RecordedIffLeafDiffers(o: Scene, n: Scene, p: ChangePath)
    requires SameShape(o, n)
    ensures RecordedChanges(o, n).Leaves?
    ensures p in RecordedChanges(o, n).paths <==> LeafDiffers(o, n, p)
  {
    SameShapeRecorded(o, n);
    ListLeafRecorded(o, n, p);
    if p.ButtonDisplayName? || p.ButtonCommand? {
      ButtonLeafRecorded(o, n, p);
    } else {
      ButtonChangesMember(o.buttons, n.buttons, p);
    }
  }

  /** A sequence holding two different values has more than one element. */
  lemma TwoMembers<T>(s: seq<T>, x: T, y: T)
    requires x in s && y in s && x != y
    ensures |s| > 1
  {
  }

  /** Any two different differing leaves, in any fields, make the change major. */
  lemma TwoDifferingLeavesAreMajor(o: Scene, n: Scene, p: ChangePath, q: ChangePath)
    requires SameShape(o, n) && p != q
    requires LeafDiffers(o, n, p) && LeafDiffers(o, n, q)
    ensures CompareScenes(o, n) == MajorChange
  {
    RecordedIffLeafDiffers(o, n, p);
    RecordedIffLeafDiffers(o, n, q);
    TwoMembers(RecordedChanges(o, n).paths, p, q);
  }

  /** A single differing leaf never goes unnoticed: the verdict is not `none`. */
  lemma DifferingLeafIsNoticed(o: Scene, n: Scene, p: ChangePath)
    requires SameShape(o, n) && LeafDiffers(o, n, p)
    ensures CompareScenes(o, n) != NoChange
  {
    RecordedIffLeafDiffers(o, n, p);
    NoChangeIffNothingRecorded(o, n);
  }
}
