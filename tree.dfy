/** The growing tree of the progress page (`TreeVisualization`): growth
    stages by level, the drawing size, the trunk and the tree's lift above
    the ground, and the floating leaves. */
module Tree {

  /** The five growth stages, from seedling to oak; a stage starts at
      levels 3, 5, 7 and 10. */
  function Stage(level: int): (r: nat)
    ensures r <= 4
    ensures r == 0 <==> level < 3
    ensures r == 1 <==> 3 <= level < 5
    ensures r == 2 <==> 5 <= level < 7
    ensures r == 3 <==> 7 <= level < 10
    ensures r == 4 <==> level >= 10
  {
    if level >= 10 then 4
    else if level >= 7 then 3
    else if level >= 5 then 2
    else if level >= 3 then 1
    else 0
  }

  /** `getTreeEmoji`: one emoji per stage. */
  function TreeEmoji(level: int): (r: string)
    ensures r == ["\U{1F33E}", "\U{1F331}", "\U{1F33F}", "\U{1F332}", "\U{1F333}"][Stage(level)]
  {
    if level >= 10 then "\U{1F333}"
    else if level >= 7 then "\U{1F332}"
    else if level >= 5 then "\U{1F33F}"
    else if level >= 3 then "\U{1F331}"
    else "\U{1F33E}"
  }

  /** `getTreeName`: one name per stage. */
  function TreeName(level: int): (r: string)
    ensures r == ["Tiny Seedling", "Young Sprout", "Growing Bush", "Flourishing Pine", "Mighty Productivity Oak"][Stage(level)]
  {
    if level >= 10 then "Mighty Productivity Oak"
    else if level >= 7 then "Flourishing Pine"
    else if level >= 5 then "Growing Bush"
    else if level >= 3 then "Young Sprout"
    else "Tiny Seedling"
  }

  /** The emoji and the name are both fixed by the stage, and each tells
      the stages apart. */
  lemma EmojiAndNameFollowStage(a: int, b: int)
    ensures TreeEmoji(a) == TreeEmoji(b) <==> Stage(a) == Stage(b)
    ensures TreeName(a) == TreeName(b) <==> Stage(a) == Stage(b)
  {
    var emojis := ["\U{1F33E}", "\U{1F331}", "\U{1F33F}", "\U{1F332}", "\U{1F333}"];
    var names := ["Tiny Seedling", "Young Sprout", "Growing Bush", "Flourishing Pine", "Mighty Productivity Oak"];
    assert TreeEmoji(a) == emojis[Stage(a)] && TreeEmoji(b) == emojis[Stage(b)];
    assert TreeName(a) == names[Stage(a)] && TreeName(b) == names[Stage(b)];
    assert forall i, j :: 0 <= i < j < 5 ==> emojis[i][0] != emojis[j][0];
    assert forall i, j :: 0 <= i < j < 5 ==> names[i] != names[j] by {
      assert forall i, j :: 0 <= i < j < 5 ==> |names[i]| != |names[j]| || names[i][0] != names[j][0];
    }
  }

  /** So the emoji changes exactly when the name does. */
  lemma EmojiChangesWithName(a: int, b: int)
    ensures TreeEmoji(a) == TreeEmoji(b) <==> TreeName(a) == TreeName(b)
  {
    EmojiAndNameFollowStage(a, b);
  }

  /** `getTreeSize`: `Math.min(128 + level * 8, 256)` pixels. */
  function TreeSize(level: int): (r: int)
    ensures r <= 256
    ensures r == 256 <==> level >= 16
    ensures level < 16 ==> r == 128 + 8 * level
  {
    if 128 + level * 8 < 256 then 128 + level * 8 else 256
  }

  /** The tree never shrinks as the level rises. */
  lemma TreeSizeMonotone(a: int, b: int)
    requires a <= b
    ensures TreeSize(a) <= TreeSize(b)
  {
  }

  /** The trunk, drawn from level 3 on: width and height in pixels. */
  datatype Trunk = Trunk(width: int, height: int)

  function TrunkOf(level: int): (r: Trunk)
    requires level >= 3
    ensures r.width >= 8 && r.width >= 2 * level && (r.width == 8 || r.width == 2 * level)
    ensures r.height >= 20 && r.height >= 4 * level && (r.height == 20 || r.height == 4 * level)
    ensures level >= 5 ==> r.height == 2 * r.width
  {
    Trunk(if 8 < level * 2 then level * 2 else 8, if 20 < level * 4 then level * 4 else 20)
  }

  /** Whether the trunk is drawn. */
  predicate HasTrunk(level: int) {
    level >= 3
  }

  /** The lift of the tree above the ground, in pixels:
      `Math.max(16, level * 3)` once there is a trunk, 0 before. */
  function BottomOffset(level: int): (r: int)
    ensures r >= 0
    ensures r > 0 <==> HasTrunk(level)
    ensures HasTrunk(level) ==> r >= 16 && r >= 3 * level && (r == 16 || r == 3 * level)
  {
    if level >= 3 then (if 16 < level * 3 then level * 3 else 16) else 0
  }

  /** The tree is never lifted higher than its trunk is tall. */
  lemma TreeRestsOnTrunk(level: int)
    requires HasTrunk(level)
    ensures BottomOffset(level) <= TrunkOf(level).height
  {
  }

  /** The floating leaves appear only once a task was completed this
      week. */
  predicate LeavesShown(completedTasks: int) {
    completedTasks > 0
  }
}
