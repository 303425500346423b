/**
 * Edits of the show as a whole: deleting a wall (and its output nodes in
 * every cue), reordering walls and acts, stepping through the cues of the
 * show, dragging a corner of a wall, selecting files in the explorer and
 * keeping the list of saved colours.
 */
module ProjectEdits {
  import opened Wrappers
  import opened Graph
  import Homography
  import Playback

  // ---------------------------------------------------------------------------
  // Reordering

  /** The list with the entries at i and j exchanged. */
  function Swap<T>(s: seq<T>, i: nat, j: nat): (r: seq<T>)
    requires i < |s| && j < |s|
    ensures |r| == |s| && r[i] == s[j] && r[j] == s[i]
    ensures forall k :: 0 <= k < |s| && k != i && k != j ==> r[k] == s[k]
  {
    s[i := s[j]][j := s[i]]
  }

  /** A swap only reorders: the entries are the same, with the same multiplicities. */
  lemma SwapIsPermutation<T>(s: seq<T>, i: nat, j: nat)
    requires i < |s| && j < |s|
    ensures multiset(Swap(s, i, j)) == multiset(s)
  {
    var t := s[i := s[j]];
    assert multiset(t) == multiset(s) - multiset{s[i]} + multiset{s[j]};
    assert multiset(t[j := s[i]]) == multiset(t) - multiset{t[j]} + multiset{s[i]};
  }

  /** Swapping twice restores the list. */
  lemma SwapTwice<T>(s: seq<T>, i: nat, j: nat)
    requires i < |s| && j < |s|
    ensures Swap(Swap(s, i, j), i, j) == s
  {
  }

  /** `moveWall`: exchange the wall with the neighbour `dir` places away, if both exist. */
  function MoveWall(walls: seq<Wall>, id: int, dir: int): (r: seq<Wall>)
    ensures multiset(r) == multiset(walls)
    ensures |r| == |walls|
  {
    var idx := FindIndex(walls, (w: Wall) => w.id == id);
    if idx.None? || idx.value + dir < 0 || idx.value + dir >= |walls| then walls
    else
      SwapIsPermutation(walls, idx.value, idx.value + dir);
      Swap(walls, idx.value, idx.value + dir)
  }

  /** Moving an unknown wall, or moving past either end, changes nothing; otherwise two neighbours trade places. */
  lemma MoveWallCases(walls: seq<Wall>, id: int, dir: int)
    ensures var idx := FindIndex(walls, (w: Wall) => w.id == id);
      && (idx.None? || idx.value + dir < 0 || idx.value + dir >= |walls| ==> MoveWall(walls, id, dir) == walls)
      && (idx.Some? && 0 <= idx.value + dir < |walls| ==>
            MoveWall(walls, id, dir) == Swap(walls, idx.value, idx.value + dir) &&
            MoveWall(walls, id, dir)[idx.value + dir] == walls[idx.value] &&
            MoveWall(walls, id, dir)[idx.value] == walls[idx.value + dir])
  {
  }

  /** `moveScene`: exchange act `index` with its neighbour `dir` places away, if that one exists. */
  function MoveScene(scenes: seq<Scene>, index: nat, dir: int): (r: seq<Scene>)
    requires index < |scenes|
    ensures multiset(r) == multiset(scenes)
    ensures index + dir < 0 || index + dir >= |scenes| ==> r == scenes
    ensures 0 <= index + dir < |scenes| ==> r == Swap(scenes, index, index + dir)
  {
    if index + dir < 0 || index + dir >= |scenes| then scenes
    else
      SwapIsPermutation(scenes, index, index + dir);
      Swap(scenes, index, index + dir)
  }

  /** Moving an act one way and back restores the order. */
  lemma MoveSceneBack(scenes: seq<Scene>, index: nat, dir: int)
    requires index < |scenes| && 0 <= index + dir < |scenes|
    ensures MoveScene(MoveScene(scenes, index, dir), index + dir, -dir) == scenes
  {
    var once := MoveScene(scenes, index, dir);
    assert MoveScene(once, index + dir, -dir) == Swap(once, index + dir, index);
  }

  // ---------------------------------------------------------------------------
  // Stepping through the cues

  /** The number of cues in the given acts. */
  function CueCount(scenes: seq<Scene>): nat {
    if |scenes| == 0 then 0 else |scenes[0].cues| + CueCount(scenes[1..])
  }

  /** The cues of one act in order, as (act id, cue id). */
  function ActCues(s: Scene): (r: seq<(int, int)>)
    ensures |r| == |s.cues|
    ensures forall k :: 0 <= k < |r| ==> r[k] == (s.id, s.cues[k].id)
  {
    seq(|s.cues|, k requires 0 <= k < |s.cues| => (s.id, s.cues[k].id))
  }

  /** The cues before act i are those of the first act and those before act i - 1 of the rest. */
  lemma CueCountPrefix(scenes: seq<Scene>, i: nat)
    requires 0 < i <= |scenes|
    ensures CueCount(scenes[..i]) == |scenes[0].cues| + CueCount(scenes[1..][..i - 1])
  {
    assert scenes[..i][1..] == scenes[1..][..i - 1];
  }

  /** Every cue of the show in play order, as (act id, cue id). */
  function Flatten(scenes: seq<Scene>): (flat: seq<(int, int)>)
    ensures |flat| == CueCount(scenes)
  {
    if |scenes| == 0 then [] else ActCues(scenes[0]) + Flatten(scenes[1..])
  }

  /** Every cue of the show appears in the play order. */
  lemma FlattenHasEveryCue(scenes: seq<Scene>, s: Scene, c: Cue)
    requires s in scenes && c in s.cues
    ensures (s.id, c.id) in Flatten(scenes)
  {
    var i :| 0 <= i < |scenes| && scenes[i] == s;
    var j :| 0 <= j < |s.cues| && s.cues[j] == c;
    FlattenOrder(scenes, i, j);
  }

  /** Nothing but the show's cues appears in the play order. */
  lemma {:induction false} FlattenOnlyCues(scenes: seq<Scene>, e: (int, int))
    requires e in Flatten(scenes)
    ensures exists s, c :: s in scenes && c in s.cues && e == (s.id, c.id)
  {
    var here := ActCues(scenes[0]);
    assert Flatten(scenes) == here + Flatten(scenes[1..]);
    if e in here {
      var k :| 0 <= k < |here| && here[k] == e;
      assert scenes[0] in scenes && scenes[0].cues[k] in scenes[0].cues;
    } else {
      FlattenOnlyCues(scenes[1..], e);
      var s, c :| s in scenes[1..] && c in s.cues && e == (s.id, c.id);
      assert s in scenes;
    }
  }

  /**
   * The play order: cue j of act i sits after all cues of the acts before it,
   * at position `CueCount(scenes[..i]) + j`.
   */
  lemma {:induction false} FlattenOrder(scenes: seq<Scene>, i: nat, j: nat)
    requires i < |scenes| && j < |scenes[i].cues|
    ensures CueCount(scenes[..i]) + j < |Flatten(scenes)|
    ensures Flatten(scenes)[CueCount(scenes[..i]) + j] == (scenes[i].id, scenes[i].cues[j].id)
    decreases i
  {
    var flat := Flatten(scenes);
    var here := ActCues(scenes[0]);
    var rest := Flatten(scenes[1..]);
    assert flat == here + rest;
    if i == 0 {
      assert CueCount(scenes[..0]) == 0;
      assert flat[j] == here[j];
    } else {
      FlattenOrder(scenes[1..], i - 1, j);
      CueCountPrefix(scenes, i);
      var before := CueCount(scenes[1..][..i - 1]);
      assert flat[|here| + before + j] == rest[before + j];
    }
  }

  /** The position of the selected cue in play order. */
  function CurrentIndex(flat: seq<(int, int)>, sel: Playback.Selection): Option<nat> {
    FindIndex(flat, (e: (int, int)) => Some(e.0) == sel.sceneId && Some(e.1) == Playback.TargetCueId(sel))
  }

  /** Selecting one entry of the play order. */
  function SelectEntry(e: (int, int)): (sel: Playback.Selection)
    ensures Playback.TargetCueId(sel) == Some(e.1) && sel.sceneId == Some(e.0)
  {
    Playback.Selection("cue", Some(e.0), Some(e.1), None, None)
  }

  /** `navigateCue`: select the cue `direction` steps away in play order, if there is one. */
  function NavigateCue(scenes: seq<Scene>, sel: Playback.Selection, direction: int): (r: Playback.Selection)
    ensures var cur := CurrentIndex(Flatten(scenes), sel);
      cur.Some? && 0 <= cur.value + direction < |Flatten(scenes)| ==>
        r == SelectEntry(Flatten(scenes)[cur.value + direction])
    ensures var cur := CurrentIndex(Flatten(scenes), sel);
      cur.None? || cur.value + direction < 0 || cur.value + direction >= |Flatten(scenes)| ==> r == sel
  {
    var flat := Flatten(scenes);
    var current := CurrentIndex(flat, sel);
    if current.None? then sel
    else
      var next := current.value + direction;
      if 0 <= next < |flat| then
        assert SelectEntry(Flatten(scenes)[next]) == SelectEntry(flat[next]);
        SelectEntry(flat[next])
      else sel
  }

  /** At either end of the play order, stepping outwards keeps the selection. */
  lemma NavigateStopsAtEnds(scenes: seq<Scene>, sel: Playback.Selection)
    requires CurrentIndex(Flatten(scenes), sel) == Some(|Flatten(scenes)| - 1) || CurrentIndex(Flatten(scenes), sel) == Some(0)
    ensures CurrentIndex(Flatten(scenes), sel) == Some(0) ==> NavigateCue(scenes, sel, -1) == sel
    ensures CurrentIndex(Flatten(scenes), sel) == Some(|Flatten(scenes)| - 1) ==> NavigateCue(scenes, sel, 1) == sel
  {
  }

  /** In a show where every (act, cue) pair is distinct, stepping forward then back returns to the same cue. */
  lemma NavigateForwardBack(scenes: seq<Scene>, sel: Playback.Selection)
    requires var flat := Flatten(scenes); forall i, j :: 0 <= i < j < |flat| ==> flat[i] != flat[j]
    requires var c := CurrentIndex(Flatten(scenes), sel); c.Some? && c.value + 1 < |Flatten(scenes)|
    ensures var back := NavigateCue(scenes, NavigateCue(scenes, sel, 1), -1);
      back.sceneId == sel.sceneId && Playback.TargetCueId(back) == Playback.TargetCueId(sel)
  {
    var flat := Flatten(scenes);
    var c := CurrentIndex(flat, sel).value;
    var fwd := NavigateCue(scenes, sel, 1);
    assert fwd == SelectEntry(flat[c + 1]);
    var p := (e: (int, int)) => Some(e.0) == fwd.sceneId && Some(e.1) == Playback.TargetCueId(fwd);
    assert CurrentIndex(flat, fwd) == Some(c + 1) by {
      FindIsFirst(flat, p, c + 1);
      assert Find(flat, p) == Some(flat[c + 1]);
      var k := FindIndex(flat, p);
      assert k.Some? && flat[k.value] == flat[c + 1];
    }
    var (s0, c0) := flat[c];
    assert sel.sceneId == Some(s0) && Playback.TargetCueId(sel) == Some(c0);
  }

  // ---------------------------------------------------------------------------
  // Walls

  /** A wall's corner list with corner idx at (cx, cy): the whole quad dragged in move mode, one corner otherwise. */
  function DragCorner(points: seq<Homography.Point>, idx: nat, cx: real, cy: real, moveMode: bool): (r: seq<Homography.Point>)
    requires idx < |points|
    ensures |r| == |points| && r[idx] == Homography.Point(cx, cy)
  {
    if moveMode then
      var dx, dy := cx - points[idx].x, cy - points[idx].y;
      seq(|points|, k requires 0 <= k < |points| => Homography.Point(points[k].x + dx, points[k].y + dy))
    else points[idx := Homography.Point(cx, cy)]
  }

  /** In move mode the quad keeps its shape: every corner moves by the same offset. */
  lemma DragTranslates(points: seq<Homography.Point>, idx: nat, cx: real, cy: real)
    requires idx < |points|
    ensures var r := DragCorner(points, idx, cx, cy, true);
      forall k, l :: 0 <= k < |points| && 0 <= l < |points| ==>
        r[k].x - r[l].x == points[k].x - points[l].x && r[k].y - r[l].y == points[k].y - points[l].y
  {
  }

  /** Outside move mode only the dragged corner changes. */
  lemma DragOneCorner(points: seq<Homography.Point>, idx: nat, cx: real, cy: real)
    requires idx < |points|
    ensures forall k :: 0 <= k < |points| && k != idx ==> DragCorner(points, idx, cx, cy, false)[k] == points[k]
  {
  }

  /** `updatePoint`: drag corner idx of the wall(s) with that id; other walls are untouched. */
  function UpdatePoint(walls: seq<Wall>, wallId: int, idx: nat, cx: real, cy: real, moveMode: bool): (r: seq<Wall>)
    requires forall w :: w in walls && w.id == wallId ==> idx < |w.points|
    ensures |r| == |walls|
    ensures forall i :: 0 <= i < |walls| && walls[i].id != wallId ==> r[i] == walls[i]
    ensures forall i :: 0 <= i < |walls| && walls[i].id == wallId ==>
      r[i] == walls[i].(points := DragCorner(walls[i].points, idx, cx, cy, moveMode))
  {
    seq(|walls|, i requires 0 <= i < |walls| =>
      if walls[i].id != wallId then walls[i]
      else walls[i].(points := DragCorner(walls[i].points, idx, cx, cy, moveMode)))
  }

  /** A cue after its wall's output nodes are removed, keeping the connections whose ends both remain. */
  function PruneCue(cue: Cue, wallId: int): (r: Cue)
    ensures cue.nodes.None? ==> r == cue
    ensures r.(nodes := cue.nodes, connections := cue.connections) == cue
    ensures cue.nodes.Some? ==> r.nodes.Some? && r.connections.Some?
    ensures cue.nodes.Some? ==> forall n :: n in r.nodes.value <==> n in cue.nodes.value && !IsOutputFor(n, wallId)
    ensures cue.nodes.Some? ==> forall c :: c in r.connections.value <==>
      c in cue.connections.GetOr([]) && c.from in Ids(r.nodes.value) && c.to in Ids(r.nodes.value)
  {
    if cue.nodes.None? then cue
    else
      var keep := Filter(cue.nodes.value, (n: Node) => !IsOutputFor(n, wallId));
      var ids := Ids(keep);
      cue.(nodes := Some(keep),
           connections := Some(Filter(cue.connections.GetOr([]), (c: Connection) => c.from in ids && c.to in ids)))
  }

  /**
   * After pruning, a cue with nodes has no output node for the wall, keeps every other
   * node, and no connection dangles, even if some did before.
   */
  lemma PruneCueClean(cue: Cue, wallId: int)
    requires cue.nodes.Some?
    ensures var r := PruneCue(cue, wallId);
      && (forall n :: n in r.nodes.value <==> n in cue.nodes.value && !IsOutputFor(n, wallId))
      && NoDangling(r.nodes.value, r.connections.value)
      && (forall c :: c in r.connections.value ==> c in cue.connections.GetOr([]))
  {
  }

  /**
   * `deleteWall`, once confirmed: the walls without it, every cue of every act pruned of
   * its output nodes, and the active wall cleared if it was the deleted one.
   */
  function DeleteWall(walls: seq<Wall>, scenes: seq<Scene>, id: int, activeWallId: Option<int>): (r: (seq<Wall>, seq<Scene>, Option<int>))
    ensures forall w :: w in r.0 <==> w in walls && w.id != id
    ensures activeWallId == Some(id) ==> r.2.None?
    ensures activeWallId != Some(id) ==> r.2 == activeWallId
    ensures |r.1| == |scenes|
    ensures forall i :: 0 <= i < |scenes| ==>
      r.1[i].id == scenes[i].id && |r.1[i].cues| == |scenes[i].cues| &&
      forall j :: 0 <= j < |scenes[i].cues| ==> r.1[i].cues[j] == PruneCue(scenes[i].cues[j], id)
    ensures forall i :: 0 <= i < |scenes| ==> r.1[i] == scenes[i].(cues := r.1[i].cues)
  {
    (Filter(walls, (w: Wall) => w.id != id),
     seq(|scenes|, i requires 0 <= i < |scenes| =>
       scenes[i].(cues := seq(|scenes[i].cues|, j requires 0 <= j < |scenes[i].cues| => PruneCue(scenes[i].cues[j], id)))),
     if activeWallId == Some(id) then None else activeWallId)
  }

  /** After deleting a wall no cue in the show still draws to it. */
  lemma DeleteWallLeavesNoOutput(walls: seq<Wall>, scenes: seq<Scene>, id: int, activeWallId: Option<int>)
    ensures var r := DeleteWall(walls, scenes, id, activeWallId);
      forall s, c, n :: s in r.1 && c in s.cues && c.nodes.Some? && n in c.nodes.value ==> !IsOutputFor(n, id)
  {
    var r := DeleteWall(walls, scenes, id, activeWallId);
    forall s, c, n | s in r.1 && c in s.cues && c.nodes.Some? && n in c.nodes.value
      ensures !IsOutputFor(n, id)
    {
      var i :| 0 <= i < |r.1| && r.1[i] == s;
      var j :| 0 <= j < |s.cues| && s.cues[j] == c;
      assert c == PruneCue(scenes[i].cues[j], id);
      PruneCueClean(scenes[i].cues[j], id);
    }
  }

  // ---------------------------------------------------------------------------
  // Lists of the editor

  /** `toggleSelect`: remove the path from the selection if selected, otherwise append it. */
  function ToggleSelect(selected: seq<string>, path: string): (r: seq<string>)
    ensures path in r <==> path !in selected
    ensures forall p :: p != path ==> (p in r <==> p in selected)
  {
    if path in selected then Filter(selected, (p: string) => p != path) else selected + [path]
  }

  /** Selecting an unselected path and toggling it again restores the selection. */
  lemma ToggleTwice(selected: seq<string>, path: string)
    requires path !in selected
    ensures ToggleSelect(ToggleSelect(selected, path), path) == selected
  {
    FilterAppend(selected, [path], (p: string) => p != path);
    FilterAll(selected, (p: string) => p != path);
  }

  /** The number of custom colours kept. */
  const SavedColorLimit := 16

  /** The last `SavedColorLimit` entries. */
  function KeepLast(s: seq<string>): (r: seq<string>)
    ensures |r| <= SavedColorLimit && |r| <= |s|
  {
    if |s| > SavedColorLimit then s[|s| - SavedColorLimit..] else s
  }

  /** `handleSaveColor`: append a new colour, keeping the most recent sixteen; a known colour changes nothing. */
  function SaveColor(colors: seq<string>, value: string): (r: seq<string>)
    ensures value in colors ==> r == colors
    ensures value !in colors ==> |r| <= SavedColorLimit && |r| > 0 && r[|r| - 1] == value
  {
    if value in colors then colors else KeepLast(colors + [value])
  }

  /** Saving keeps the palette free of duplicates and within sixteen entries, dropping only the oldest. */
  lemma SaveColorKeepsPalette(colors: seq<string>, value: string)
    requires |colors| <= SavedColorLimit
    requires forall i, j :: 0 <= i < j < |colors| ==> colors[i] != colors[j]
    ensures var r := SaveColor(colors, value);
      && |r| <= SavedColorLimit
      && (forall i, j :: 0 <= i < j < |r| ==> r[i] != r[j])
      && value in r
      && (value !in colors ==> r == (if |colors| == SavedColorLimit then colors[1..] else colors) + [value])
  {
    var r := SaveColor(colors, value);
    if value !in colors {
      var s := colors + [value];
      forall i, j | 0 <= i < j < |r|
        ensures r[i] != r[j]
      {
        var off := |s| - |r|;
        assert r[i] == s[i + off] && r[j] == s[j + off];
      }
    }
  }
}
