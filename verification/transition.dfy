/**
 * Cue playback: the selection that names the cue on stage, the timeline that
 * turns the time since a transition started into a mix between the previous
 * and the current cue, and the state the show keeps while it plays
 * (the start time, the two cue states and the mix), updated once per
 * animation frame and reset whenever another cue is selected.
 */
module Playback {
  import opened Wrappers
  import opened Graph
  import Compositor
  import Numeric

  /** What the editor has selected: a cue, or a transition between two cues of an act. */
  datatype Selection = Selection(kind: string, sceneId: Option<int>, cueId: Option<int>, prevCueId: Option<int>, nextCueId: Option<int>)

  /** The cue a selection puts on stage: the cue itself, or the target of a transition. */
  function TargetCueId(sel: Selection): Option<int> {
    if sel.kind == "cue" then sel.cueId else sel.nextCueId
  }

  /** Act i is the first act with id `sceneId`. */
  predicate FirstActAt(scenes: seq<Scene>, sceneId: Option<int>, i: int) {
    0 <= i < |scenes| && Some(scenes[i].id) == sceneId && forall k :: 0 <= k < i ==> Some(scenes[k].id) != sceneId
  }

  /** Cue j is the first cue with id `cueId`. */
  predicate FirstCueAt(cues: seq<Cue>, cueId: Option<int>, j: int) {
    0 <= j < |cues| && Some(cues[j].id) == cueId && forall k :: 0 <= k < j ==> Some(cues[k].id) != cueId
  }

  /**
   * `getCueData`: the cue with id `cueId` in the act with id `sceneId`. Both lookups
   * are `find`s, so the first matching act is searched and its first matching cue returned.
   */
  function CueIn(scenes: seq<Scene>, sceneId: Option<int>, cueId: Option<int>): (c: Option<Cue>)
    ensures c.Some? ==> exists s :: s in scenes && Some(s.id) == sceneId && c.value in s.cues && Some(c.value.id) == cueId
    ensures (forall s :: s in scenes ==> Some(s.id) != sceneId) ==> c.None?
    ensures forall i, j :: FirstActAt(scenes, sceneId, i) && FirstCueAt(scenes[i].cues, cueId, j) ==> c == Some(scenes[i].cues[j])
    ensures forall i :: FirstActAt(scenes, sceneId, i) && (forall q :: q in scenes[i].cues ==> Some(q.id) != cueId) ==> c.None?
  {
    var scene := Find(scenes, (s: Scene) => Some(s.id) == sceneId);
    if scene.None? then None
    else Find(scene.value.cues, (q: Cue) => Some(q.id) == cueId)
  }

  // ---------------------------------------------------------------------------
  // Timeline

  /** A number setting read with `|| 0`. */
  function Seconds(v: Option<real>): real {
    v.GetOr(0.0)
  }

  /**
   * The linear progress of a transition `elapsed` ms after it started: 0 during the
   * delay, then the fraction of the duration gone by, capped at 1; 1 when there is
   * nothing to wait for.
   */
  function TimelineMix(elapsed: real, delay: real, duration: real): (progress: real)
    ensures 0.0 <= progress <= 1.0
  {
    if duration + delay > 0.0 then
      if elapsed < delay then 0.0
      else if duration > 0.0 then Numeric.Min((elapsed - delay) / duration, 1.0)
      else 1.0
    else 1.0
  }

  /** The three phases of the timeline. */
  lemma TimelinePhases(elapsed: real, delay: real, duration: real)
    ensures duration + delay <= 0.0 ==> TimelineMix(elapsed, delay, duration) == 1.0
    ensures duration + delay > 0.0 && elapsed < delay ==> TimelineMix(elapsed, delay, duration) == 0.0
    ensures duration > 0.0 && delay <= elapsed && duration + delay > 0.0 ==>
      TimelineMix(elapsed, delay, duration) == Numeric.Min((elapsed - delay) / duration, 1.0)
    ensures duration > 0.0 && elapsed >= delay + duration ==> TimelineMix(elapsed, delay, duration) == 1.0
  {
    if duration > 0.0 && elapsed >= delay + duration {
      assert (elapsed - delay) / duration >= 1.0 by {
        assert elapsed - delay >= duration;
      }
    }
  }

  /** The progress never goes back as time passes. */
  lemma TimelineMonotone(e1: real, e2: real, delay: real, duration: real)
    requires e1 <= e2
    ensures TimelineMix(e1, delay, duration) <= TimelineMix(e2, delay, duration)
  {
    if duration + delay > 0.0 && e1 >= delay && duration > 0.0 {
      assert (e1 - delay) / duration <= (e2 - delay) / duration by {
        assert (e2 - delay) / duration - (e1 - delay) / duration == (e2 - e1) / duration;
      }
    }
  }

  /** The easing curve a cue names, linear when it names none. */
  function EaseName(cue: Option<Cue>): (name: string)
    ensures name != ""
    ensures cue.Some? && cue.value.transitionEase.Some? && cue.value.transitionEase.value != "" ==>
      name == cue.value.transitionEase.value
    ensures cue.None? || cue.value.transitionEase.None? || cue.value.transitionEase.value == "" ==> name == "linear"
  {
    if cue.Some? && cue.value.transitionEase.Some? && cue.value.transitionEase.value != "" then
      cue.value.transitionEase.value
    else "linear"
  }

  /** The transition settings of a cue, in ms: (delay, duration). */
  function DelayMs(cue: Option<Cue>): real {
    if cue.Some? then Seconds(cue.value.transitionDelay) * 1000.0 else 0.0
  }

  function DurationMs(cue: Option<Cue>): real {
    if cue.Some? then Seconds(cue.value.transitionDuration) * 1000.0 else 0.0
  }

  /** A start time counts only when it is set and not 0 (`!startTime`). */
  predicate Started(startTime: Option<real>) {
    startTime.Some? && startTime.value != 0.0
  }

  // ---------------------------------------------------------------------------
  // Re-triggering

  /** The state a new transition starts from, or `Crash` where App.jsx reads a missing node list. */
  datatype Start = Crash | From(state: Option<Cue>)

  /** The selection names a transition with a (truthy) previous cue. */
  predicate ExplicitTransition(sel: Selection) {
    sel.kind == "transition" && sel.prevCueId.Some? && sel.prevCueId.value != 0
  }

  /** The graph on screen in mid-transition: the current cue with its nodes interpolated from the previous. */
  function Snapshot(prev: Option<Cue>, curr: Cue, nodes: seq<Node>, mix: real): (s: Cue)
    ensures s.nodes.Some? && |s.nodes.value| == |nodes|
    ensures s.(nodes := curr.nodes) == curr
  {
    curr.(nodes := Some(Compositor.InterpolateNodes(Compositor.NodesOf(prev), nodes, mix)))
  }

  /** The start state of the transition effect. */
  function StartState(sel: Selection, scenes: seq<Scene>, curr: Option<Cue>, prev: Option<Cue>, mix: real): (start: Start)
    ensures start.Crash? <==> !ExplicitTransition(sel) && prev.Some? && mix < 1.0 && (curr.None? || curr.value.nodes.None?)
  {
    var fallback := if curr.Some? then curr else prev;
    if ExplicitTransition(sel) then
      var named := CueIn(scenes, sel.sceneId, sel.prevCueId);
      if named.Some? then From(named) else From(fallback)
    else if prev.Some? && mix < 1.0 then
      if curr.None? || curr.value.nodes.None? then Crash
      else From(Some(Snapshot(prev, curr.value, curr.value.nodes.value, mix)))
    else From(fallback)
  }

  /** An explicit transition starts from the named previous cue when the act has it. */
  lemma StartFromNamedCue(sel: Selection, scenes: seq<Scene>, curr: Option<Cue>, prev: Option<Cue>, mix: real)
    requires ExplicitTransition(sel) && CueIn(scenes, sel.sceneId, sel.prevCueId).Some?
    ensures StartState(sel, scenes, curr, prev, mix) == From(CueIn(scenes, sel.sceneId, sel.prevCueId))
  {
  }

  /** With no transition in flight the new one starts from the current state, or else the previous one. */
  lemma StartAtRest(sel: Selection, scenes: seq<Scene>, curr: Option<Cue>, prev: Option<Cue>, mix: real)
    requires !ExplicitTransition(sel) && !Compositor.Transitioning(prev, mix)
    ensures StartState(sel, scenes, curr, prev, mix) == From(if curr.Some? then curr else prev)
  {
  }

  /**
   * Re-triggering in mid-transition starts from what is on screen: on every wall whose
   * root is the same in both states, the start state's graph is the interpolated graph drawn there.
   */
  lemma StartFromScreen(sel: Selection, scenes: seq<Scene>, curr: Option<Cue>, prev: Option<Cue>, mix: real, wallId: int)
    requires !ExplicitTransition(sel)
    requires Compositor.Transitioning(prev, mix) && Compositor.SameRoot(prev, curr, wallId)
    ensures var start := StartState(sel, scenes, curr, prev, mix);
      var stages := Compositor.WallStages(prev, curr, mix, wallId);
      && start.From? && start.state.Some?
      && |stages| == 1
      && Compositor.NodesOf(start.state) == stages[0].nodes
      && start.state.value.connections == curr.value.connections
  {
    Compositor.StagesInterpolate(prev, curr, mix, wallId);
  }

  /** In mid-transition into a cue that has no node list the snapshot cannot be taken. */
  lemma StartCrashes(sel: Selection, scenes: seq<Scene>, curr: Cue, prev: Cue, mix: real)
    requires !ExplicitTransition(sel) && mix < 1.0 && curr.nodes.None?
    ensures StartState(sel, scenes, Some(curr), Some(prev), mix) == Crash
  {
  }

  // ---------------------------------------------------------------------------
  // The playback state

  class Transitions {
    /** `startTimeRef`: the frame time the running transition started at. */
    var startTime: Option<real>
    var prevCueState: Option<Cue>
    var currentCueState: Option<Cue>
    /** `transitionMix`: the eased progress handed to the projection view. */
    var mix: real
    /** An animation frame is requested, so `AnimateTransition` runs again. */
    var frameRequested: bool

    ghost predicate Valid()
      reads this
    {
      0.0 <= mix <= 1.0
    }

    /** The state before any cue is played: nothing on stage and the mix at its end. */
    constructor ()
      ensures Valid()
      ensures startTime.None? && prevCueState.None? && currentCueState.None? && mix == 1.0 && !frameRequested
    {
      startTime := None;
      prevCueState := None;
      currentCueState := None;
      mix := 1.0;
      frameRequested := false;
    }

    /**
     * `animateTransition`: one animation frame at `time` for the cue on stage. The mix
     * follows the eased timeline; once the whole delay and duration have passed the mix
     * is 1, the previous state is dropped and no further frame is requested. The frame
     * that runs this method was the pending request, so afterwards a frame is pending
     * exactly when the transition has time left.
     */
    method AnimateTransition(time: real, cue: Option<Cue>)
      requires Valid()
      modifies this
      ensures Valid()
      ensures startTime == (if Started(old(startTime)) then old(startTime) else Some(time))
      ensures currentCueState == old(currentCueState)
      ensures var elapsed := time - startTime.value;
        var total := DurationMs(cue) + DelayMs(cue);
        if elapsed < total then
          && mix == Compositor.Ease(TimelineMix(elapsed, DelayMs(cue), DurationMs(cue)), EaseName(cue))
          && prevCueState == old(prevCueState)
        else
          mix == 1.0 && prevCueState.None?
      ensures frameRequested == (time - startTime.value < DurationMs(cue) + DelayMs(cue))
    {
      if !Started(startTime) {
        startTime := Some(time);
      }
      var duration := DurationMs(cue);
      var delay := DelayMs(cue);
      var total := duration + delay;
      var elapsed := time - startTime.value;
      var progress := 1.0;
      if total > 0.0 {
        if elapsed < delay {
          progress := 0.0;
        } else {
          progress := if duration > 0.0 then Numeric.Min((elapsed - delay) / duration, 1.0) else 1.0;
        }
      }
      mix := Compositor.Ease(progress, EaseName(cue));
      Compositor.EaseInUnitInterval(progress, EaseName(cue));
      if elapsed < total {
        frameRequested := true;
      } else {
        mix := 1.0;
        prevCueState := None;
        frameRequested := false;
      }
    }

    /**
     * The transition effect, run when the selection changes: when the selection names a
     * cue, the start state becomes the previous state, that cue the current one, and the
     * timeline restarts from mix 0 on the next frame. Before that, the cleanup of the
     * previous run cancels any pending frame, so a selection whose cue is not found
     * stops the animation where it is. Returns false, changing nothing else, where
     * App.jsx would throw while taking the snapshot.
     */
    method Retrigger(sel: Selection, scenes: seq<Scene>) returns (ok: bool)
      requires Valid()
      modifies this
      ensures Valid()
      ensures var target := CueIn(scenes, sel.sceneId, TargetCueId(sel));
        var start := StartState(sel, scenes, old(currentCueState), old(prevCueState), old(mix));
        && ok == (target.None? || start.From?)
        && (target.None? || start.Crash? ==>
              && startTime == old(startTime) && prevCueState == old(prevCueState)
              && currentCueState == old(currentCueState) && mix == old(mix) && !frameRequested)
        && (target.Some? && start.From? ==>
              && prevCueState == start.state
              && currentCueState == target
              && mix == 0.0 && startTime.None? && frameRequested)
    {
      frameRequested := false;
      var target := CueIn(scenes, sel.sceneId, TargetCueId(sel));
      if target.None? {
        return true;
      }
      var start := StartState(sel, scenes, currentCueState, prevCueState, mix);
      if start.Crash? {
        return false;
      }
      prevCueState := start.state;
      currentCueState := target;
      mix := 0.0;
      startTime := None;
      frameRequested := true;
      ok := true;
    }
  }

  /** Once the mix reaches 1 the previous state no longer affects any wall, so dropping it changes nothing on screen. */
  lemma FinishedFrameIsAtRest(prev: Option<Cue>, curr: Option<Cue>, wallId: int)
    ensures Compositor.WallStages(None, curr, 1.0, wallId) == Compositor.WallStages(prev, curr, 1.0, wallId)
  {
  }
}
