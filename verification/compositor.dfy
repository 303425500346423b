/**
 * What the projection view draws on each wall: the easing curves, the
 * interpolation of node parameters during a transition, the search for a
 * wall's root node, the resolution of a node into a layer tree (mix nodes
 * combine a `base` and a `blend` input), the per-wall choice between a
 * parameter interpolation and a cross-fade, and the zebra background shown
 * behind walls that have content.
 */
module Compositor {
  import opened Wrappers
  import opened Graph
  import Numeric

  // ---------------------------------------------------------------------------
  // Easing

  /** The easing curve `kind` at time t; t is clamped to [0, 1] first and unknown names are linear. */
  function Ease(t: real, kind: string): (e: real)
    ensures t < 0.0 ==> e == 0.0
    ensures t > 1.0 ==> e == 1.0
  {
    if t < 0.0 then 0.0
    else if t > 1.0 then 1.0
    else if kind == "easeIn" then t * t
    else if kind == "easeOut" then t * (2.0 - t)
    else if kind == "easeInOut" then (if t < 0.5 then 2.0 * t * t else -1.0 + (4.0 - 2.0 * t) * t)
    else t
  }

  predicate KnownEase(kind: string) {
    kind == "easeIn" || kind == "easeOut" || kind == "easeInOut"
  }

  /** Every curve starts at 0 and ends at 1. */
  lemma EaseEndpoints(kind: string)
    ensures Ease(0.0, kind) == 0.0 && Ease(1.0, kind) == 1.0
  {
  }

  /** Every curve stays within [0, 1], whatever the time. */
  lemma EaseInUnitInterval(t: real, kind: string)
    ensures 0.0 <= Ease(t, kind) <= 1.0
  {
    if 0.0 <= t <= 1.0 {
      Numeric.MulAtMost(t, t);
      Numeric.MulAtMost(t, 2.0 - t);
      if kind == "easeOut" {
        assert 1.0 - t * (2.0 - t) == (1.0 - t) * (1.0 - t);
        Numeric.SquareNonneg(1.0 - t);
      } else if kind == "easeInOut" && t >= 0.5 {
        assert 1.0 - (-1.0 + (4.0 - 2.0 * t) * t) == 2.0 * ((1.0 - t) * (1.0 - t));
        Numeric.SquareNonneg(1.0 - t);
        assert -1.0 + (4.0 - 2.0 * t) * t == 2.0 * (t * (2.0 - t)) - 1.0;
      }
    }
  }

  /** The two halves of `easeInOut` meet at t = 0.5, both giving 0.5. */
  lemma EaseInOutJoins()
    ensures 2.0 * 0.5 * 0.5 == 0.5 == -1.0 + (4.0 - 2.0 * 0.5) * 0.5
    ensures Ease(0.5, "easeInOut") == 0.5
    ensures forall t :: 0.0 <= t < 0.5 ==> Ease(t, "easeInOut") < 0.5
  {
    forall t | 0.0 <= t < 0.5
      ensures Ease(t, "easeInOut") < 0.5
    {
      Numeric.MulAtMost(t, t);
      assert t * t < 0.25 by {
        if t > 0.0 {
          assert t * t < 0.5 * t;
        }
      }
    }
  }

  /** A name that is none of the three curves behaves as the linear curve. */
  lemma EaseUnknownIsLinear(t: real, kind: string)
    requires !KnownEase(kind)
    ensures Ease(t, kind) == Ease(t, "linear")
    ensures 0.0 <= t <= 1.0 ==> Ease(t, kind) == t
  {
  }

  /** Each curve is non-decreasing over the whole real line. */
  lemma EaseMonotone(t1: real, t2: real, kind: string)
    requires t1 <= t2
    ensures Ease(t1, kind) <= Ease(t2, kind)
  {
    EaseInUnitInterval(t1, kind);
    EaseInUnitInterval(t2, kind);
    if 0.0 <= t1 && t2 <= 1.0 {
      if kind == "easeIn" {
        SquareStep(t1, t2);
      } else if kind == "easeOut" {
        assert t2 * (2.0 - t2) - t1 * (2.0 - t1) == (t2 - t1) * (2.0 - t1 - t2);
        Numeric.MulNonneg(t2 - t1, 2.0 - t1 - t2);
      } else if kind == "easeInOut" {
        if t2 < 0.5 {
          SquareStep(t1, t2);
        } else if t1 >= 0.5 {
          assert (-1.0 + (4.0 - 2.0 * t2) * t2) - (-1.0 + (4.0 - 2.0 * t1) * t1)
              == 2.0 * ((t2 - t1) * (2.0 - t1 - t2));
          Numeric.MulNonneg(t2 - t1, 2.0 - t1 - t2);
        } else {
          EaseInOutJoins();
          assert Ease(t2, kind) >= 0.5 by {
            assert -1.0 + (4.0 - 2.0 * t2) * t2 - 0.5 == 2.0 * ((t2 - 0.5) * (1.5 - t2));
            Numeric.MulNonneg(t2 - 0.5, 1.5 - t2);
          }
        }
      }
    }
  }

  lemma SquareStep(a: real, b: real)
    requires 0.0 <= a <= b
    ensures a * a <= b * b && 2.0 * a * a <= 2.0 * b * b
  {
    assert b * b - a * a == (b - a) * (b + a);
    Numeric.MulNonneg(b - a, b + a);
  }

  // ---------------------------------------------------------------------------
  // Parameter interpolation

  /** The node parameters a transition between two versions of a node blends. */
  const InterpolatedKeys: seq<string> :=
    ["scale", "alignX", "alignY", "rotate", "opacity", "distortion", "detail", "time", "animSpeed"]

  /** The value a missing parameter is taken to have. */
  function KeyDefault(key: string): real {
    if key == "scale" then 1.0
    else if key == "alignX" || key == "alignY" then 50.0
    else if key == "detail" then 4.0
    else if key == "animSpeed" then 0.1
    else 0.0
  }

  /** `data[key] ?? default`. */
  function Effective(data: map<string, Value>, key: string): (v: Value)
    ensures key in data ==> v == data[key]
    ensures key !in data ==> v == Number(KeyDefault(key))
  {
    Lookup(data, key).GetOr(Number(KeyDefault(key)))
  }

  /** Both sides hold a number for the key, so it is blended. */
  predicate Blends(prev: map<string, Value>, curr: map<string, Value>, key: string) {
    key in InterpolatedKeys && Effective(prev, key).Number? && Effective(curr, key).Number?
  }

  function LinearMix(v1: real, v2: real, mix: real): real {
    v1 + (v2 - v1) * mix
  }

  /** For a mix in [0, 1] the blend lies between its two ends. */
  lemma LinearMixBetween(v1: real, v2: real, mix: real)
    requires 0.0 <= mix <= 1.0
    ensures v1 <= v2 ==> v1 <= LinearMix(v1, v2, mix) <= v2
    ensures v2 <= v1 ==> v2 <= LinearMix(v1, v2, mix) <= v1
  {
    var d := v2 - v1;
    var p := d * mix;
    assert LinearMix(v1, v2, mix) == v1 + p;
    if v1 <= v2 {
      Numeric.MulAtMost(mix, d);
      assert p == mix * d;
    } else {
      Numeric.MulAtMost(mix, -d);
      assert p == -(mix * -d);
    }
  }

  /** The data of the interpolated node: `curr` with every blendable parameter mixed. */
  function InterpolatedData(prev: map<string, Value>, curr: map<string, Value>, mix: real): map<string, Value> {
    curr + map key | key in InterpolatedKeys && Blends(prev, curr, key)
      :: Number(LinearMix(Effective(prev, key).x, Effective(curr, key).x, mix))
  }

  /** `getInterpolatedNode`: curr's node with its parameters mixed towards it from prev's. */
  function InterpolatedNode(prev: Node, curr: Node, mix: real): (n: Node)
    ensures n.id == curr.id && n.kind == curr.kind && n.x == curr.x && n.y == curr.y && n.caption == curr.caption
    ensures forall key :: !Blends(prev.data, curr.data, key) ==> Lookup(n.data, key) == Lookup(curr.data, key)
    ensures forall key :: Blends(prev.data, curr.data, key) ==>
      Lookup(n.data, key) == Some(Number(LinearMix(Effective(prev.data, key).x, Effective(curr.data, key).x, mix)))
  {
    curr.(data := InterpolatedData(prev.data, curr.data, mix))
  }

  /** At mix 0 every blended parameter has prev's value (or its default), at mix 1 curr's. */
  lemma InterpolationEndpoints(prev: Node, curr: Node, key: string)
    requires Blends(prev.data, curr.data, key)
    ensures Lookup(InterpolatedNode(prev, curr, 0.0).data, key) == Some(Effective(prev.data, key))
    ensures Lookup(InterpolatedNode(prev, curr, 1.0).data, key) == Some(Effective(curr.data, key))
  {
  }

  /** For a mix in [0, 1] a blended parameter lies between its two end values. */
  lemma InterpolationBetween(prev: Node, curr: Node, key: string, mix: real)
    requires Blends(prev.data, curr.data, key) && 0.0 <= mix <= 1.0
    ensures var v1, v2 := Effective(prev.data, key).x, Effective(curr.data, key).x;
      var v := Lookup(InterpolatedNode(prev, curr, mix).data, key).value.x;
      (v1 <= v2 ==> v1 <= v <= v2) && (v2 <= v1 ==> v2 <= v <= v1)
  {
    var v1, v2 := Effective(prev.data, key).x, Effective(curr.data, key).x;
    LinearMixBetween(v1, v2, mix);
  }

  /** Every node of `curr`, replaced by its interpolation when `prev` has a node with the same id. */
  function InterpolateNodes(prev: seq<Node>, curr: seq<Node>, mix: real): (r: seq<Node>)
    ensures |r| == |curr|
    ensures forall i :: 0 <= i < |r| ==> r[i].id == curr[i].id && r[i].kind == curr[i].kind
    ensures forall i :: 0 <= i < |r| && NodeById(prev, curr[i].id).None? ==> r[i] == curr[i]
    ensures forall i :: 0 <= i < |r| && NodeById(prev, curr[i].id).Some? ==>
      r[i] == InterpolatedNode(NodeById(prev, curr[i].id).value, curr[i], mix)
  {
    seq(|curr|, i requires 0 <= i < |curr| =>
      var p := NodeById(prev, curr[i].id);
      if p.Some? then InterpolatedNode(p.value, curr[i], mix) else curr[i])
  }

  // ---------------------------------------------------------------------------
  // Root of a wall

  /** `getRootNodeId`: the source of the first connection into the wall's first output node. */
  function RootNodeId(state: Option<Cue>, wallId: int): (r: Option<string>)
    ensures r.Some? ==> state.Some? && state.value.nodes.Some? && state.value.connections.Some?
    ensures r.Some? ==> exists c :: c in state.value.connections.value && c.from == r.value
  {
    if state.None? || state.value.nodes.None? then None
    else
      var output := Find(state.value.nodes.value, (n: Node) => IsOutputFor(n, wallId));
      if output.None? || state.value.connections.None? then None
      else
        var conn := Find(state.value.connections.value, (c: Connection) => c.to == output.value.id);
        if conn.None? then None else Some(conn.value.from)
  }

  /** The root is found exactly through the first matching output node and its first inbound connection. */
  lemma RootNodeIdIsFirst(nodes: seq<Node>, conns: seq<Connection>, cue: Cue, wallId: int, i: nat, j: nat)
    requires cue.nodes == Some(nodes) && cue.connections == Some(conns)
    requires i < |nodes| && IsOutputFor(nodes[i], wallId)
    requires forall k :: 0 <= k < i ==> !IsOutputFor(nodes[k], wallId)
    requires j < |conns| && conns[j].to == nodes[i].id
    requires forall k :: 0 <= k < j ==> conns[k].to != nodes[i].id
    ensures RootNodeId(Some(cue), wallId) == Some(conns[j].from)
  {
    FindIsFirst(nodes, (n: Node) => IsOutputFor(n, wallId), i);
    FindIsFirst(conns, (c: Connection) => c.to == nodes[i].id, j);
  }

  /** Without an output node for the wall, or without a connection into the first one, there is no root. */
  lemma RootNodeIdMissing(nodes: seq<Node>, conns: seq<Connection>, cue: Cue, wallId: int)
    requires cue.nodes == Some(nodes) && cue.connections == Some(conns)
    requires forall n :: n in nodes ==> !IsOutputFor(n, wallId)
    ensures RootNodeId(Some(cue), wallId).None?
  {
  }

  lemma RootNodeIdUnconnected(nodes: seq<Node>, conns: seq<Connection>, cue: Cue, wallId: int, i: nat)
    requires cue.nodes == Some(nodes) && cue.connections == Some(conns)
    requires i < |nodes| && IsOutputFor(nodes[i], wallId)
    requires forall k :: 0 <= k < i ==> !IsOutputFor(nodes[k], wallId)
    requires forall c :: c in conns ==> c.to != nodes[i].id
    ensures RootNodeId(Some(cue), wallId).None?
  {
    FindIsFirst(nodes, (n: Node) => IsOutputFor(n, wallId), i);
  }

  /** JavaScript truthiness of an optional id: present and not empty. */
  predicate Present(id: Option<string>) {
    id.Some? && id.value != ""
  }

  // ---------------------------------------------------------------------------
  // Node resolution

  /** `||`: the value when truthy, otherwise the default. */
  function Or(v: Option<Value>, default: Value): (r: Value)
    ensures Truthy(v) ==> r == v.value
    ensures !Truthy(v) ==> r == default
  {
    if Truthy(v) then v.value else default
  }

  /** `??`: the value when present, otherwise the default. */
  function Coalesce(v: Option<Value>, default: Value): (r: Value)
    ensures v.Some? ==> r == v.value
    ensures v.None? ==> r == default
  {
    v.GetOr(default)
  }

  /** Where the media sits inside its box: centred, or at percentages. */
  datatype Placement = Center | Percent(x: Value, y: Value)

  /** The style `getStyle` puts on an image or a video. */
  datatype Style = Style(fit: Value, position: Placement, scale: Value, rotate: Value, originX: Value, originY: Value)

  /** `getStyle`: fit defaults to cover, scale to 1, rotation to 0, alignment to 50%; `fill` centres. */
  function MediaStyle(data: map<string, Value>): (s: Style)
    ensures Truthy(Some(s.fit)) && Truthy(Some(s.scale))
    ensures Truthy(Lookup(data, "fit")) ==> s.fit == data["fit"]
    ensures !Truthy(Lookup(data, "fit")) ==> s.fit == Text("cover")
    ensures Truthy(Lookup(data, "scale")) ==> s.scale == data["scale"]
    ensures s.fit == Text("fill") ==> s.position == Center && s.originX == Number(50.0) && s.originY == Number(50.0)
    ensures s.fit != Text("fill") ==> s.position == Percent(s.originX, s.originY)
    ensures s.fit != Text("fill") ==>
      s.originX == Coalesce(Lookup(data, "alignX"), Number(50.0)) && s.originY == Coalesce(Lookup(data, "alignY"), Number(50.0))
    ensures !Truthy(Lookup(data, "scale")) ==> s.scale == Number(1.0)
    ensures !Truthy(Lookup(data, "rotate")) ==> s.rotate == Number(0.0)
    ensures Truthy(Lookup(data, "rotate")) ==> s.rotate == data["rotate"]
  {
    var fit := Or(Lookup(data, "fit"), Text("cover"));
    var alignX := Coalesce(Lookup(data, "alignX"), Number(50.0));
    var alignY := Coalesce(Lookup(data, "alignY"), Number(50.0));
    var stretch := fit == Text("fill");
    Style(
      fit,
      if stretch then Center else Percent(alignX, alignY),
      Or(Lookup(data, "scale"), Number(1.0)),
      Or(Lookup(data, "rotate"), Number(0.0)),
      if stretch then Number(50.0) else alignX,
      if stretch then Number(50.0) else alignY)
  }

  /** An input of a mix node: no connection, or a connection and what its source resolved to. */
  datatype Input = Unconnected | Connected(content: Option<Layer>)

  /** What a node resolves to. */
  datatype Layer =
    | Solid(color: Value)
    | Media(kind: string, backdrop: string, source: Option<Value>, style: Style, muted: bool)
    | NoiseField(noiseType: Value, scale: Value, detail: Value, time: Value, distortion: Value, animating: Value, animSpeed: Value)
    | Mix(base: Input, blend: Input, blendMode: Value)
    | Unfinished

  /** The layer holds no `Unfinished` part: resolution reached the end of every branch. */
  predicate Complete(layer: Option<Layer>) {
    match layer
    case None => true
    case Some(Unfinished) => false
    case Some(Mix(base, blend, _)) =>
      (base.Connected? ==> Complete(base.content)) && (blend.Connected? ==> Complete(blend.content))
    case Some(_) => true
  }

  function FirstInput(conns: seq<Connection>, nodeId: string, handle: string): (c: Option<Connection>)
    ensures c.Some? ==> c.value in conns && c.value.to == nodeId && c.value.toHandle == Some(handle)
    ensures c.None? ==> forall d :: d in conns ==> !(d.to == nodeId && d.toHandle == Some(handle))
  {
    Find(conns, (d: Connection) => d.to == nodeId && d.toHandle == Some(handle))
  }

  /** What a node other than a mix node resolves to; None for an unknown type. */
  function LeafLayer(node: Node, live: bool): (r: Option<Layer>)
    ensures r.Some? <==> node.kind in {"color", "image", "video", "noise"}
    ensures node.kind == "color" ==> r.value.Solid? && Truthy(Some(r.value.color))
    ensures node.kind == "image" || node.kind == "video" ==>
      r.value.Media? && r.value.kind == node.kind && (r.value.source.Some? <==> Truthy(Lookup(node.data, "value")))
  {
    var data := node.data;
    if node.kind == "color" then
      Some(Solid(Or(Lookup(data, "value"), Text("black"))))
    else if node.kind == "image" || node.kind == "video" then
      var source := if Truthy(Lookup(data, "value")) then Lookup(data, "value") else None;
      var muted := !Truthy(Some(Coalesce(Lookup(data, "enableAudio"), Flag(false))));
      Some(Media(node.kind, if live then "black" else "transparent", source, MediaStyle(data), muted))
    else if node.kind == "noise" then
      Some(NoiseField(
        Coalesce(Lookup(data, "noiseType"), Text("perlin")),
        Coalesce(Lookup(data, "scale"), Number(5.0)),
        Coalesce(Lookup(data, "detail"), Number(4.0)),
        Coalesce(Lookup(data, "time"), Number(0.0)),
        Coalesce(Lookup(data, "distortion"), Number(0.0)),
        Coalesce(Lookup(data, "isAnimating"), Flag(false)),
        Coalesce(Lookup(data, "animSpeed"), Number(0.1))))
    else None
  }

  /**
   * `RenderNode`: the layer the node `nodeId` resolves to, None for an unknown id or type.
   * A mix node resolves its inputs recursively; `fuel` bounds that recursion and marks
   * where it ran out with `Unfinished` (`RenderNode` has no guard against cycles).
   */
  function Resolve(nodeId: string, nodes: seq<Node>, conns: seq<Connection>, live: bool, fuel: nat): (r: Option<Layer>)
    decreases fuel, 0
  {
    if fuel == 0 then Some(Unfinished)
    else
      var found := NodeById(nodes, nodeId);
      if found.None? then None
      else if found.value.kind == "mix" then
        Some(Mix(
          Feed(FirstInput(conns, nodeId, "base"), nodes, conns, live, fuel - 1),
          Feed(FirstInput(conns, nodeId, "blend"), nodes, conns, live, fuel - 1),
          Or(Lookup(found.value.data, "blendMode"), Text("normal"))))
      else LeafLayer(found.value, live)
  }

  /** A mix input: the resolution of the connection's source, if there is a connection. */
  function Feed(conn: Option<Connection>, nodes: seq<Node>, conns: seq<Connection>, live: bool, fuel: nat): (i: Input)
    ensures i.Connected? <==> conn.Some?
    decreases fuel, 1
  {
    if conn.Some? then Connected(Resolve(conn.value.from, nodes, conns, live, fuel)) else Unconnected
  }

  /** The outcomes of resolution, by node type. */
  lemma ResolveCases(nodeId: string, nodes: seq<Node>, conns: seq<Connection>, live: bool, fuel: nat)
    requires fuel > 0
    ensures NodeById(nodes, nodeId).None? ==> Resolve(nodeId, nodes, conns, live, fuel).None?
    ensures NodeById(nodes, nodeId).Some? ==>
      var kind := NodeById(nodes, nodeId).value.kind;
      var r := Resolve(nodeId, nodes, conns, live, fuel);
      && (r.None? <==> kind !in {"color", "image", "video", "noise", "mix"})
      && (kind != "mix" ==> r == LeafLayer(NodeById(nodes, nodeId).value, live))
      && (kind == "mix" ==>
            && r.value.Mix?
            && (r.value.base.Connected? <==> FirstInput(conns, nodeId, "base").Some?)
            && (r.value.blend.Connected? <==> FirstInput(conns, nodeId, "blend").Some?))
  {
  }

  /** A mix input resolves the source of the first connection into that handle. */
  lemma ResolveMixInputs(nodeId: string, nodes: seq<Node>, conns: seq<Connection>, live: bool, fuel: nat)
    requires fuel > 0 && NodeById(nodes, nodeId).Some? && NodeById(nodes, nodeId).value.kind == "mix"
    ensures var r := Resolve(nodeId, nodes, conns, live, fuel).value;
      && (r.base.Connected? ==> r.base.content == Resolve(FirstInput(conns, nodeId, "base").value.from, nodes, conns, live, fuel - 1))
      && (r.blend.Connected? ==> r.blend.content == Resolve(FirstInput(conns, nodeId, "blend").value.from, nodes, conns, live, fuel - 1))
      && r.blendMode == Or(Lookup(NodeById(nodes, nodeId).value.data, "blendMode"), Text("normal"))
  {
  }

  /** Once resolution completes, more fuel gives the same layer tree. */
  lemma {:induction false} ResolveStable(nodeId: string, nodes: seq<Node>, conns: seq<Connection>, live: bool, fuel: nat, more: nat)
    requires fuel <= more && Complete(Resolve(nodeId, nodes, conns, live, fuel))
    ensures Resolve(nodeId, nodes, conns, live, more) == Resolve(nodeId, nodes, conns, live, fuel)
    decreases fuel, 0
  {
    var found := NodeById(nodes, nodeId);
    if found.Some? && found.value.kind == "mix" {
      var base, blend := FirstInput(conns, nodeId, "base"), FirstInput(conns, nodeId, "blend");
      var mode := Or(Lookup(found.value.data, "blendMode"), Text("normal"));
      assert Resolve(nodeId, nodes, conns, live, fuel)
        == Some(Mix(Feed(base, nodes, conns, live, fuel - 1), Feed(blend, nodes, conns, live, fuel - 1), mode));
      assert Resolve(nodeId, nodes, conns, live, more)
        == Some(Mix(Feed(base, nodes, conns, live, more - 1), Feed(blend, nodes, conns, live, more - 1), mode));
      FeedStable(base, nodes, conns, live, fuel - 1, more - 1);
      FeedStable(blend, nodes, conns, live, fuel - 1, more - 1);
    } else {
      assert fuel > 0;
    }
  }

  lemma {:induction false} FeedStable(conn: Option<Connection>, nodes: seq<Node>, conns: seq<Connection>, live: bool, fuel: nat, more: nat)
    requires fuel <= more
    requires var i := Feed(conn, nodes, conns, live, fuel); i.Connected? ==> Complete(i.content)
    ensures Feed(conn, nodes, conns, live, more) == Feed(conn, nodes, conns, live, fuel)
    decreases fuel, 1
  {
    if conn.Some? {
      ResolveStable(conn.value.from, nodes, conns, live, fuel, more);
    }
  }

  /** A mix node whose base input is fed by itself never finishes resolving, whatever the fuel. */
  lemma {:induction false} SelfLoopNeverCompletes(nodeId: string, nodes: seq<Node>, conns: seq<Connection>, live: bool, fuel: nat)
    requires NodeById(nodes, nodeId).Some? && NodeById(nodes, nodeId).value.kind == "mix"
    requires FirstInput(conns, nodeId, "base").Some? && FirstInput(conns, nodeId, "base").value.from == nodeId
    ensures !Complete(Resolve(nodeId, nodes, conns, live, fuel))
    decreases fuel
  {
    if fuel > 0 {
      SelfLoopNeverCompletes(nodeId, nodes, conns, live, fuel - 1);
    }
  }

  // ---------------------------------------------------------------------------
  // Layers of a wall

  /** One `RenderNode` drawn on a wall: its root, the graph it reads and its opacity. */
  datatype Stage = Stage(root: string, nodes: seq<Node>, connections: seq<Connection>, opacity: real)

  /** A transition is in progress: mix below 1 and a previous state to fade from. */
  predicate Transitioning(prev: Option<Cue>, mix: real) {
    mix < 1.0 && prev.Some?
  }

  /** Both states feed the wall from the same, present, root node. */
  predicate SameRoot(prev: Option<Cue>, curr: Option<Cue>, wallId: int) {
    var p, c := RootNodeId(prev, wallId), RootNodeId(curr, wallId);
    Present(p) && Present(c) && p == c
  }

  /** The graph of a cue that has one. */
  function NodesOf(state: Option<Cue>): seq<Node> {
    if state.Some? && state.value.nodes.Some? then state.value.nodes.value else []
  }

  function ConnectionsOf(state: Option<Cue>): seq<Connection> {
    if state.Some? && state.value.connections.Some? then state.value.connections.value else []
  }

  /** The stages `TransitioningProjectedContent` draws on one wall, bottom first. */
  function WallStages(prev: Option<Cue>, curr: Option<Cue>, mix: real, wallId: int): (stages: seq<Stage>)
    ensures |stages| <= 2
  {
    var transitioning := Transitioning(prev, mix);
    var same := SameRoot(prev, curr, wallId);
    var p, c := RootNodeId(prev, wallId), RootNodeId(curr, wallId);
    var below := if transitioning && !same && Present(p)
      then [Stage(p.value, NodesOf(prev), ConnectionsOf(prev), 1.0 - mix)]
      else [];
    var above := if Present(c)
      then [Stage(c.value,
                  if transitioning && same then InterpolateNodes(NodesOf(prev), NodesOf(curr), mix) else NodesOf(curr),
                  ConnectionsOf(curr),
                  if transitioning && !same then mix else 1.0)]
      else [];
    below + above
  }

  /** Outside a transition only the current root is drawn, at full opacity, with its own graph. */
  lemma StagesAtRest(prev: Option<Cue>, curr: Option<Cue>, mix: real, wallId: int)
    requires !Transitioning(prev, mix)
    ensures var s := WallStages(prev, curr, mix, wallId);
      var c := RootNodeId(curr, wallId);
      && (Present(c) ==> s == [Stage(c.value, NodesOf(curr), ConnectionsOf(curr), 1.0)])
      && (!Present(c) ==> s == [])
  {
  }

  /** In a transition with the same root on both sides one layer at full opacity shows the interpolated graph. */
  lemma StagesInterpolate(prev: Option<Cue>, curr: Option<Cue>, mix: real, wallId: int)
    requires Transitioning(prev, mix) && SameRoot(prev, curr, wallId)
    ensures WallStages(prev, curr, mix, wallId) ==
      [Stage(RootNodeId(curr, wallId).value, InterpolateNodes(NodesOf(prev), NodesOf(curr), mix), ConnectionsOf(curr), 1.0)]
  {
  }

  /** Otherwise the previous root fades out at 1 - mix beneath the current one fading in at mix. */
  lemma StagesCrossFade(prev: Option<Cue>, curr: Option<Cue>, mix: real, wallId: int)
    requires Transitioning(prev, mix) && !SameRoot(prev, curr, wallId)
    requires Present(RootNodeId(prev, wallId)) && Present(RootNodeId(curr, wallId))
    ensures var s := WallStages(prev, curr, mix, wallId);
      && |s| == 2
      && s[0].root == RootNodeId(prev, wallId).value && s[0].nodes == NodesOf(prev) && s[0].opacity == 1.0 - mix
      && s[1].root == RootNodeId(curr, wallId).value && s[1].nodes == NodesOf(curr) && s[1].opacity == mix
      && s[0].opacity + s[1].opacity == 1.0
  {
  }

  /** For a mix in [0, 1] every stage's opacity is in [0, 1]. */
  lemma StageOpacities(prev: Option<Cue>, curr: Option<Cue>, mix: real, wallId: int)
    requires 0.0 <= mix <= 1.0
    ensures forall s :: s in WallStages(prev, curr, mix, wallId) ==> 0.0 <= s.opacity <= 1.0
  {
  }

  // ---------------------------------------------------------------------------
  // Background pattern

  /** Some output node of the wall has an inbound connection. */
  predicate HasContent(state: Option<Cue>, wallId: int) {
    state.Some? && state.value.nodes.Some? &&
    exists n :: n in state.value.nodes.value && IsOutputFor(n, wallId) &&
      state.value.connections.Some? && exists c :: c in state.value.connections.value && c.to == n.id
  }

  /** A wall with a root has content, so its background is drawn while editing. */
  lemma RootImpliesContent(state: Option<Cue>, wallId: int)
    requires RootNodeId(state, wallId).Some?
    ensures HasContent(state, wallId)
  {
    var nodes := state.value.nodes.value;
    var output := Find(nodes, (n: Node) => IsOutputFor(n, wallId));
    var conn := Find(state.value.connections.value, (c: Connection) => c.to == output.value.id);
    assert output.value in nodes && conn.value in state.value.connections.value;
  }

  /** `WallBackgroundLayer`: the walls whose zebra pattern is drawn. */
  function BackgroundWalls(walls: seq<Wall>, state: Option<Cue>, live: bool, transitioning: bool, shouldShow: bool): (r: seq<Wall>)
    ensures live || transitioning || !shouldShow ==> r == []
    ensures !(live || transitioning || !shouldShow) ==> forall w :: w in r <==> w in walls && HasContent(state, w.id)
  {
    if live || transitioning || !shouldShow then []
    else Filter(walls, (w: Wall) => HasContent(state, w.id))
  }
}
