/**
 * The node editor of a cue: the graph it edits (nodes and connections), the
 * output node every wall gets when a cue is opened, and the edits a user
 * makes: connecting an output handle to an input handle, changing a node's
 * data, and deleting a connection or a node.
 */
module NodeEditing {
  import opened Wrappers
  import opened Graph

  /** An output handle clicked and waiting for an input handle. */
  datatype Pending = Pending(id: string, handle: string)

  // ---------------------------------------------------------------------------
  // Opening a cue

  /** The output node created for a wall; `row` places it down the right-hand column. */
  function OutputNode(w: Wall, row: nat, spacing: real): (n: Node)
    ensures n.kind == "output" && IsOutputFor(n, w.id)
  {
    Node("wall-" + IntString(w.id), "output", map["wallId" := Number(w.id as real)], 800.0, 50.0 + (row as real) * spacing, w.name)
  }

  /** Output nodes for the walls, the i-th in row `first + i`. */
  function OutputNodes(walls: seq<Wall>, first: nat, spacing: real): (r: seq<Node>)
    ensures |r| == |walls|
    ensures forall i :: 0 <= i < |walls| ==> r[i] == OutputNode(walls[i], first + i, spacing)
  {
    seq(|walls|, i requires 0 <= i < |walls| => OutputNode(walls[i], first + i, spacing))
  }

  /** The list has an output node for the wall. */
  predicate HasOutput(nodes: seq<Node>, wallId: int) {
    exists n :: n in nodes && IsOutputFor(n, wallId)
  }

  /** The walls without an output node. */
  function MissingWalls(nodes: seq<Node>, walls: seq<Wall>): (r: seq<Wall>)
    ensures forall w :: w in r <==> w in walls && !HasOutput(nodes, w.id)
  {
    Filter(walls, (w: Wall) => !HasOutput(nodes, w.id))
  }

  /** The nodes the editor shows for a cue: its own graph plus the missing output nodes, or only output nodes. */
  function LoadedNodes(cue: Cue, walls: seq<Wall>): seq<Node> {
    if cue.nodes.Some? && |cue.nodes.value| > 0 then
      var nodes := cue.nodes.value;
      nodes + OutputNodes(MissingWalls(nodes, walls), |nodes|, 150.0)
    else OutputNodes(walls, 0, 200.0)
  }

  /** The connections the editor shows for a cue (none for a cue without nodes). */
  function LoadedConnections(cue: Cue): seq<Connection> {
    if cue.nodes.Some? && |cue.nodes.value| > 0 then cue.connections.GetOr([]) else []
  }

  /** After opening a cue every wall has an output node. */
  lemma EveryWallHasOutput(cue: Cue, walls: seq<Wall>)
    ensures forall w :: w in walls ==> HasOutput(LoadedNodes(cue, walls), w.id)
  {
    forall w | w in walls
      ensures HasOutput(LoadedNodes(cue, walls), w.id)
    {
      if cue.nodes.Some? && |cue.nodes.value| > 0 {
        var nodes := cue.nodes.value;
        if !HasOutput(nodes, w.id) {
          var missing := MissingWalls(nodes, walls);
          var i :| 0 <= i < |missing| && missing[i] == w;
          var added := OutputNodes(missing, |nodes|, 150.0);
          assert added[i] in LoadedNodes(cue, walls);
        } else {
          var n :| n in nodes && IsOutputFor(n, w.id);
          assert n in LoadedNodes(cue, walls);
        }
      } else {
        var i :| 0 <= i < |walls| && walls[i] == w;
        assert OutputNodes(walls, 0, 200.0)[i] in LoadedNodes(cue, walls);
      }
    }
  }

  /** Opening a cue keeps its own graph, in order, ahead of the nodes it adds, and adds only output nodes. */
  lemma LoadingKeepsGraph(cue: Cue, walls: seq<Wall>)
    requires cue.nodes.Some? && |cue.nodes.value| > 0
    ensures var loaded := LoadedNodes(cue, walls);
      && |cue.nodes.value| <= |loaded|
      && loaded[..|cue.nodes.value|] == cue.nodes.value
      && forall i :: |cue.nodes.value| <= i < |loaded| ==> loaded[i].kind == "output"
  {
  }

  /** A cue without nodes opens as one output node per wall, in wall order, and no connections. */
  lemma LoadingEmptyCue(cue: Cue, walls: seq<Wall>)
    requires cue.nodes.None? || |cue.nodes.value| == 0
    ensures |LoadedNodes(cue, walls)| == |walls| && LoadedConnections(cue) == []
    ensures forall i :: 0 <= i < |walls| ==> IsOutputFor(LoadedNodes(cue, walls)[i], walls[i].id)
  {
  }

  // ---------------------------------------------------------------------------
  // Edits of the graph, as functions

  /** The connection ends at input `handle` of node `to`. */
  predicate Into(c: Connection, to: string, handle: string) {
    c.to == to && c.toHandle == Some(handle)
  }

  /** No input handle has two connections. */
  predicate OnePerHandle(conns: seq<Connection>) {
    forall i, j :: 0 <= i < j < |conns| && conns[i].toHandle.Some? ==>
      !(conns[j].to == conns[i].to && conns[j].toHandle == conns[i].toHandle)
  }

  /** Connect output `from` to input `handle` of `to`, replacing whatever fed that input. */
  function Connect(conns: seq<Connection>, from: string, to: string, handle: string): seq<Connection> {
    Filter(conns, (c: Connection) => !Into(c, to, handle)) + [Connection(from, to, Some(handle))]
  }

  /** Afterwards exactly the new connection feeds that input, and every other connection is kept. */
  lemma ConnectLeavesOne(conns: seq<Connection>, from: string, to: string, handle: string)
    ensures var r := Connect(conns, from, to, handle);
      && r[|r| - 1] == Connection(from, to, Some(handle))
      && (forall i :: 0 <= i < |r| - 1 ==> !Into(r[i], to, handle))
      && (forall c :: c in conns && !Into(c, to, handle) ==> c in r)
      && (forall c :: c in r ==> c in conns || c == Connection(from, to, Some(handle)))
  {
    var kept := Filter(conns, (c: Connection) => !Into(c, to, handle));
    forall i | 0 <= i < |kept|
      ensures !Into(kept[i], to, handle)
    {
      assert kept[i] in kept;
    }
  }

  /** Connecting keeps at most one connection per input handle. */
  lemma ConnectKeepsOnePerHandle(conns: seq<Connection>, from: string, to: string, handle: string)
    requires OnePerHandle(conns)
    ensures OnePerHandle(Connect(conns, from, to, handle))
  {
    FilterKeepsOnePerHandle(conns, (c: Connection) => !Into(c, to, handle));
    ConnectLeavesOne(conns, from, to, handle);
  }

  lemma {:induction false} FilterKeepsOnePerHandle(conns: seq<Connection>, p: Connection -> bool)
    requires OnePerHandle(conns)
    ensures OnePerHandle(Filter(conns, p))
  {
    if |conns| > 0 {
      var rest := Filter(conns[1..], p);
      assert OnePerHandle(conns[1..]) by {
        forall i, j | 0 <= i < j < |conns[1..]| && conns[1..][i].toHandle.Some?
          ensures !(conns[1..][j].to == conns[1..][i].to && conns[1..][j].toHandle == conns[1..][i].toHandle)
        {
          assert conns[1..][i] == conns[i + 1] && conns[1..][j] == conns[j + 1];
        }
      }
      FilterKeepsOnePerHandle(conns[1..], p);
      if p(conns[0]) {
        var r := [conns[0]] + rest;
        forall i, j | 0 <= i < j < |r| && r[i].toHandle.Some?
          ensures !(r[j].to == r[i].to && r[j].toHandle == r[i].toHandle)
        {
          if i == 0 {
            assert r[j] in conns[1..];
            var k :| 0 <= k < |conns[1..]| && conns[1..][k] == r[j];
            assert conns[k + 1] == r[j];
          } else {
            assert r[i] == rest[i - 1] && r[j] == rest[j - 1];
          }
        }
      }
    }
  }

  /** `updateNodeData`: merge `data` into the data of every node with that id. */
  function UpdateData(nodes: seq<Node>, id: string, data: map<string, Value>): (r: seq<Node>)
    ensures |r| == |nodes|
    ensures forall i :: 0 <= i < |r| && nodes[i].id != id ==> r[i] == nodes[i]
    ensures forall i :: 0 <= i < |r| && nodes[i].id == id ==> r[i] == nodes[i].(data := nodes[i].data + data)
  {
    seq(|nodes|, i requires 0 <= i < |nodes| =>
      if nodes[i].id == id then nodes[i].(data := nodes[i].data + data) else nodes[i])
  }

  /** The merged data holds the new values and every old key the update does not name. */
  lemma UpdateDataMerges(nodes: seq<Node>, id: string, data: map<string, Value>, i: nat)
    requires i < |nodes| && nodes[i].id == id
    ensures forall k :: k in data ==> Lookup(UpdateData(nodes, id, data)[i].data, k) == Some(data[k])
    ensures forall k :: k !in data ==> Lookup(UpdateData(nodes, id, data)[i].data, k) == Lookup(nodes[i].data, k)
  {
  }

  /** Updating data changes no id, so it leaves every connection's endpoints in place. */
  lemma UpdateDataKeepsGraph(nodes: seq<Node>, conns: seq<Connection>, id: string, data: map<string, Value>)
    ensures Ids(UpdateData(nodes, id, data)) == Ids(nodes)
    ensures NoDangling(nodes, conns) ==> NoDangling(UpdateData(nodes, id, data), conns)
  {
    var r := UpdateData(nodes, id, data);
    forall x | x in Ids(r)
      ensures x in Ids(nodes)
    {
      var n :| n in r && n.id == x;
      var i :| 0 <= i < |r| && r[i] == n;
      assert nodes[i].id == x;
    }
    forall x | x in Ids(nodes)
      ensures x in Ids(r)
    {
      var n :| n in nodes && n.id == x;
      var i :| 0 <= i < |nodes| && nodes[i] == n;
      assert r[i].id == x;
    }
  }

  /** `deleteConnection`: drop the connection at `index`; an index out of range drops nothing. */
  function DropAt(conns: seq<Connection>, index: int): (r: seq<Connection>)
    ensures 0 <= index < |conns| ==> |r| == |conns| - 1 && multiset(r) + multiset{conns[index]} == multiset(conns)
    ensures 0 <= index < |conns| ==>
      (forall k :: 0 <= k < index ==> r[k] == conns[k]) &&
      (forall k :: index <= k < |r| ==> r[k] == conns[k + 1])
    ensures !(0 <= index < |conns|) ==> r == conns
  {
    if 0 <= index < |conns| then
      assert conns == conns[..index] + [conns[index]] + conns[index + 1..];
      conns[..index] + conns[index + 1..]
    else conns
  }

  /** Dropping a connection keeps the others in order, and both graph invariants. */
  lemma DropAtKeeps(nodes: seq<Node>, conns: seq<Connection>, index: int)
    ensures forall c :: c in DropAt(conns, index) ==> c in conns
    ensures NoDangling(nodes, conns) ==> NoDangling(nodes, DropAt(conns, index))
    ensures OnePerHandle(conns) ==> OnePerHandle(DropAt(conns, index))
  {
    var r := DropAt(conns, index);
    if 0 <= index < |conns| {
      forall c | c in r
        ensures c in conns
      {
        assert c in multiset(r);
      }
      if OnePerHandle(conns) {
        forall i, j | 0 <= i < j < |r| && r[i].toHandle.Some?
          ensures !(r[j].to == r[i].to && r[j].toHandle == r[i].toHandle)
        {
          var i', j' := if i < index then i else i + 1, if j < index then j else j + 1;
          assert r[i] == conns[i'] && r[j] == conns[j'];
        }
      }
    }
  }

  /** `deleteNode` once the node is known to be deletable: drop it and every connection touching it. */
  function RemoveNode(nodes: seq<Node>, conns: seq<Connection>, id: string): (r: (seq<Node>, seq<Connection>))
    ensures forall n :: n in r.0 <==> n in nodes && n.id != id
    ensures forall c :: c in r.1 <==> c in conns && c.from != id && c.to != id
  {
    (Filter(nodes, (n: Node) => n.id != id), Filter(conns, (c: Connection) => c.from != id && c.to != id))
  }

  /** Removing a node leaves no connection dangling that was not dangling before. */
  lemma RemoveNodeNoDangling(nodes: seq<Node>, conns: seq<Connection>, id: string)
    requires NoDangling(nodes, conns)
    ensures var r := RemoveNode(nodes, conns, id); NoDangling(r.0, r.1)
  {
    var r := RemoveNode(nodes, conns, id);
    forall c | c in r.1
      ensures c.from in Ids(r.0) && c.to in Ids(r.0)
    {
      var a :| a in nodes && a.id == c.from;
      var b :| b in nodes && b.id == c.to;
      assert a in r.0 && b in r.0;
    }
  }

  /** Removing a node also keeps at most one connection per input handle. */
  lemma RemoveNodeOnePerHandle(nodes: seq<Node>, conns: seq<Connection>, id: string)
    requires OnePerHandle(conns)
    ensures OnePerHandle(RemoveNode(nodes, conns, id).1)
  {
    FilterKeepsOnePerHandle(conns, (c: Connection) => c.from != id && c.to != id);
  }

  /** An output node, or an id no node has, is never deleted. */
  predicate Deletable(nodes: seq<Node>, id: string) {
    NodeById(nodes, id).Some? && NodeById(nodes, id).value.kind != "output"
  }

  // ---------------------------------------------------------------------------
  // The editor

  class NodeEditor {
    var nodes: seq<Node>
    var connections: seq<Connection>
    var connectSource: Option<Pending>

    constructor ()
      ensures nodes == [] && connections == [] && connectSource.None?
    {
      nodes := [];
      connections := [];
      connectSource := None;
    }

    /**
     * Opening the selection: a transition shows the fixed three-node diagram; a cue shows
     * its graph completed with an output node for every wall. Nothing happens without a cue.
     */
    method Open(cue: Option<Cue>, transition: bool, walls: seq<Wall>)
      modifies this
      ensures connectSource == old(connectSource)
      ensures cue.None? ==> nodes == old(nodes) && connections == old(connections)
      ensures cue.Some? && transition ==> nodes == TransitionDiagram() && connections == TransitionLinks()
      ensures cue.Some? && !transition ==> nodes == LoadedNodes(cue.value, walls) && connections == LoadedConnections(cue.value)
    {
      if cue.Some? {
        if transition {
          nodes := TransitionDiagram();
          connections := TransitionLinks();
        } else if cue.value.nodes.Some? && |cue.value.nodes.value| > 0 {
          nodes := cue.value.nodes.value;
          connections := cue.value.connections.GetOr([]);
          var missing := MissingWalls(nodes, walls);
          if |missing| > 0 {
            nodes := nodes + OutputNodes(missing, |cue.value.nodes.value|, 150.0);
          }
        } else {
          nodes := OutputNodes(walls, 0, 200.0);
          connections := [];
        }
      }
    }

    /**
     * `handleHandleClick`: clicking an output handle arms it (or disarms it when it was
     * armed); clicking an input handle of another node while an output is armed connects
     * them, replacing what fed that input.
     */
    method HandleClick(id: string, handle: string)
      modifies this
      ensures nodes == old(nodes)
      ensures handle == "output" ==> connections == old(connections)
      ensures handle == "output" ==>
        connectSource == (if old(connectSource) == Some(Pending(id, "output")) then None else Some(Pending(id, "output")))
      ensures handle != "output" && old(connectSource).Some? && old(connectSource).value.handle == "output" && old(connectSource).value.id != id ==>
        connections == Connect(old(connections), old(connectSource).value.id, id, handle) && connectSource.None?
      ensures handle != "output" && !(old(connectSource).Some? && old(connectSource).value.handle == "output" && old(connectSource).value.id != id) ==>
        connections == old(connections) && connectSource == old(connectSource)
    {
      if handle == "output" {
        if connectSource == Some(Pending(id, "output")) {
          connectSource := None;
        } else {
          connectSource := Some(Pending(id, "output"));
        }
      } else if connectSource.Some? && connectSource.value.handle == "output" {
        if connectSource.value.id != id {
          connections := Connect(connections, connectSource.value.id, id, handle);
          connectSource := None;
        }
      }
    }

    /** `updateNodeData`. */
    method UpdateNodeData(id: string, data: map<string, Value>)
      modifies this
      ensures nodes == UpdateData(old(nodes), id, data)
      ensures connections == old(connections) && connectSource == old(connectSource)
    {
      nodes := UpdateData(nodes, id, data);
    }

    /** `deleteConnection`. */
    method DeleteConnection(index: int)
      modifies this
      ensures connections == DropAt(old(connections), index)
      ensures nodes == old(nodes) && connectSource == old(connectSource)
    {
      connections := DropAt(connections, index);
    }

    /** `deleteNode`: output nodes and unknown ids are left alone. */
    method DeleteNode(id: string)
      modifies this
      ensures Deletable(old(nodes), id) ==> (nodes, connections) == RemoveNode(old(nodes), old(connections), id)
      ensures !Deletable(old(nodes), id) ==> nodes == old(nodes) && connections == old(connections)
      ensures connectSource == old(connectSource)
    {
      var found := NodeById(nodes, id);
      if found.None? {
        return;
      }
      if found.value.kind == "output" {
        return;
      }
      var r := RemoveNode(nodes, connections, id);
      nodes, connections := r.0, r.1;
    }
  }

  /** The fixed diagram shown for a transition: previous cue, cross-fade, next cue. */
  function TransitionDiagram(): seq<Node> {
    [ Node("n1", "state", map[], 50.0, 100.0, "Prev Cue"),
      Node("n2", "effect", map[], 300.0, 100.0, "Crossfade"),
      Node("n3", "state", map[], 600.0, 100.0, "Next Cue") ]
  }

  function TransitionLinks(): seq<Connection> {
    [Connection("n1", "n2", None), Connection("n2", "n3", None)]
  }

  /** The transition diagram is a well-formed graph. */
  lemma TransitionDiagramWellFormed()
    ensures NoDangling(TransitionDiagram(), TransitionLinks()) && OnePerHandle(TransitionLinks())
  {
    assert "n1" in Ids(TransitionDiagram()) by { assert TransitionDiagram()[0].id == "n1"; }
    assert "n2" in Ids(TransitionDiagram()) by { assert TransitionDiagram()[1].id == "n2"; }
    assert "n3" in Ids(TransitionDiagram()) by { assert TransitionDiagram()[2].id == "n3"; }
  }

  /** A deletion never removes an output node. */
  lemma DeleteKeepsOutputs(nodes: seq<Node>, conns: seq<Connection>, id: string)
    requires Deletable(nodes, id)
    ensures forall n :: n in nodes && n.kind == "output" && n.id != id ==> n in RemoveNode(nodes, conns, id).0
    ensures forall n :: n in nodes && n.id == id ==> n !in RemoveNode(nodes, conns, id).0
  {
  }
}
