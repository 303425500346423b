/**
 * The show data the editor works on: walls, acts ("scenes") of cues, and in
 * every cue a compositing graph of nodes joined by connections.  Also the
 * JavaScript list searches (`find`, `findIndex`, `some`) the rest of the
 * model is written with, specified once here.
 */
module Graph {
  import opened Wrappers
  import Homography

  /** A value stored in a node's `data` object. */
  datatype Value = Number(x: real) | Text(s: string) | Flag(b: bool)

  /** JavaScript truthiness of a possibly missing value (NaN is not modelled). */
  predicate Truthy(v: Option<Value>) {
    match v
    case None => false
    case Some(Number(x)) => x != 0.0
    case Some(Text(s)) => s != ""
    case Some(Flag(b)) => b
  }

  /** `data[key]`, None when the key is absent. */
  function Lookup(data: map<string, Value>, key: string): (v: Option<Value>)
    ensures v.Some? <==> key in data
    ensures v.Some? ==> v.value == data[key]
  {
    if key in data then Some(data[key]) else None
  }

  /** A graph node; `kind` is its `type` string ("output", "mix", "color", "image", ...) and `caption` its label. */
  datatype Node = Node(id: string, kind: string, data: map<string, Value>, x: real, y: real, caption: string)

  /** An edge into input `toHandle` of node `to` (transition graphs have no handle). */
  datatype Connection = Connection(from: string, to: string, toHandle: Option<string>)

  /** A cue: its graph (absent in cues never edited) and its transition settings. */
  datatype Cue = Cue(
    id: int,
    name: string,
    nodes: Option<seq<Node>>,
    connections: Option<seq<Connection>>,
    transitionDuration: Option<real>,
    transitionDelay: Option<real>,
    transitionEase: Option<string>)

  /** An act: an ordered list of cues. */
  datatype Scene = Scene(id: int, name: string, cues: seq<Cue>)

  /** A projection surface: four corner points. */
  datatype Wall = Wall(id: int, name: string, points: seq<Homography.Point>, color: string)

  /** The `data.wallId` test of an output node. */
  predicate ForWall(n: Node, wallId: int) {
    Lookup(n.data, "wallId") == Some(Number(wallId as real))
  }

  predicate IsOutputFor(n: Node, wallId: int) {
    n.kind == "output" && ForWall(n, wallId)
  }

  // ---------------------------------------------------------------------------
  // List searches

  /** `findIndex`: the first position satisfying p, None for -1. */
  function FindIndex<T>(s: seq<T>, p: T -> bool): (r: Option<nat>)
    ensures r.Some? ==> r.value < |s| && p(s[r.value]) && forall j :: 0 <= j < r.value ==> !p(s[j])
    ensures r.None? ==> forall j :: 0 <= j < |s| ==> !p(s[j])
  {
    if |s| == 0 then None
    else if p(s[0]) then Some(0)
    else
      var r := FindIndex(s[1..], p);
      if r.None? then None else Some(r.value + 1)
  }

  /** `find`: the first element satisfying p. */
  function Find<T>(s: seq<T>, p: T -> bool): (r: Option<T>)
    ensures r.Some? <==> exists j :: 0 <= j < |s| && p(s[j])
    ensures r.Some? ==> p(r.value) && r.value in s
  {
    var i := FindIndex(s, p);
    if i.None? then None else Some(s[i.value])
  }

  /** What `find` returns is the element at the first matching position. */
  lemma FindIsFirst<T>(s: seq<T>, p: T -> bool, i: nat)
    requires i < |s| && p(s[i]) && forall j :: 0 <= j < i ==> !p(s[j])
    ensures Find(s, p) == Some(s[i])
  {
    var r := FindIndex(s, p);
    assert r.Some?;
  }

  /** The node with the given id. */
  function NodeById(nodes: seq<Node>, id: string): (r: Option<Node>)
    ensures r.Some? ==> r.value in nodes && r.value.id == id
    ensures r.None? ==> forall n :: n in nodes ==> n.id != id
  {
    Find(nodes, (n: Node) => n.id == id)
  }

  /** The ids of a node list. */
  function Ids(nodes: seq<Node>): (ids: set<string>)
    ensures forall n :: n in nodes ==> n.id in ids
    ensures forall id :: id in ids ==> exists n :: n in nodes && n.id == id
  {
    set n | n in nodes :: n.id
  }

  /** Every connection joins two nodes of the list. */
  predicate NoDangling(nodes: seq<Node>, connections: seq<Connection>) {
    forall c :: c in connections ==> c.from in Ids(nodes) && c.to in Ids(nodes)
  }

  /** `filter`. */
  function Filter<T(!new)>(s: seq<T>, p: T -> bool): (r: seq<T>)
    ensures |r| <= |s|
    ensures forall x :: x in r <==> x in s && p(x)
    ensures multiset(r) <= multiset(s)
  {
    if |s| == 0 then []
    else
      var rest := Filter(s[1..], p);
      assert s == [s[0]] + s[1..];
      if p(s[0]) then [s[0]] + rest else rest
  }

  /** Filtering keeps the order: what passes is a prefix-wise subsequence. */
  lemma FilterAppend<T(!new)>(s: seq<T>, t: seq<T>, p: T -> bool)
    ensures Filter(s + t, p) == Filter(s, p) + Filter(t, p)
  {
    if |s| == 0 {
      assert s + t == t;
    } else {
      assert (s + t)[1..] == s[1..] + t;
      FilterAppend(s[1..], t, p);
    }
  }

  /** Filtering with a test every element passes changes nothing. */
  lemma FilterAll<T(!new)>(s: seq<T>, p: T -> bool)
    requires forall x :: x in s ==> p(x)
    ensures Filter(s, p) == s
  {
    if |s| > 0 {
      FilterAll(s[1..], p);
    }
  }

  /** Decimal digits of a non-negative integer, as template literals write it. */
  function NatString(n: nat): (s: string)
    ensures |s| >= 1
  {
    var d := ['0', '1', '2', '3', '4', '5', '6', '7', '8', '9'];
    if n < 10 then [d[n]] else NatString(n / 10) + [d[n % 10]]
  }

  /** `${i}` of an integer id. */
  function IntString(i: int): (s: string)
    ensures |s| >= 1
  {
    if i < 0 then "-" + NatString(-i) else NatString(i)
  }
}
