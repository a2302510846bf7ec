// Finite object graphs, possibly shared and cyclic, and reachability in them.
module ObjectGraph {
  import opened Common

  datatype Value = Primitive | Ref(id: nat)

  datatype Field = Field(key: string, value: Value)

  /** An object with a `uuid` here is a Foundry document: it has a uuid, a document name and `toObject`. */
  datatype Node = Array(entries: seq<Value>) | Object(fields: seq<Field>, uuid: Option<string>)

  type Graph = map<nat, Node>

  /** The outgoing references that a traversal follows from each node. */
  type Edges = map<nat, seq<Value>>

  function FieldValues(fields: seq<Field>): (values: seq<Value>)
    ensures |values| == |fields|
    ensures forall i :: 0 <= i < |fields| ==> values[i] == fields[i].value
  {
    seq(|fields|, i requires 0 <= i < |fields| => fields[i].value)
  }

  function Slots(node: Node): seq<Value> {
    if node.Array? then node.entries else FieldValues(node.fields)
  }

  function AllEdges(g: Graph): Edges {
    map n | n in g :: Slots(g[n])
  }

  predicate Within(g: Graph, v: Value) {
    v.Ref? ==> v.id in g
  }

  predicate WellFormed(g: Graph) {
    forall n <- g :: forall i :: 0 <= i < |Slots(g[n])| ==> Within(g, Slots(g[n])[i])
  }

  // ---- Paths ----

  predicate Arrow(e: Edges, a: nat, b: nat) {
    a in e && Ref(b) in e[a]
  }

  predicate IsPath(e: Edges, p: seq<nat>) {
    && p != []
    && (forall i :: 0 <= i < |p| ==> p[i] in e)
    && (forall i :: 0 <= i < |p| - 1 ==> Arrow(e, p[i], p[i + 1]))
  }

  ghost predicate PathBetween(e: Edges, p: seq<nat>, a: nat, b: nat) {
    IsPath(e, p) && p[0] == a && p[|p| - 1] == b
  }

  ghost predicate Reaches(e: Edges, a: nat, b: nat) {
    exists p :: PathBetween(e, p, a, b)
  }

  lemma ReachesSelf(e: Edges, a: nat)
    requires a in e
    ensures Reaches(e, a, a)
  {
    assert PathBetween(e, [a], a, a);
  }

  lemma ArrowThenReaches(e: Edges, a: nat, b: nat, c: nat)
    requires Arrow(e, a, b) && Reaches(e, b, c)
    ensures Reaches(e, a, c)
  {
    var p :| PathBetween(e, p, b, c);
    assert PathBetween(e, [a] + p, a, c);
  }

  lemma ReachesThenArrow(e: Edges, a: nat, b: nat, c: nat)
    requires Reaches(e, a, b) && Arrow(e, b, c) && c in e
    ensures Reaches(e, a, c)
  {
    var p :| PathBetween(e, p, a, b);
    assert PathBetween(e, p + [c], a, c);
  }

  lemma PathTail(e: Edges, p: seq<nat>)
    requires IsPath(e, p) && |p| > 1
    ensures IsPath(e, p[1..]) && p[1..][0] == p[1] && Arrow(e, p[0], p[1])
  {
  }

  /** A set closed under arrows holds everything reachable from its members. */
  lemma {:induction false} ClosedSetHoldsPath(e: Edges, s: set<nat>, p: seq<nat>)
    requires IsPath(e, p) && p[0] in s
    requires forall a, b :: a in s && Arrow(e, a, b) ==> b in s
    ensures p[|p| - 1] in s
    decreases |p|
  {
    if |p| > 1 {
      PathTail(e, p);
      ClosedSetHoldsPath(e, s, p[1..]);
    }
  }

  // ---- The graph itself ----

  /** Value `v` stands at place `i` of a node: an entry of an array, or the value of a field. */
  predicate Part(node: Node, i: nat, v: Value) {
    match node
    case Array(entries) => i < |entries| && entries[i] == v
    case Object(fields, _) => i < |fields| && fields[i].value == v
  }

  ghost predicate PointsTo(g: Graph, a: nat, b: nat) {
    a in g && b in g && exists i: nat :: Part(g[a], i, Ref(b))
  }

  /** A way through the graph from part to part. */
  ghost predicate Trail(g: Graph, p: seq<nat>) {
    && p != []
    && (forall i :: 0 <= i < |p| ==> p[i] in g)
    && (forall i :: 0 <= i < |p| - 1 ==> PointsTo(g, p[i], p[i + 1]))
  }

  ghost predicate TrailBetween(g: Graph, p: seq<nat>, a: nat, b: nat) {
    Trail(g, p) && p[0] == a && p[|p| - 1] == b
  }

  ghost predicate Leads(g: Graph, a: nat, b: nat) {
    exists p :: TrailBetween(g, p, a, b)
  }

  lemma PartsAreSlots(node: Node, i: nat, v: Value)
    ensures Part(node, i, v) <==> i < |Slots(node)| && Slots(node)[i] == v
  {
  }

  lemma PointsToIsArrow(g: Graph, a: nat, b: nat)
    requires a in g && b in g
    ensures PointsTo(g, a, b) <==> Arrow(AllEdges(g), a, b)
  {
    if PointsTo(g, a, b) {
      var i: nat :| Part(g[a], i, Ref(b));
      PartsAreSlots(g[a], i, Ref(b));
    }
    if Arrow(AllEdges(g), a, b) {
      var i: nat :| i < |Slots(g[a])| && Slots(g[a])[i] == Ref(b);
      PartsAreSlots(g[a], i, Ref(b));
    }
  }

  /** The traversals' edges are the graph's own. */
  lemma TrailsArePaths(g: Graph, p: seq<nat>)
    ensures Trail(g, p) <==> IsPath(AllEdges(g), p)
  {
    if forall i :: 0 <= i < |p| ==> p[i] in g {
      forall i | 0 <= i < |p| - 1 ensures PointsTo(g, p[i], p[i + 1]) <==> Arrow(AllEdges(g), p[i], p[i + 1]) {
        PointsToIsArrow(g, p[i], p[i + 1]);
      }
    }
  }

  lemma LeadsIsReaches(g: Graph, a: nat, b: nat)
    ensures Leads(g, a, b) <==> Reaches(AllEdges(g), a, b)
  {
    if p :| TrailBetween(g, p, a, b) {
      TrailsArePaths(g, p);
      assert PathBetween(AllEdges(g), p, a, b);
    }
    if p :| PathBetween(AllEdges(g), p, a, b) {
      TrailsArePaths(g, p);
      assert TrailBetween(g, p, a, b);
    }
  }
}
