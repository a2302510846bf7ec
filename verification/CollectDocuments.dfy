// The depth-first search for documents in an import result, and its use by the import event listener.
module CollectDocuments {
  import opened Common
  import opened ObjectGraph

  const EXCLUDED_KEYS: set<string> := {"actor", "destination", "options", "importOpts"}

  function Followed(fields: seq<Field>): seq<Value>
    decreases |fields|
  {
    if fields == [] then []
    else (if fields[0].key in EXCLUDED_KEYS then [] else [fields[0].value]) + Followed(fields[1..])
  }

  /** The search stops at a document and skips the excluded keys of other objects. */
  function Children(node: Node): seq<Value> {
    if node.Array? then node.entries
    else if node.uuid.Some? then []
    else Followed(node.fields)
  }

  function SearchEdges(g: Graph): Edges {
    map n | n in g :: Children(g[n])
  }

  predicate IsDocument(g: Graph, n: nat) {
    n in g && g[n].Object? && g[n].uuid.Some?
  }

  function Uuid(g: Graph, n: nat): string
    requires IsDocument(g, n)
  {
    g[n].uuid.value
  }

  predicate Closed(g: Graph) {
    forall n <- g :: forall v <- Children(g[n]) :: Within(g, v)
  }

  lemma {:induction false} FollowedAreFields(fields: seq<Field>)
    ensures forall v :: v in Followed(fields) <==>
              exists i :: 0 <= i < |fields| && fields[i].key !in EXCLUDED_KEYS && fields[i].value == v
    decreases |fields|
  {
    if fields != [] {
      FollowedAreFields(fields[1..]);
      forall v
        ensures v in Followed(fields) <==>
                  exists i :: 0 <= i < |fields| && fields[i].key !in EXCLUDED_KEYS && fields[i].value == v
      {
        if v in Followed(fields[1..]) {
          var i :| 0 <= i < |fields[1..]| && fields[1..][i].key !in EXCLUDED_KEYS && fields[1..][i].value == v;
          assert fields[i + 1].value == v;
        }
        if i :| 0 <= i < |fields| && fields[i].key !in EXCLUDED_KEYS && fields[i].value == v {
          assert i > 0 ==> fields[1..][i - 1] == fields[i];
        }
      }
    }
  }

  /** Every well-formed graph is closed for the search. */
  lemma WellFormedIsClosed(g: Graph)
    requires WellFormed(g)
    ensures Closed(g)
  {
    forall n <- g, v <- Children(g[n]) ensures Within(g, v) {
      if g[n].Array? {
        var i :| 0 <= i < |Slots(g[n])| && Slots(g[n])[i] == v;
      } else if g[n].uuid.None? {
        FollowedAreFields(g[n].fields);
        var i :| 0 <= i < |g[n].fields| && g[n].fields[i].value == v;
        assert Slots(g[n])[i] == v;
      }
    }
  }

  /** The set `seen` and the documents pushed so far. */
  datatype Found = Found(seen: set<nat>, output: seq<nat>)

  predicate Named(g: Graph, output: seq<nat>, uuid: string) {
    exists i :: 0 <= i < |output| && IsDocument(g, output[i]) && Uuid(g, output[i]) == uuid
  }

  function Push(g: Graph, output: seq<nat>, n: nat): seq<nat>
    requires IsDocument(g, n)
  {
    if Named(g, output, Uuid(g, n)) then output else output + [n]
  }

  function Collect(g: Graph, v: Value, f: Found): (r: Found)
    requires Closed(g) && Within(g, v)
    ensures f.seen <= r.seen
    decreases g.Keys - f.seen, 0
  {
    if v.Primitive? || v.id in f.seen then f else
      var marked := f.seen + {v.id};
      if IsDocument(g, v.id) then Found(marked, Push(g, f.output, v.id))
      else CollectAll(g, Children(g[v.id]), Found(marked, f.output))
  }

  function CollectAll(g: Graph, vs: seq<Value>, f: Found): (r: Found)
    requires Closed(g) && forall v <- vs :: Within(g, v)
    ensures f.seen <= r.seen
    decreases g.Keys - f.seen, |vs| + 1
  {
    if vs == [] then f else CollectAll(g, vs[1..], Collect(g, vs[0], f))
  }

  // ---- What a search adds ----

  ghost predicate FromSome(g: Graph, vs: seq<Value>, n: nat) {
    exists v :: v in vs && v.Ref? && Reaches(SearchEdges(g), v.id, n)
  }

  /** The new part of `seen` is closed under the search's edges and reachable from the values given. */
  ghost predicate Explored(g: Graph, vs: seq<Value>, f: Found, r: Found) {
    && r.seen - f.seen <= g.Keys
    && (forall v <- vs :: v.Ref? ==> v.id in r.seen)
    && (forall a, b :: a in r.seen - f.seen && Arrow(SearchEdges(g), a, b) ==> b in r.seen)
    && (forall a :: a in r.seen - f.seen ==> FromSome(g, vs, a))
  }

  ghost predicate DistinctUuids(g: Graph, output: seq<nat>) {
    && (forall n <- output :: IsDocument(g, n))
    && (forall i, j :: 0 <= i < j < |output| ==> Uuid(g, output[i]) != Uuid(g, output[j]))
  }

  /** The output grew, kept its uuids distinct, and names exactly the documents newly seen besides those of before. */
  ghost predicate Reported(g: Graph, f: Found, r: Found) {
    && f.output <= r.output
    && DistinctUuids(g, r.output)
    && (forall n <- r.output :: n in f.output || n in r.seen - f.seen)
    && (forall n :: n in r.seen - f.seen && IsDocument(g, n) ==> Named(g, r.output, Uuid(g, n)))
  }

  lemma {:induction false} CollectExplores(g: Graph, v: Value, f: Found)
    requires Closed(g) && Within(g, v)
    ensures Explored(g, [v], f, Collect(g, v, f))
    decreases g.Keys - f.seen, 0
  {
    var e := SearchEdges(g);
    if v.Ref? && v.id !in f.seen {
      ReachesSelf(e, v.id);
      assert v in [v];
      var kids := Children(g[v.id]);
      if !IsDocument(g, v.id) {
        var inner := Found(f.seen + {v.id}, f.output);
        var r := CollectAll(g, kids, inner);
        CollectAllExplores(g, kids, inner);
        forall a | a in r.seen - f.seen ensures FromSome(g, [v], a) {
          if a != v.id {
            assert FromSome(g, kids, a);
            var k :| k in kids && k.Ref? && Reaches(e, k.id, a);
            ArrowThenReaches(e, v.id, k.id, a);
          }
        }
        forall a, b | a in r.seen - f.seen && Arrow(e, a, b) ensures b in r.seen {
          if a == v.id {
            assert Ref(b) in kids;
          }
        }
      } else {
        assert e[v.id] == [];
      }
    }
  }

  lemma ExploredInTurn(g: Graph, vs: seq<Value>, f: Found, mid: Found, r: Found)
    requires vs != [] && f.seen <= mid.seen <= r.seen
    requires Explored(g, [vs[0]], f, mid) && Explored(g, vs[1..], mid, r)
    ensures Explored(g, vs, f, r)
  {
    forall a | a in r.seen - f.seen ensures FromSome(g, vs, a) {
      if a in mid.seen {
        assert FromSome(g, [vs[0]], a);
        var v :| v in [vs[0]] && v.Ref? && Reaches(SearchEdges(g), v.id, a);
        assert v in vs;
      } else {
        assert FromSome(g, vs[1..], a);
        var v :| v in vs[1..] && v.Ref? && Reaches(SearchEdges(g), v.id, a);
        assert v in vs;
      }
    }
    forall v <- vs | v.Ref? ensures v.id in r.seen {
      assert v == vs[0] || v in vs[1..];
    }
  }

  lemma {:induction false} CollectAllExplores(g: Graph, vs: seq<Value>, f: Found)
    requires Closed(g) && forall v <- vs :: Within(g, v)
    ensures Explored(g, vs, f, CollectAll(g, vs, f))
    decreases g.Keys - f.seen, |vs| + 1
  {
    if vs != [] {
      var mid := Collect(g, vs[0], f);
      CollectExplores(g, vs[0], f);
      CollectAllExplores(g, vs[1..], mid);
      ExploredInTurn(g, vs, f, mid, CollectAll(g, vs, f));
    }
  }

  lemma PushReports(g: Graph, f: Found, n: nat)
    requires IsDocument(g, n) && DistinctUuids(g, f.output) && n !in f.seen
    ensures Reported(g, f, Found(f.seen + {n}, Push(g, f.output, n)))
  {
    var output := Push(g, f.output, n);
    if output != f.output {
      assert output[|f.output|] == n;
    }
  }

  lemma {:induction false} CollectReports(g: Graph, v: Value, f: Found)
    requires Closed(g) && Within(g, v) && DistinctUuids(g, f.output)
    ensures Reported(g, f, Collect(g, v, f))
    decreases g.Keys - f.seen, 0
  {
    if v.Ref? && v.id !in f.seen {
      if IsDocument(g, v.id) {
        PushReports(g, f, v.id);
      } else {
        CollectAllReports(g, Children(g[v.id]), Found(f.seen + {v.id}, f.output));
      }
    }
  }

  lemma ReportedInTurn(g: Graph, f: Found, mid: Found, r: Found)
    requires f.seen <= mid.seen <= r.seen && Reported(g, f, mid) && Reported(g, mid, r)
    ensures Reported(g, f, r)
  {
  }

  lemma {:induction false} CollectAllReports(g: Graph, vs: seq<Value>, f: Found)
    requires Closed(g) && (forall v <- vs :: Within(g, v)) && DistinctUuids(g, f.output)
    ensures Reported(g, f, CollectAll(g, vs, f))
    decreases g.Keys - f.seen, |vs| + 1
  {
    if vs != [] {
      var mid := Collect(g, vs[0], f);
      CollectReports(g, vs[0], f);
      CollectAllReports(g, vs[1..], mid);
      ReportedInTurn(g, f, mid, CollectAll(g, vs, f));
    }
  }

  // ---- The main results ----

  /** One step of the search in the graph: from an array to any entry; from an object that is no document to the value
      of any field but the four that are left out; from a document nowhere. */
  ghost predicate Follows(g: Graph, a: nat, b: nat) {
    && a in g
    && match g[a]
       case Array(entries) => Ref(b) in entries
       case Object(fields, uuid) =>
         && uuid.None?
         && exists field <- fields :: field.value == Ref(b) && field.key != "actor" && field.key != "destination"
                                      && field.key != "options" && field.key != "importOpts"
  }

  ghost predicate Way(g: Graph, p: seq<nat>) {
    && p != [] && (forall i :: 0 <= i < |p| ==> p[i] in g)
    && (forall i :: 0 <= i < |p| - 1 ==> Follows(g, p[i], p[i + 1]))
  }

  ghost predicate WayBetween(g: Graph, p: seq<nat>, a: nat, b: nat) {
    Way(g, p) && p[0] == a && p[|p| - 1] == b
  }

  lemma FollowsIsArrow(g: Graph, a: nat, b: nat)
    requires a in g
    ensures Follows(g, a, b) <==> Arrow(SearchEdges(g), a, b)
  {
    if g[a].Object? && g[a].uuid.None? {
      var fields := g[a].fields;
      FollowedAreFields(fields);
      if field :| field in fields && field.value == Ref(b) && field.key != "actor" && field.key != "destination"
                  && field.key != "options" && field.key != "importOpts" {
        var i: nat :| i < |fields| && fields[i] == field;
      }
      if i: nat :| i < |fields| && fields[i].key !in EXCLUDED_KEYS && fields[i].value == Ref(b) {
        assert fields[i] in fields;
      }
    }
  }

  lemma WaysArePaths(g: Graph, p: seq<nat>)
    ensures Way(g, p) <==> IsPath(SearchEdges(g), p)
  {
    if forall i :: 0 <= i < |p| ==> p[i] in g {
      forall i | 0 <= i < |p| - 1 ensures Follows(g, p[i], p[i + 1]) <==> Arrow(SearchEdges(g), p[i], p[i + 1]) {
        FollowsIsArrow(g, p[i], p[i + 1]);
      }
    }
  }

  lemma WayIsReaches(g: Graph, a: nat, b: nat)
    ensures (exists p :: WayBetween(g, p, a, b)) <==> Reaches(SearchEdges(g), a, b)
  {
    if p :| WayBetween(g, p, a, b) {
      WaysArePaths(g, p);
      assert PathBetween(SearchEdges(g), p, a, b);
    }
    if p :| PathBetween(SearchEdges(g), p, a, b) {
      WaysArePaths(g, p);
      assert WayBetween(g, p, a, b);
    }
  }

  /** The documents a search from `v` may find: reachable without passing through a document or an excluded key. */
  ghost predicate Visible(g: Graph, v: Value, n: nat) {
    v.Ref? && IsDocument(g, n) && exists p :: WayBetween(g, p, v.id, n)
  }

  /** From nothing seen, a search marks exactly what is reachable. */
  lemma SeenIsReachable(g: Graph, v: Value, output: seq<nat>, n: nat)
    requires Closed(g) && Within(g, v)
    ensures n in Collect(g, v, Found({}, output)).seen <==> v.Ref? && exists p :: WayBetween(g, p, v.id, n)
  {
    if v.Ref? {
      WayIsReaches(g, v.id, n);
    }
    var e := SearchEdges(g);
    var r := Collect(g, v, Found({}, output));
    CollectExplores(g, v, Found({}, output));
    if n in r.seen {
      assert FromSome(g, [v], n);
    }
    if v.Ref? && Reaches(e, v.id, n) {
      var p :| PathBetween(e, p, v.id, n);
      assert v in [v];
      ClosedSetHoldsPath(e, r.seen, p);
    }
  }

  /** On any finite graph, shared or cyclic, the search finds each visible uuid exactly once and nothing else,
      and leaves what the output already held in place. */
  lemma CollectFindsExactlyTheVisible(g: Graph, v: Value, output: seq<nat>)
    requires Closed(g) && Within(g, v) && DistinctUuids(g, output)
    ensures var found := Collect(g, v, Found({}, output)).output;
            && output <= found && DistinctUuids(g, found)
            && (forall uuid :: Named(g, found, uuid) <==>
                  Named(g, output, uuid) || exists n :: Visible(g, v, n) && Uuid(g, n) == uuid)
  {
    var f := Found({}, output);
    var r := Collect(g, v, f);
    CollectReports(g, v, f);
    forall uuid
      ensures Named(g, r.output, uuid) <==> Named(g, output, uuid) || exists n :: Visible(g, v, n) && Uuid(g, n) == uuid
    {
      if i :| 0 <= i < |r.output| && IsDocument(g, r.output[i]) && Uuid(g, r.output[i]) == uuid {
        if r.output[i] in output {
          var j :| 0 <= j < |output| && output[j] == r.output[i];
          assert Named(g, output, uuid);
        } else {
          SeenIsReachable(g, v, output, r.output[i]);
          assert Visible(g, v, r.output[i]);
        }
      }
      if i :| 0 <= i < |output| && IsDocument(g, output[i]) && Uuid(g, output[i]) == uuid {
        assert r.output[i] == output[i];
      }
      if n :| Visible(g, v, n) && Uuid(g, n) == uuid {
        SeenIsReachable(g, v, output, n);
      }
    }
  }

  /** The import listener: every event is searched with its own `seen`, all share one output. */
  function Capture(g: Graph, events: seq<Value>, output: seq<nat>): seq<nat>
    requires Closed(g) && forall v <- events :: Within(g, v)
    decreases |events|
  {
    if events == [] then output else Capture(g, events[1..], Collect(g, events[0], Found({}, output)).output)
  }

  /** Over any sequence of events, again distinct and complete. */
  lemma {:induction false} CaptureFindsExactlyTheVisible(g: Graph, events: seq<Value>, output: seq<nat>)
    requires Closed(g) && (forall v <- events :: Within(g, v)) && DistinctUuids(g, output)
    ensures var found := Capture(g, events, output);
            && output <= found && DistinctUuids(g, found)
            && (forall uuid :: Named(g, found, uuid) <==>
                  Named(g, output, uuid) || exists v, n :: v in events && Visible(g, v, n) && Uuid(g, n) == uuid)
    decreases |events|
  {
    if events != [] {
      var next := Collect(g, events[0], Found({}, output)).output;
      CollectFindsExactlyTheVisible(g, events[0], output);
      CaptureFindsExactlyTheVisible(g, events[1..], next);
      forall v ensures v in events <==> v == events[0] || v in events[1..] {}
    }
  }

  // ---- The search as the program runs it ----

  class Search {
    const graph: Graph
    var seen: set<nat>
    var output: seq<nat>

    constructor (graph: Graph, output: seq<nat>)
      ensures this.graph == graph && seen == {} && this.output == output
    {
      this.graph, seen, this.output := graph, {}, output;
    }

    method Visit(value: Value)
      requires Closed(graph) && Within(graph, value)
      modifies this
      ensures Found(seen, output) == Collect(graph, value, Found(old(seen), old(output)))
      decreases graph.Keys - seen
    {
      if value.Primitive? || value.id in seen {
        return;
      }
      seen := seen + {value.id};
      if IsDocument(graph, value.id) {
        var known := false;
        for i := 0 to |output|
          invariant known <==>
                      exists j :: 0 <= j < i && IsDocument(graph, output[j])
                        && Uuid(graph, output[j]) == Uuid(graph, value.id)
        {
          if IsDocument(graph, output[i]) && Uuid(graph, output[i]) == Uuid(graph, value.id) {
            known := true;
          }
        }
        if !known {
          output := output + [value.id];
        }
        return;
      }
      var children := Children(graph[value.id]);
      ghost var whole := CollectAll(graph, children, Found(seen, output));
      for i := 0 to |children|
        invariant old(seen) + {value.id} <= seen
        invariant CollectAll(graph, children[i..], Found(seen, output)) == whole
      {
        Visit(children[i]);
      }
    }
  }
}
