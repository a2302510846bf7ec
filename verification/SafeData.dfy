// The check of document data before it is handed to Foundry: no cycle, no forbidden field.
module SafeData {
  import opened Common
  import opened ObjectGraph

  const FORBIDDEN_SEGMENTS: set<string> := {
    "_id", "uuid", "parent", "pack", "apps", "collection", "__proto__", "prototype", "constructor" }

  /** `key.split(".")`, with `head` the part of the current segment already read. */
  function Split(head: string, key: string): (segments: seq<string>)
    decreases |key|
  {
    if key == "" then [head]
    else if key[0] == '.' then [head] + Split("", key[1..])
    else Split(head + [key[0]], key[1..])
  }

  predicate ForbiddenKey(key: string) {
    exists segment <- Split("", key) :: segment in FORBIDDEN_SEGMENTS
  }

  datatype Verdict = Accepted | NotAnObject | Cyclic | Forbidden

  /** The keys of an array are its indices and never forbidden. */
  predicate SlotAllowed(node: Node, i: nat) {
    node.Object? && i < |node.fields| ==> !ForbiddenKey(node.fields[i].key)
  }

  function Walk(g: Graph, n: nat, seen: set<nat>): Verdict
    requires WellFormed(g) && n in g
    decreases g.Keys - seen, 0, 0
  {
    if n in seen then Cyclic else WalkSlots(g, n, 0, seen + {n})
  }

  function WalkSlots(g: Graph, n: nat, i: nat, seen: set<nat>): Verdict
    requires WellFormed(g) && n in g && i <= |Slots(g[n])|
    decreases g.Keys - seen, 2, |Slots(g[n])| - i
  {
    if i == |Slots(g[n])| then Accepted
    else if !SlotAllowed(g[n], i) then Forbidden
    else
      var child := WalkChild(g, Slots(g[n])[i], seen);
      if child.Accepted? then WalkSlots(g, n, i + 1, seen) else child
  }

  /** An array directly under a key is not itself walked: only its entries are. */
  function WalkChild(g: Graph, v: Value, seen: set<nat>): Verdict
    requires WellFormed(g) && Within(g, v)
    decreases g.Keys - seen, 1, 1
  {
    if v.Primitive? then Accepted
    else if g[v.id].Array? then WalkEntries(g, v.id, 0, seen)
    else Walk(g, v.id, seen)
  }

  function WalkEntries(g: Graph, list: nat, j: nat, seen: set<nat>): Verdict
    requires WellFormed(g) && list in g && j <= |Slots(g[list])|
    decreases g.Keys - seen, 1, 0, |Slots(g[list])| - j
  {
    if j == |Slots(g[list])| then Accepted
    else
      var v := Slots(g[list])[j];
      var entry := if v.Ref? then Walk(g, v.id, seen) else Accepted;
      if entry.Accepted? then WalkEntries(g, list, j + 1, seen) else entry
  }

  function AssertSafe(g: Graph, v: Value): Verdict
    requires WellFormed(g) && Within(g, v)
  {
    if v.Primitive? || g[v.id].Array? then NotAnObject else Walk(g, v.id, {})
  }

  // ---- What the verdict should be ----

  predicate Clean(node: Node) {
    forall i: nat | i < |Slots(node)| :: SlotAllowed(node, i)
  }

  ghost predicate PathFrom(g: Graph, root: nat, p: seq<nat>) {
    IsPath(AllEdges(g), p) && p[0] == root
  }

  /** Some path from the root meets a node twice. */
  ghost predicate CycleOnPath(g: Graph, root: nat) {
    exists p: seq<nat> :: PathFrom(g, root, p) && !Distinct(p)
  }

  ghost predicate UncleanReached(g: Graph, root: nat) {
    exists n :: n in g && !Clean(g[n]) && Reaches(AllEdges(g), root, n)
  }

  // ---- Acceptance bounds every path ----

  lemma {:induction false} AcceptedSlots(g: Graph, n: nat, i: nat, seen: set<nat>, k: nat)
    requires WellFormed(g) && n in g && i <= k < |Slots(g[n])|
    requires WalkSlots(g, n, i, seen).Accepted?
    ensures SlotAllowed(g[n], k) && WalkChild(g, Slots(g[n])[k], seen).Accepted?
    decreases k - i
  {
    if i < k {
      AcceptedSlots(g, n, i + 1, seen, k);
    }
  }

  lemma {:induction false} AcceptedEntries(g: Graph, list: nat, j: nat, seen: set<nat>, k: nat)
    requires WellFormed(g) && list in g && j <= k < |Slots(g[list])| && Slots(g[list])[k].Ref?
    requires WalkEntries(g, list, j, seen).Accepted?
    ensures Walk(g, Slots(g[list])[k].id, seen).Accepted?
    decreases k - j
  {
    if j < k {
      AcceptedEntries(g, list, j + 1, seen, k);
    }
  }

  lemma ArrowSlot(g: Graph, a: nat, b: nat) returns (i: nat)
    requires WellFormed(g) && Arrow(AllEdges(g), a, b)
    ensures a in g && i < |Slots(g[a])| && Slots(g[a])[i] == Ref(b) && b in g
  {
    i :| 0 <= i < |Slots(g[a])| && Slots(g[a])[i] == Ref(b);
    assert Within(g, Slots(g[a])[i]);
  }

  /** An accepted node has only clean nodes below it, and no path from it is longer than twice the nodes unseen:
      at least every other node of a path is walked, and a walked node is never walked again below itself. */
  lemma {:induction false} AcceptedBoundsPaths(g: Graph, n: nat, seen: set<nat>, p: seq<nat>)
    requires WellFormed(g) && n in g && Walk(g, n, seen).Accepted? && PathFrom(g, n, p)
    ensures |p| <= 2 * |g.Keys - seen|
    ensures forall i :: 0 <= i < |p| ==> p[i] in g && Clean(g[p[i]])
    decreases |p|
  {
    var e := AllEdges(g);
    assert g.Keys - (seen + {n}) == (g.Keys - seen) - {n};
    assert |g.Keys - (seen + {n})| == |g.Keys - seen| - 1;
    assert Clean(g[n]) by {
      forall i: nat | i < |Slots(g[n])| ensures SlotAllowed(g[n], i) {
        AcceptedSlots(g, n, 0, seen + {n}, i);
      }
    }
    if |p| > 1 {
      PathTail(e, p);
      var i := ArrowSlot(g, p[0], p[1]);
      AcceptedSlots(g, n, 0, seen + {n}, i);
      if !g[p[1]].Array? {
        AcceptedBoundsPaths(g, p[1], seen + {n}, p[1..]);
      } else if |p| > 2 {
        PathTail(e, p[1..]);
        var j := ArrowSlot(g, p[1], p[2]);
        AcceptedEntries(g, p[1], 0, seen + {n}, j);
        AcceptedBoundsPaths(g, p[2], seen + {n}, p[1..][1..]);
        assert p[1..][1..] == p[2..];
      }
    }
  }

  /** A path that meets a node twice can be made as long as one likes. */
  lemma {:induction false} RepeatingPathGrows(e: Edges, p: seq<nat>, i: nat, j: nat, length: nat) returns (q: seq<nat>)
    requires IsPath(e, p) && i < j < |p| && p[i] == p[j]
    ensures IsPath(e, q) && q[0] == p[0] && |q| >= length
    decreases length - |p|
  {
    if |p| >= length {
      return p;
    }
    var longer := p[..j] + p[i..];
    forall k | 0 <= k < |longer| - 1 ensures Arrow(e, longer[k], longer[k + 1]) {
      if k < j - 1 {
        assert Arrow(e, p[k], p[k + 1]);
      } else if k == j - 1 {
        assert Arrow(e, p[k], p[k + 1]);
      } else {
        assert Arrow(e, p[i + (k - j)], p[i + (k - j) + 1]);
      }
    }
    q := RepeatingPathGrows(e, longer, i, j, length);
  }

  lemma AcceptedIsSafe(g: Graph, root: nat)
    requires WellFormed(g) && root in g && Walk(g, root, {}).Accepted?
    ensures !CycleOnPath(g, root) && !UncleanReached(g, root)
  {
    var e := AllEdges(g);
    assert g.Keys - {} == g.Keys;
    if p: seq<nat> :| PathFrom(g, root, p) && !Distinct(p) {
      var i: nat, j: nat :| i < j < |p| && p[i] == p[j];
      var q := RepeatingPathGrows(e, p, i, j, 2 * |g.Keys| + 1);
      AcceptedBoundsPaths(g, root, {}, q);
      assert false;
    }
    if n :| n in g && !Clean(g[n]) && Reaches(e, root, n) {
      var p :| PathBetween(e, p, root, n);
      AcceptedBoundsPaths(g, root, {}, p);
      assert false;
    }
  }

  // ---- A refusal has a witness ----

  /** `verdict` tells the truth about what is reachable from `root`. */
  ghost predicate Justified(g: Graph, root: nat, verdict: Verdict) {
    && (verdict.Cyclic? ==> CycleOnPath(g, root))
    && (verdict.Forbidden? ==> UncleanReached(g, root))
    && !verdict.NotAnObject?
  }

  lemma PathSnoc(g: Graph, root: nat, p: seq<nat>, n: nat)
    requires PathFrom(g, root, p) && n in g && Ref(n) in Slots(g[p[|p| - 1]])
    ensures PathFrom(g, root, p + [n])
  {
  }

  lemma {:induction false} WalkJustified(g: Graph, root: nat, p: seq<nat>, seen: set<nat>)
    requires WellFormed(g) && PathFrom(g, root, p) && seen <= Elements(p[..|p| - 1])
    ensures Justified(g, root, Walk(g, p[|p| - 1], seen))
    decreases g.Keys - seen, 0, 0
  {
    var n := p[|p| - 1];
    if n in seen {
      assert n in p[..|p| - 1];
      assert !Distinct(p);
    } else {
      assert seen + {n} <= Elements(p) by {
        assert p == p[..|p| - 1] + [n];
      }
      SlotsJustified(g, root, p, 0, seen + {n});
    }
  }

  lemma {:induction false} SlotsJustified(g: Graph, root: nat, p: seq<nat>, i: nat, seen: set<nat>)
    requires WellFormed(g) && PathFrom(g, root, p) && seen <= Elements(p) && i <= |Slots(g[p[|p| - 1]])|
    ensures Justified(g, root, WalkSlots(g, p[|p| - 1], i, seen))
    decreases g.Keys - seen, 2, |Slots(g[p[|p| - 1]])| - i
  {
    var n := p[|p| - 1];
    if i < |Slots(g[n])| {
      if !SlotAllowed(g[n], i) {
        assert PathBetween(AllEdges(g), p, root, n);
        assert Reaches(AllEdges(g), root, n);
      } else {
        var v := Slots(g[n])[i];
        if v.Ref? {
          PathSnoc(g, root, p, v.id);
          var q := p + [v.id];
          assert q[..|q| - 1] == p;
          if g[v.id].Array? {
            EntriesJustified(g, root, q, 0, seen);
          } else {
            WalkJustified(g, root, q, seen);
          }
          assert q[|q| - 1] == v.id;
        }
        assert Justified(g, root, WalkChild(g, v, seen));
        SlotsJustified(g, root, p, i + 1, seen);
      }
    }
  }

  lemma {:induction false} EntriesJustified(g: Graph, root: nat, p: seq<nat>, j: nat, seen: set<nat>)
    requires WellFormed(g) && PathFrom(g, root, p) && seen <= Elements(p) && j <= |Slots(g[p[|p| - 1]])|
    ensures Justified(g, root, WalkEntries(g, p[|p| - 1], j, seen))
    decreases g.Keys - seen, 1, |Slots(g[p[|p| - 1]])| - j
  {
    var list := p[|p| - 1];
    if j < |Slots(g[list])| {
      var v := Slots(g[list])[j];
      if v.Ref? {
        PathSnoc(g, root, p, v.id);
        var q := p + [v.id];
        assert q[..|q| - 1] == p;
        WalkJustified(g, root, q, seen);
      }
      EntriesJustified(g, root, p, j + 1, seen);
    }
  }

  lemma AcceptedIffUnflawed(g: Graph, v: Value)
    requires WellFormed(g) && Within(g, v)
    ensures AssertSafe(g, v).Accepted? <==>
              v.Ref? && g[v.id].Object? && !CycleOnPath(g, v.id) && !UncleanReached(g, v.id)
    ensures v.Ref? && g[v.id].Object? ==> Justified(g, v.id, AssertSafe(g, v))
  {
    if v.Ref? && g[v.id].Object? {
      assert PathFrom(g, v.id, [v.id]);
      WalkJustified(g, v.id, [v.id], {});
      if Walk(g, v.id, {}).Accepted? {
        AcceptedIsSafe(g, v.id);
      }
    }
  }

  // ---- What that means for the graph ----

  predicate SegmentAt(segment: string, key: string, i: nat, j: nat) {
    && i <= j <= |key| && key[i..j] == segment && '.' !in segment
    && (i == 0 || key[i - 1] == '.') && (j == |key| || key[j] == '.')
  }

  /** `segment` is a whole part of `key` between dots or ends. */
  ghost predicate SegmentOf(segment: string, key: string) {
    exists i: nat, j: nat :: SegmentAt(segment, key, i, j)
  }

  lemma SegmentStartsAt(key: string, j: nat, j': nat, s: string, s': string)
    requires SegmentAt(s, key, 0, j) && SegmentAt(s', key, 0, j')
    ensures j == j' && s == s'
  {
    assert forall k :: 0 <= k < j ==> s[k] == key[k] && key[k] != '.';
    assert forall k :: 0 <= k < j' ==> s'[k] == key[k] && key[k] != '.';
  }

  /** Past the first dot the segments are those of the rest. */
  lemma SegmentsAfterDot(segment: string, key: string, k: nat)
    requires k < |key| && key[k] == '.' && '.' !in key[..k]
    ensures SegmentOf(segment, key) <==> segment == key[..k] || SegmentOf(segment, key[k + 1..])
  {
    var rest := key[k + 1..];
    assert SegmentAt(key[..k], key, 0, k);
    assert forall i :: 0 <= i < k ==> key[..k][i] == key[i] && key[i] != '.';
    if i: nat, j: nat :| SegmentAt(segment, key, i, j) {
      if i == 0 {
        SegmentStartsAt(key, j, k, segment, key[..k]);
      } else {
        assert i > k;
        assert rest[i - (k + 1)..j - (k + 1)] == key[i..j];
        assert SegmentAt(segment, rest, i - (k + 1), j - (k + 1));
      }
    }
    if i: nat, j: nat :| SegmentAt(segment, rest, i, j) {
      assert key[i + k + 1..j + k + 1] == rest[i..j];
      assert SegmentAt(segment, key, i + k + 1, j + k + 1);
    }
  }

  lemma OnlySegment(segment: string, key: string)
    requires '.' !in key
    ensures SegmentOf(segment, key) <==> segment == key
  {
    assert SegmentAt(key, key, 0, |key|) by {
      assert key[0..|key|] == key;
    }
    assert forall i :: 0 <= i < |key| ==> key[i] in key && key[i] != '.';
  }

  lemma {:induction false} SplitFrom(head: string, key: string, segment: string)
    requires '.' !in head
    ensures segment in Split(head, key) <==> SegmentOf(segment, head + key)
    decreases |key|
  {
    if key == "" {
      assert head + key == head;
      OnlySegment(segment, head);
    } else if key[0] == '.' {
      var k := |head|;
      assert (head + key)[..k] == head && (head + key)[k + 1..] == key[1..];
      assert "" + key[1..] == key[1..];
      SplitFrom("", key[1..], segment);
      SegmentsAfterDot(segment, head + key, k);
    } else {
      assert (head + [key[0]]) + key[1..] == head + key;
      SplitFrom(head + [key[0]], key[1..], segment);
    }
  }

  /** Splitting at the dots gives exactly the segments. */
  lemma SplitMeaning(key: string, segment: string)
    ensures segment in Split("", key) <==> SegmentOf(segment, key)
  {
    assert "" + key == key;
    SplitFrom("", key, segment);
  }

  /** Field `i` of an object has a forbidden segment in its key. */
  ghost predicate ForbiddenField(node: Node, i: nat) {
    && node.Object? && i < |node.fields|
    && exists segment <-
         {"_id", "uuid", "parent", "pack", "apps", "collection", "__proto__", "prototype", "constructor"} ::
         SegmentOf(segment, node.fields[i].key)
  }

  ghost predicate ForbiddenReachable(g: Graph, root: nat) {
    exists n, i: nat :: n in g && Leads(g, root, n) && ForbiddenField(g[n], i)
  }

  /** Some trail from the root meets a node twice. */
  ghost predicate CycleReachable(g: Graph, root: nat) {
    exists p: seq<nat> :: Trail(g, p) && p[0] == root && !Distinct(p)
  }

  lemma ForbiddenFieldIsDisallowed(node: Node, i: nat)
    requires i < |Slots(node)|
    ensures ForbiddenField(node, i) <==> !SlotAllowed(node, i)
  {
    if node.Object? {
      var key := node.fields[i].key;
      forall segment ensures segment in Split("", key) <==> SegmentOf(segment, key) {
        SplitMeaning(key, segment);
      }
    }
  }

  lemma ReachableFlaws(g: Graph, root: nat)
    ensures CycleReachable(g, root) <==> CycleOnPath(g, root)
    ensures ForbiddenReachable(g, root) <==> UncleanReached(g, root)
  {
    forall p ensures Trail(g, p) <==> IsPath(AllEdges(g), p) {
      TrailsArePaths(g, p);
    }
    if p: seq<nat> :| Trail(g, p) && p[0] == root && !Distinct(p) {
      assert PathFrom(g, root, p);
    }
    if p: seq<nat> :| PathFrom(g, root, p) && !Distinct(p) {
      assert Trail(g, p);
    }
    if n, i: nat :| n in g && Leads(g, root, n) && ForbiddenField(g[n], i) {
      LeadsIsReaches(g, root, n);
      ForbiddenFieldIsDisallowed(g[n], i);
    }
    if n :| n in g && !Clean(g[n]) && Reaches(AllEdges(g), root, n) {
      LeadsIsReaches(g, root, n);
      var i: nat :| i < |Slots(g[n])| && !SlotAllowed(g[n], i);
      ForbiddenFieldIsDisallowed(g[n], i);
    }
  }

  /** On any finite graph, an object is accepted exactly when no trail from it meets a node twice and no field
      reachable from it has a forbidden segment, however much its parts are shared; and the error reported for a
      refusal names a defect that is there. */
  lemma AcceptedIffSafe(g: Graph, v: Value)
    requires WellFormed(g) && Within(g, v)
    ensures AssertSafe(g, v).Accepted? <==>
              v.Ref? && g[v.id].Object? && !CycleReachable(g, v.id) && !ForbiddenReachable(g, v.id)
    ensures AssertSafe(g, v).NotAnObject? <==> v.Primitive? || g[v.id].Array?
    ensures AssertSafe(g, v).Cyclic? ==> CycleReachable(g, v.id)
    ensures AssertSafe(g, v).Forbidden? ==> ForbiddenReachable(g, v.id)
  {
    AcceptedIffUnflawed(g, v);
    if v.Ref? {
      ReachableFlaws(g, v.id);
    }
  }

  // ---- The walk as the program runs it ----

  class Walker {
    const graph: Graph
    var seen: set<nat>

    constructor (graph: Graph)
      ensures this.graph == graph && seen == {}
    {
      this.graph, seen := graph, {};
    }

    /** `seen` is path-scoped: a walk that does not throw gives it back unchanged. */
    method Visit(value: nat) returns (verdict: Verdict)
      requires WellFormed(graph) && value in graph
      modifies this
      ensures verdict == Walk(graph, value, old(seen))
      ensures verdict.Accepted? ==> seen == old(seen)
      decreases graph.Keys - seen, 0
    {
      if value in seen {
        return Cyclic;
      }
      seen := seen + {value};
      var slots := Slots(graph[value]);
      for i := 0 to |slots|
        invariant seen == old(seen) + {value}
        invariant WalkSlots(graph, value, i, seen) == WalkSlots(graph, value, 0, seen)
      {
        if !SlotAllowed(graph[value], i) {
          return Forbidden;
        }
        var child := slots[i];
        if child.Ref? {
          var v: Verdict;
          if graph[child.id].Array? {
            v := VisitEntries(child.id);
          } else {
            v := Visit(child.id);
          }
          if !v.Accepted? {
            return v;
          }
        }
      }
      seen := seen - {value};
      return Accepted;
    }

    method VisitEntries(list: nat) returns (verdict: Verdict)
      requires WellFormed(graph) && list in graph
      modifies this
      ensures verdict == WalkEntries(graph, list, 0, old(seen))
      ensures verdict.Accepted? ==> seen == old(seen)
      decreases graph.Keys - seen, 1
    {
      var entries := Slots(graph[list]);
      for j := 0 to |entries|
        invariant seen == old(seen)
        invariant WalkEntries(graph, list, j, seen) == WalkEntries(graph, list, 0, seen)
      {
        if entries[j].Ref? {
          var v := Visit(entries[j].id);
          if !v.Accepted? {
            return v;
          }
        }
      }
      return Accepted;
    }
  }
}
