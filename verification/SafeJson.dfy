// The check of JSON payloads at the server: nesting limit, no shared or cyclic object, no unsafe key.
module SafeJson {
  import opened Common
  import opened ObjectGraph

  const BLOCKED_KEYS: set<string> := {"__proto__", "prototype", "constructor"}

  const MAX_DEPTH: nat := 40

  datatype Outcome = Passed(seen: set<nat>) | TooDeep | Repeated | UnsafeKey

  predicate SlotSafe(node: Node, i: nat) {
    node.Object? && i < |node.fields| ==> node.fields[i].key !in BLOCKED_KEYS
  }

  function Visit(g: Graph, v: Value, depth: nat, max: nat, seen: set<nat>): Outcome
    requires WellFormed(g) && Within(g, v) && depth <= max + 1
    decreases max + 1 - depth, 1, 0
  {
    if depth > max then TooDeep
    else if v.Primitive? then Passed(seen)
    else if v.id in seen then Repeated
    else VisitSlots(g, v.id, 0, depth, max, seen + {v.id})
  }

  function VisitSlots(g: Graph, n: nat, i: nat, depth: nat, max: nat, seen: set<nat>): Outcome
    requires WellFormed(g) && n in g && i <= |Slots(g[n])| && depth <= max
    decreases max + 1 - depth, 0, |Slots(g[n])| - i
  {
    if i == |Slots(g[n])| then Passed(seen)
    else if !SlotSafe(g[n], i) then UnsafeKey
    else
      var child := Visit(g, Slots(g[n])[i], depth + 1, max, seen);
      if child.Passed? then VisitSlots(g, n, i + 1, depth, max, child.seen) else child
  }

  function AssertSafeJson(g: Graph, v: Value, max: nat): Outcome
    requires WellFormed(g) && Within(g, v)
  {
    Visit(g, v, 0, max, {})
  }

  // ---- What the verdict should be ----

  predicate ValidSlot(g: Graph, n: nat, i: nat) {
    n in g && i < |Slots(g[n])|
  }

  function Target(g: Graph, n: nat, i: nat): Value
    requires ValidSlot(g, n, i)
  {
    Slots(g[n])[i]
  }

  ghost predicate From(g: Graph, root: nat, n: nat) {
    Reaches(AllEdges(g), root, n)
  }

  /** Below the root every object hangs in exactly one place, and the root in none. */
  ghost predicate TreeShaped(g: Graph, root: nat) {
    && (forall a: nat, i: nat, b: nat, j: nat
          | ValidSlot(g, a, i) && ValidSlot(g, b, j) && From(g, root, a) && From(g, root, b) ::
          Target(g, a, i).Ref? && Target(g, a, i) == Target(g, b, j) ==> a == b && i == j)
    && (forall a: nat, i: nat | ValidSlot(g, a, i) && From(g, root, a) :: Target(g, a, i) != Ref(root))
  }

  ghost predicate KeysSafe(g: Graph, root: nat) {
    forall n: nat, i: nat | ValidSlot(g, n, i) && From(g, root, n) :: SlotSafe(g[n], i)
  }

  /** The last value of a path of k nodes lies at depth k - 1, and the values in its slots one deeper. */
  ghost predicate Shallow(g: Graph, p: seq<nat>, max: nat)
    requires IsPath(AllEdges(g), p)
  {
    |p| - 1 <= max && (Slots(g[p[|p| - 1]]) != [] ==> |p| <= max)
  }

  ghost predicate DepthWithin(g: Graph, root: nat, max: nat) {
    forall p | IsPath(AllEdges(g), p) && p[0] == root :: Shallow(g, p, max)
  }

  ghost predicate Acceptable(g: Graph, v: Value, max: nat) {
    v.Ref? ==> TreeShaped(g, v.id) && KeysSafe(g, v.id) && DepthWithin(g, v.id, max)
  }

  // ---- A passed check proves the shape ----

  ghost predicate Rooted(vs: seq<Value>, nodes: set<nat>, target: Value) {
    target.Ref? ==> target.id in nodes && target !in vs
  }

  /** `nodes` is a forest hanging from `vs`: closed, every slot with its own target, nothing pointing back at `vs`. */
  ghost predicate Forest(g: Graph, vs: seq<Value>, nodes: set<nat>) {
    && nodes <= g.Keys
    && (forall k: nat | k < |vs| && vs[k].Ref? :: vs[k].id in nodes)
    && (forall k: nat, l: nat | k < l < |vs| && vs[k].Ref? :: vs[k] != vs[l])
    && (forall a: nat, i: nat | a in nodes && ValidSlot(g, a, i) ::
         SlotSafe(g[a], i) && Rooted(vs, nodes, Target(g, a, i)))
    && (forall a: nat, i: nat, b: nat, j: nat | a in nodes && b in nodes && ValidSlot(g, a, i) && ValidSlot(g, b, j) ::
          Target(g, a, i).Ref? && Target(g, a, i) == Target(g, b, j) ==> a == b && i == j)
  }

  lemma ForestCons(g: Graph, v: Value, vs: seq<Value>, a: set<nat>, b: set<nat>)
    requires Forest(g, [v], a) && Forest(g, vs, b) && a !! b
    ensures Forest(g, [v] + vs, a + b)
  {
  }

  lemma ForestRoot(g: Graph, n: nat, nodes: set<nat>)
    requires n in g && Forest(g, Slots(g[n]), nodes) && n !in nodes
    requires forall i: nat | ValidSlot(g, n, i) :: SlotSafe(g[n], i)
    ensures Forest(g, [Ref(n)], nodes + {n})
  {
  }

  lemma {:induction false} PassedIsForest(g: Graph, v: Value, depth: nat, max: nat, seen: set<nat>)
    requires WellFormed(g) && Within(g, v) && depth <= max + 1 && Visit(g, v, depth, max, seen).Passed?
    ensures var after := Visit(g, v, depth, max, seen).seen;
            seen <= after && Forest(g, [v], after - seen)
    decreases max + 1 - depth, 1, 0
  {
    if v.Ref? {
      var after := Visit(g, v, depth, max, seen).seen;
      PassedSlotsAreForest(g, v.id, 0, depth, max, seen + {v.id});
      var nodes := after - (seen + {v.id});
      assert Slots(g[v.id])[0..] == Slots(g[v.id]);
      ForestRoot(g, v.id, nodes);
      assert after - seen == nodes + {v.id};
    }
  }

  lemma {:induction false} PassedSlotsAreForest(g: Graph, n: nat, i: nat, depth: nat, max: nat, seen: set<nat>)
    requires WellFormed(g) && n in g && i <= |Slots(g[n])| && depth <= max
             && VisitSlots(g, n, i, depth, max, seen).Passed?
    ensures var after := VisitSlots(g, n, i, depth, max, seen).seen;
            seen <= after && Forest(g, Slots(g[n])[i..], after - seen)
    ensures forall k: nat | i <= k && ValidSlot(g, n, k) :: SlotSafe(g[n], k)
    decreases max + 1 - depth, 0, |Slots(g[n])| - i
  {
    if i < |Slots(g[n])| {
      var v := Slots(g[n])[i];
      var mid := Visit(g, v, depth + 1, max, seen).seen;
      var after := VisitSlots(g, n, i + 1, depth, max, mid).seen;
      PassedIsForest(g, v, depth + 1, max, seen);
      PassedSlotsAreForest(g, n, i + 1, depth, max, mid);
      ForestCons(g, v, Slots(g[n])[i + 1..], mid - seen, after - mid);
      assert Slots(g[n])[i..] == [v] + Slots(g[n])[i + 1..];
      assert after - seen == (mid - seen) + (after - mid);
    }
  }

  lemma {:induction false} PassedSlot(g: Graph, n: nat, i: nat, depth: nat, max: nat, seen: set<nat>, k: nat)
    returns (before: set<nat>)
    requires WellFormed(g) && n in g && i <= k < |Slots(g[n])| && depth <= max
             && VisitSlots(g, n, i, depth, max, seen).Passed?
    ensures SlotSafe(g[n], k) && Visit(g, Slots(g[n])[k], depth + 1, max, before).Passed?
    decreases k - i
  {
    if i == k {
      return seen;
    }
    before := PassedSlot(g, n, i + 1, depth, max, Visit(g, Slots(g[n])[i], depth + 1, max, seen).seen, k);
  }

  lemma {:induction false} PassedIsShallow(g: Graph, p: seq<nat>, depth: nat, max: nat, seen: set<nat>)
    requires WellFormed(g) && IsPath(AllEdges(g), p) && depth <= max + 1
             && Visit(g, Ref(p[0]), depth, max, seen).Passed?
    ensures depth + |p| - 1 <= max && (Slots(g[p[|p| - 1]]) != [] ==> depth + |p| <= max)
    decreases |p|
  {
    var n := p[0];
    if |p| == 1 {
      if Slots(g[n]) != [] {
        var before := PassedSlot(g, n, 0, depth, max, seen + {n}, 0);
      }
    } else {
      PathTail(AllEdges(g), p);
      var k: nat :| k < |Slots(g[n])| && Slots(g[n])[k] == Ref(p[1]);
      var before := PassedSlot(g, n, 0, depth, max, seen + {n}, k);
      PassedIsShallow(g, p[1..], depth + 1, max, before);
    }
  }

  lemma PassedIsAcceptable(g: Graph, v: Value, max: nat)
    requires WellFormed(g) && Within(g, v) && AssertSafeJson(g, v, max).Passed?
    ensures Acceptable(g, v, max)
  {
    if v.Ref? {
      var nodes := AssertSafeJson(g, v, max).seen;
      PassedIsForest(g, v, 0, max, {});
      assert nodes - {} == nodes;
      assert Forest(g, [v], nodes) && [v][0].id in nodes;
      forall n | From(g, v.id, n) ensures n in nodes {
        var p :| PathBetween(AllEdges(g), p, v.id, n);
        forall a, b | a in nodes && Arrow(AllEdges(g), a, b) ensures b in nodes {
          var i: nat :| i < |Slots(g[a])| && Slots(g[a])[i] == Ref(b);
          assert ValidSlot(g, a, i) && Rooted([v], nodes, Target(g, a, i));
        }
        ClosedSetHoldsPath(AllEdges(g), nodes, p);
      }
      forall a: nat, i: nat | ValidSlot(g, a, i) && From(g, v.id, a) ensures Target(g, a, i) != Ref(v.id) {
        assert Rooted([v], nodes, Target(g, a, i));
        assert v in [v];
      }
      forall p | IsPath(AllEdges(g), p) && p[0] == v.id ensures Shallow(g, p, max) {
        PassedIsShallow(g, p, 0, max, {});
      }
    }
  }

  // ---- A refusal has its reason ----

  datatype Slot = Slot(node: nat, index: nat)

  ghost predicate SlotTo(g: Graph, root: nat, s: Slot, m: nat) {
    ValidSlot(g, s.node, s.index) && From(g, root, s.node) && Target(g, s.node, s.index) == Ref(m)
  }

  /** Everything seen is the root or the target of a slot already visited. */
  ghost predicate SeenThrough(g: Graph, root: nat, seen: set<nat>, visited: set<Slot>) {
    && (forall m <- seen :: m == root || exists s :: s in visited && SlotTo(g, root, s, m))
    && (forall s <- visited :: s.node in seen)
  }

  lemma NotYetSeen(g: Graph, root: nat, seen: set<nat>, visited: set<Slot>, s: Slot, m: nat)
    requires TreeShaped(g, root) && SeenThrough(g, root, seen, visited) && SlotTo(g, root, s, m) && s !in visited
    ensures m !in seen
  {
  }

  /** The walk stands at the end of path `p`, with `visited` the slots already taken. */
  ghost predicate Walking(g: Graph, p: seq<nat>, i: nat, max: nat, seen: set<nat>, visited: set<Slot>) {
    && IsPath(AllEdges(g), p)
    && p[|p| - 1] in g && i <= |Slots(g[p[|p| - 1]])| && |p| - 1 <= max && p[|p| - 1] in seen
    && SeenThrough(g, p[0], seen, visited)
    && forall s <- visited :: s.node == p[|p| - 1] ==> s.index < i
  }

  /** What was visited since belongs to nodes that were new, or to the node at hand. */
  ghost predicate OnlyBelow(seen: set<nat>, n: nat, visited: set<Slot>, visited': set<Slot>) {
    forall s <- visited' :: s.node in seen && s.node != n ==> s in visited
  }

  /** A slot whose value passes leaves the rest of the slots to be visited. */
  lemma NextSlot(g: Graph, n: nat, i: nat, depth: nat, max: nat, seen: set<nat>)
    requires WellFormed(g) && n in g && i < |Slots(g[n])| && depth <= max && SlotSafe(g[n], i)
    requires Visit(g, Slots(g[n])[i], depth + 1, max, seen).Passed?
    ensures VisitSlots(g, n, i, depth, max, seen)
         == VisitSlots(g, n, i + 1, depth, max, Visit(g, Slots(g[n])[i], depth + 1, max, seen).seen)
  {
  }

  lemma OnlyBelowInTurn(seen: set<nat>, mid: set<nat>, n: nat, a: set<Slot>, b: set<Slot>, c: set<Slot>)
    requires seen <= mid && OnlyBelow(seen, n, a, b) && OnlyBelow(mid, n, b, c)
    ensures OnlyBelow(seen, n, a, c)
  {
  }

  lemma PathDown(g: Graph, p: seq<nat>, i: nat)
    requires WellFormed(g) && IsPath(AllEdges(g), p)
    requires i < |Slots(g[p[|p| - 1]])| && Slots(g[p[|p| - 1]])[i].Ref?
    ensures IsPath(AllEdges(g), p + [Slots(g[p[|p| - 1]])[i].id])
  {
  }

  lemma SeenThroughNext(g: Graph, root: nat, seen: set<nat>, visited: set<Slot>, s: Slot, m: nat)
    requires SeenThrough(g, root, seen, visited) && SlotTo(g, root, s, m) && s.node in seen
    ensures SeenThrough(g, root, seen + {m}, visited + {s})
  {
    forall x <- seen + {m} | x != root ensures exists t :: t in visited + {s} && SlotTo(g, root, t, x) {
      if x in seen {
        var t :| t in visited && SlotTo(g, root, t, x);
        assert t in visited + {s};
      } else {
        assert s in visited + {s};
      }
    }
  }

  lemma WalkingIsFrom(g: Graph, p: seq<nat>, i: nat, max: nat, seen: set<nat>, visited: set<Slot>)
    requires Walking(g, p, i, max, seen, visited)
    ensures From(g, p[0], p[|p| - 1])
  {
    assert PathBetween(AllEdges(g), p, p[0], p[|p| - 1]);
  }

  /** Going down into a slot whose target was not yet seen. */
  lemma StepDown(g: Graph, p: seq<nat>, i: nat, max: nat, seen: set<nat>, visited: set<Slot>)
    requires WellFormed(g) && Walking(g, p, i, max, seen, visited) && |p| <= max
    requires i < |Slots(g[p[|p| - 1]])| && Slots(g[p[|p| - 1]])[i].Ref?
    ensures var m := Slots(g[p[|p| - 1]])[i].id;
            Walking(g, p + [m], 0, max, seen + {m}, visited + {Slot(p[|p| - 1], i)}) || m in seen
  {
    var n := p[|p| - 1];
    var m := Slots(g[n])[i].id;
    var s := Slot(n, i);
    WalkingIsFrom(g, p, i, max, seen, visited);
    assert SlotTo(g, p[0], s, m);
    SeenThroughNext(g, p[0], seen, visited, s, m);
    PathDown(g, p, i);
  }

  /** Coming back, the walk can take the next slot. */
  lemma StepBack(g: Graph, p: seq<nat>, i: nat, max: nat, seen: set<nat>, visited: set<Slot>, m: nat,
      visited': set<Slot>, after: set<nat>)
    requires Walking(g, p, i, max, seen, visited) && i < |Slots(g[p[|p| - 1]])| && m !in seen
    requires seen + {m} <= after && SeenThrough(g, p[0], after, visited')
    requires OnlyBelow(seen + {m}, m, visited + {Slot(p[|p| - 1], i)}, visited')
    ensures Walking(g, p, i + 1, max, after, visited') && OnlyBelow(seen, p[|p| - 1], visited, visited')
  {
  }

  /** The verdict names a defect of what hangs from `root`, if any. */
  ghost predicate Justified(g: Graph, root: nat, max: nat, r: Outcome) {
    && (r.TooDeep? ==> !DepthWithin(g, root, max))
    && (r.Repeated? ==> !TreeShaped(g, root))
    && (r.UnsafeKey? ==> !KeysSafe(g, root))
  }

  lemma TooDeepIsJustified(g: Graph, p: seq<nat>, i: nat, max: nat, seen: set<nat>, visited: set<Slot>)
    requires Walking(g, p, i, max, seen, visited) && i < |Slots(g[p[|p| - 1]])| && |p| > max
    ensures !DepthWithin(g, p[0], max)
  {
    assert !Shallow(g, p, max);
  }

  lemma RepeatIsJustified(g: Graph, p: seq<nat>, i: nat, max: nat, seen: set<nat>, visited: set<Slot>)
    requires Walking(g, p, i, max, seen, visited) && i < |Slots(g[p[|p| - 1]])|
    requires Slots(g[p[|p| - 1]])[i].Ref? && Slots(g[p[|p| - 1]])[i].id in seen
    ensures !TreeShaped(g, p[0])
  {
    var n := p[|p| - 1];
    WalkingIsFrom(g, p, i, max, seen, visited);
    assert SlotTo(g, p[0], Slot(n, i), Slots(g[n])[i].id);
    if TreeShaped(g, p[0]) {
      NotYetSeen(g, p[0], seen, visited, Slot(n, i), Slots(g[n])[i].id);
    }
  }

  lemma UnsafeIsJustified(g: Graph, p: seq<nat>, i: nat, max: nat, seen: set<nat>, visited: set<Slot>)
    requires Walking(g, p, i, max, seen, visited) && i < |Slots(g[p[|p| - 1]])| && !SlotSafe(g[p[|p| - 1]], i)
    ensures !KeysSafe(g, p[0])
  {
    WalkingIsFrom(g, p, i, max, seen, visited);
    assert ValidSlot(g, p[|p| - 1], i);
  }

  /** The verdict is justified, and after a passed slot everything seen is accounted for. */
  ghost predicate Settles(g: Graph, p: seq<nat>, max: nat, seen: set<nat>, visited: set<Slot>, r: Outcome,
      visited': set<Slot>)
    requires p != []
  {
    && Justified(g, p[0], max, r)
    && (r.Passed? ==> seen <= r.seen && SeenThrough(g, p[0], r.seen, visited')
                      && OnlyBelow(seen, p[|p| - 1], visited, visited'))
  }

  lemma SettlesInTurn(g: Graph, p: seq<nat>, max: nat, seen: set<nat>, mid: set<nat>, a: set<Slot>, b: set<Slot>,
      c: set<Slot>, r: Outcome)
    requires p != [] && seen <= mid && OnlyBelow(seen, p[|p| - 1], a, b) && Settles(g, p, max, mid, b, r, c)
    ensures Settles(g, p, max, seen, a, r, c)
  {
    if r.Passed? {
      OnlyBelowInTurn(seen, mid, p[|p| - 1], a, b, c);
    }
  }

  /** A slot whose value does not pass decides the verdict. */
  lemma FailedSlot(g: Graph, n: nat, i: nat, depth: nat, max: nat, seen: set<nat>)
    requires WellFormed(g) && n in g && i < |Slots(g[n])| && depth <= max && SlotSafe(g[n], i)
    requires !Visit(g, Slots(g[n])[i], depth + 1, max, seen).Passed?
    ensures VisitSlots(g, n, i, depth, max, seen) == Visit(g, Slots(g[n])[i], depth + 1, max, seen)
  {
  }

  lemma {:induction false} SlotsVerdict(g: Graph, p: seq<nat>, i: nat, max: nat, seen: set<nat>,
      visited: set<Slot>) returns (visited': set<Slot>)
    requires WellFormed(g) && Walking(g, p, i, max, seen, visited)
    ensures Settles(g, p, max, seen, visited, VisitSlots(g, p[|p| - 1], i, |p| - 1, max, seen), visited')
    decreases max + 1 - |p|, 1, |Slots(g[p[|p| - 1]])| - i, 1
  {
    var n := p[|p| - 1];
    visited' := visited;
    if i < |Slots(g[n])| {
      if SlotSafe(g[n], i) {
        visited' := SafeSlotVerdict(g, p, i, max, seen, visited);
      } else {
        UnsafeIsJustified(g, p, i, max, seen, visited);
      }
    }
  }

  lemma {:induction false} SafeSlotVerdict(g: Graph, p: seq<nat>, i: nat, max: nat, seen: set<nat>,
      visited: set<Slot>) returns (visited': set<Slot>)
    requires WellFormed(g) && Walking(g, p, i, max, seen, visited)
    requires i < |Slots(g[p[|p| - 1]])| && SlotSafe(g[p[|p| - 1]], i)
    ensures Settles(g, p, max, seen, visited, VisitSlots(g, p[|p| - 1], i, |p| - 1, max, seen), visited')
    decreases max + 1 - |p|, 1, |Slots(g[p[|p| - 1]])| - i, 0
  {
    var n := p[|p| - 1];
    visited' := ChildVerdict(g, p, i, max, seen, visited);
    var child := Visit(g, Slots(g[n])[i], |p|, max, seen);
    if child.Passed? {
      var between := visited';
      visited' := SlotsVerdict(g, p, i + 1, max, child.seen, between);
      NextSlot(g, n, i, |p| - 1, max, seen);
      var r := VisitSlots(g, n, i, |p| - 1, max, seen);
      SettlesInTurn(g, p, max, seen, child.seen, visited, between, visited', r);
    } else {
      FailedSlot(g, n, i, |p| - 1, max, seen);
    }
  }

  lemma {:induction false} ChildVerdict(g: Graph, p: seq<nat>, i: nat, max: nat, seen: set<nat>,
      visited: set<Slot>) returns (visited': set<Slot>)
    requires WellFormed(g) && Walking(g, p, i, max, seen, visited) && i < |Slots(g[p[|p| - 1]])|
    ensures var r := Visit(g, Slots(g[p[|p| - 1]])[i], |p|, max, seen);
            && Justified(g, p[0], max, r)
            && (r.Passed? ==> seen <= r.seen && Walking(g, p, i + 1, max, r.seen, visited')
                              && OnlyBelow(seen, p[|p| - 1], visited, visited'))
    decreases max + 1 - |p|, 0, 0, 0
  {
    visited' := visited;
    var n := p[|p| - 1];
    var v := Slots(g[n])[i];
    if |p| > max {
      TooDeepIsJustified(g, p, i, max, seen, visited);
    } else if v.Ref? {
      if v.id in seen {
        RepeatIsJustified(g, p, i, max, seen, visited);
      } else {
        StepDown(g, p, i, max, seen, visited);
        visited' := SlotsVerdict(g, p + [v.id], 0, max, seen + {v.id}, visited + {Slot(n, i)});
        assert (p + [v.id])[0] == p[0];
        var r := VisitSlots(g, v.id, 0, |p|, max, seen + {v.id});
        if r.Passed? {
          StepBack(g, p, i, max, seen, visited, v.id, visited', r.seen);
        }
      }
    }
  }

  lemma VerdictIsJustified(g: Graph, v: Value, max: nat)
    requires WellFormed(g) && Within(g, v)
    ensures AssertSafeJson(g, v, max).Passed? <==> Acceptable(g, v, max)
    ensures v.Ref? ==> Justified(g, v.id, max, AssertSafeJson(g, v, max))
  {
    if AssertSafeJson(g, v, max).Passed? {
      PassedIsAcceptable(g, v, max);
    }
    if v.Ref? {
      var visited := SlotsVerdict(g, [v.id], 0, max, {v.id}, {});
      assert {} + {v.id} == {v.id};
    }
  }

  // ---- What that means for the graph ----

  /** No object below the root stands in two places, and the root stands in none. */
  ghost predicate IsTree(g: Graph, root: nat) {
    && (forall a, i: nat, b, j: nat, m: nat | a in g && b in g && Leads(g, root, a) && Leads(g, root, b)
                                             && Part(g[a], i, Ref(m)) && Part(g[b], j, Ref(m)) :: a == b && i == j)
    && (forall a, i: nat | a in g && Leads(g, root, a) :: !Part(g[a], i, Ref(root)))
  }

  ghost predicate HasSafeKeys(g: Graph, root: nat) {
    forall n | n in g && Leads(g, root, n) && g[n].Object? ::
      forall field <- g[n].fields :: field.key !in {"__proto__", "prototype", "constructor"}
  }

  ghost predicate HasPart(node: Node) {
    exists i: nat, v: Value :: Part(node, i, v)
  }

  /** No value lies deeper than `max`, the root lying at depth 0. */
  ghost predicate IsShallow(g: Graph, root: nat, max: nat) {
    forall p | Trail(g, p) && p[0] == root ::
      |p| - 1 <= max && (HasPart(g[p[|p| - 1]]) ==> |p| <= max)
  }

  lemma TreeShapedIsTree(g: Graph, root: nat)
    ensures TreeShaped(g, root) <==> IsTree(g, root)
  {
    forall a ensures Leads(g, root, a) <==> From(g, root, a) {
      LeadsIsReaches(g, root, a);
    }
    forall a, i: nat, v | a in g ensures Part(g[a], i, v) <==> ValidSlot(g, a, i) && Target(g, a, i) == v {
      PartsAreSlots(g[a], i, v);
    }
    if IsTree(g, root) {
      forall a: nat, i: nat, b: nat, j: nat
        | ValidSlot(g, a, i) && ValidSlot(g, b, j) && From(g, root, a) && From(g, root, b)
          && Target(g, a, i).Ref? && Target(g, a, i) == Target(g, b, j)
        ensures a == b && i == j
      {
        assert Part(g[a], i, Ref(Target(g, a, i).id)) && Part(g[b], j, Ref(Target(g, a, i).id));
      }
      forall a: nat, i: nat | ValidSlot(g, a, i) && From(g, root, a) ensures Target(g, a, i) != Ref(root) {
        assert !Part(g[a], i, Ref(root));
      }
    }
  }

  lemma KeysSafeIsSafe(g: Graph, root: nat)
    ensures KeysSafe(g, root) <==> HasSafeKeys(g, root)
  {
    forall a ensures Leads(g, root, a) <==> From(g, root, a) {
      LeadsIsReaches(g, root, a);
    }
    if HasSafeKeys(g, root) {
      forall n: nat, i: nat | ValidSlot(g, n, i) && From(g, root, n) ensures SlotSafe(g[n], i) {
        if g[n].Object? {
          assert g[n].fields[i] in g[n].fields;
        }
      }
    }
    if KeysSafe(g, root) {
      forall n | n in g && Leads(g, root, n) && g[n].Object?, field <- g[n].fields
        ensures field.key !in {"__proto__", "prototype", "constructor"}
      {
        var i: nat :| i < |g[n].fields| && g[n].fields[i] == field;
        assert ValidSlot(g, n, i);
      }
    }
  }

  lemma DepthWithinIsShallow(g: Graph, root: nat, max: nat)
    ensures DepthWithin(g, root, max) <==> IsShallow(g, root, max)
  {
    forall p | p != [] ensures Trail(g, p) <==> IsPath(AllEdges(g), p) {
      TrailsArePaths(g, p);
    }
    forall n | n in g ensures Slots(g[n]) != [] <==> HasPart(g[n]) {
      if Slots(g[n]) != [] {
        PartsAreSlots(g[n], 0, Slots(g[n])[0]);
      }
      if i: nat, v: Value :| Part(g[n], i, v) {
        PartsAreSlots(g[n], i, v);
      }
    }
  }

  /** On any finite graph, the check passes exactly the values that are trees of bounded depth with safe keys, and the
      error reported for any other names a defect that is there. */
  lemma PassesIffTree(g: Graph, v: Value, max: nat)
    requires WellFormed(g) && Within(g, v)
    ensures AssertSafeJson(g, v, max).Passed? <==>
              (v.Ref? ==> IsTree(g, v.id) && HasSafeKeys(g, v.id) && IsShallow(g, v.id, max))
    ensures AssertSafeJson(g, v, max).TooDeep? ==> v.Ref? && !IsShallow(g, v.id, max)
    ensures AssertSafeJson(g, v, max).Repeated? ==> v.Ref? && !IsTree(g, v.id)
    ensures AssertSafeJson(g, v, max).UnsafeKey? ==> v.Ref? && !HasSafeKeys(g, v.id)
  {
    VerdictIsJustified(g, v, max);
    if v.Ref? {
      TreeShapedIsTree(g, v.id);
      KeysSafeIsSafe(g, v.id);
      DepthWithinIsShallow(g, v.id, max);
    }
  }

  // ---- The check as the program runs it ----

  class Checker {
    const graph: Graph
    const max: nat
    var seen: set<nat>

    constructor (graph: Graph, max: nat := MAX_DEPTH)
      ensures this.graph == graph && this.max == max && seen == {}
    {
      this.graph, this.max, seen := graph, max, {};
    }

    method Check(current: Value, depth: nat) returns (outcome: Outcome)
      requires WellFormed(graph) && Within(graph, current) && depth <= max + 1
      modifies this
      ensures outcome == Visit(graph, current, depth, max, old(seen))
      ensures outcome.Passed? ==> seen == outcome.seen
      decreases max + 1 - depth
    {
      if depth > max {
        return TooDeep;
      }
      if current.Primitive? {
        return Passed(seen);
      }
      if current.id in seen {
        return Repeated;
      }
      seen := seen + {current.id};
      ghost var start := seen;
      var slots := Slots(graph[current.id]);
      for i := 0 to |slots|
        invariant VisitSlots(graph, current.id, i, depth, max, seen)
                  == VisitSlots(graph, current.id, 0, depth, max, start)
      {
        if !SlotSafe(graph[current.id], i) {
          return UnsafeKey;
        }
        var child := Check(slots[i], depth + 1);
        if !child.Passed? {
          return child;
        }
      }
      return Passed(seen);
    }
  }
}
