// Do the safety checks agree? A value that is a tree, seen by all of them.
module SafetyAgreement {
  import opened Common
  import opened ObjectGraph
  import opened JsonTree
  import SafeJson
  import SafeData

  /** The graph value `v` is the tree `j`, node by node. */
  ghost predicate Represents(g: Graph, v: Value, j: Json)
    decreases j
  {
    match j
    case Leaf => v.Primitive?
    case List(items) =>
      && v.Ref? && v.id in g && g[v.id].Array? && |g[v.id].entries| == |items|
      && forall i: nat | i < |items| :: Represents(g, g[v.id].entries[i], items[i])
    case Dict(members) =>
      && v.Ref? && v.id in g && g[v.id].Object? && |g[v.id].fields| == |members|
      && forall i: nat | i < |members| ::
           g[v.id].fields[i].key == members[i].key && Represents(g, g[v.id].fields[i].value, members[i].value)
  }

  lemma RepresentsSlots(g: Graph, v: Value, j: Json)
    requires Represents(g, v, j)
    ensures Within(g, v) && (v.Primitive? ==> j == Leaf)
    ensures v.Ref? ==> |Slots(g[v.id])| == Arity(j) && (g[v.id].Object? <==> j.Dict?)
    ensures v.Ref? ==> forall i: nat | i < Arity(j) :: Represents(g, Slots(g[v.id])[i], Child(j, i))
    ensures j.Dict? ==> forall i: nat | i < Arity(j) :: g[v.id].fields[i].key == j.members[i].key
  {
  }

  predicate TreeSafe(j: Json) {
    && (forall i: nat | i < Arity(j) :: !DangerousKey(j, i))
    && (forall i: nat | i < Arity(j) :: TreeSafe(Child(j, i)))
  }

  predicate DepthAtMost(j: Json, max: int)
    decreases j
  {
    max >= 0 && forall i: nat | i < Arity(j) :: DepthAtMost(Child(j, i), max - 1)
  }

  predicate ChildrenSafe(j: Json, k: nat)
    requires k <= Arity(j)
  {
    forall i: nat | i < k :: TreeSafe(Child(j, i))
  }

  lemma {:induction false} SafeIffNothingFound(path: string, j: Json)
    ensures TreeSafe(j) <==> Find(path, j).None?
    decreases Size(j), 0
  {
    FirstDangerousIsOne(j, 0);
    if FirstDangerous(j, 0).None? {
      ChildrenSafeIffNothingFound(path, j, Arity(j));
      assert TreeSafe(j) <==> ChildrenSafe(j, Arity(j));
    }
  }

  lemma OneMoreChildSafe(j: Json, k: nat)
    requires 0 < k <= Arity(j)
    ensures ChildrenSafe(j, k) <==> ChildrenSafe(j, k - 1) && TreeSafe(Child(j, k - 1))
  {
  }

  lemma {:induction false} ChildrenSafeIffNothingFound(path: string, j: Json, k: nat)
    requires k <= Arity(j)
    ensures ChildrenSafe(j, k) <==> FindAll(Children(path, j, k)).None?
    decreases SizeUpTo(j, k), k
  {
    if k > 0 {
      var init, last := Children(path, j, k - 1), Pending(path + Label(j, k - 1), Child(j, k - 1));
      assert Children(path, j, k) == init + [last];
      FindAllSnoc(init, last);
      SafeIffNothingFound(last.path, last.value);
      ChildrenSafeIffNothingFound(path, j, k - 1);
      OneMoreChildSafe(j, k);
    }
  }

  lemma {:induction false} PassedTree(g: Graph, v: Value, j: Json, depth: nat, max: nat, seen: set<nat>)
    requires WellFormed(g) && Represents(g, v, j) && depth <= max + 1 && SafeJson.Visit(g, v, depth, max, seen).Passed?
    ensures TreeSafe(j) && DepthAtMost(j, max - depth)
    decreases j
  {
    forall i: nat | i < Arity(j) ensures !DangerousKey(j, i) && TreeSafe(Child(j, i))
           && DepthAtMost(Child(j, i), max - depth - 1) {
      var before := SafeJson.PassedSlot(g, v.id, 0, depth, max, seen + {v.id}, i);
      assert SafeJson.SlotSafe(g[v.id], i);
      PassedTree(g, Slots(g[v.id])[i], Child(j, i), depth + 1, max, before);
    }
  }

  predicate NodeSafe(node: Node) {
    forall i: nat | i < |Slots(node)| :: SafeJson.SlotSafe(node, i)
  }

  /** What holds of the tree holds along every path of the graph it represents. */
  lemma {:induction false} TreeAlongPath(g: Graph, p: seq<nat>, j: Json, max: int)
    requires WellFormed(g) && IsPath(AllEdges(g), p) && Represents(g, Ref(p[0]), j) && TreeSafe(j)
             && DepthAtMost(j, max)
    ensures NodeSafe(g[p[|p| - 1]])
    ensures |p| - 1 <= max && (Slots(g[p[|p| - 1]]) != [] ==> |p| <= max)
    decreases |p|
  {
    var n := p[0];
    RepresentsSlots(g, Ref(n), j);
    if |p| == 1 {
      forall i: nat | i < |Slots(g[n])| ensures SafeJson.SlotSafe(g[n], i) && max >= 1 {
        assert !DangerousKey(j, i) && DepthAtMost(Child(j, i), max - 1);
      }
      assert Slots(g[n]) != [] ==> SafeJson.SlotSafe(g[n], 0);
    } else {
      PathTail(AllEdges(g), p);
      var k: nat :| k < |Slots(g[n])| && Slots(g[n])[k] == Ref(p[1]);
      TreeAlongPath(g, p[1..], Child(j, k), max - 1);
    }
  }

  lemma TreeIsAcceptable(g: Graph, v: Value, j: Json, max: nat)
    requires WellFormed(g) && v.Ref? && Represents(g, v, j) && TreeSafe(j) && DepthAtMost(j, max)
    ensures SafeJson.KeysSafe(g, v.id) && SafeJson.DepthWithin(g, v.id, max)
  {
    forall n: nat, i: nat | SafeJson.ValidSlot(g, n, i) && SafeJson.From(g, v.id, n)
           ensures SafeJson.SlotSafe(g[n], i) {
      var p :| PathBetween(AllEdges(g), p, v.id, n);
      TreeAlongPath(g, p, j, max);
    }
    forall p | IsPath(AllEdges(g), p) && p[0] == v.id ensures SafeJson.Shallow(g, p, max) {
      TreeAlongPath(g, p, j, max);
    }
  }

  /** On a value that is a tree, the server's JSON check passes exactly when the protocol's search reports nothing
      and no value lies deeper than the limit. */
  lemma ChecksAgree(g: Graph, v: Value, j: Json, max: nat)
    requires WellFormed(g) && Represents(g, v, j) && (v.Ref? ==> SafeJson.IsTree(g, v.id))
    ensures SafeJson.AssertSafeJson(g, v, max).Passed? <==> Find("$", j).None? && DepthAtMost(j, max)
  {
    SafeIffNothingFound("$", j);
    RepresentsSlots(g, v, j);
    if v.Ref? {
      SafeJson.TreeShapedIsTree(g, v.id);
    }
    if SafeJson.AssertSafeJson(g, v, max).Passed? {
      PassedTree(g, v, j, 0, max, {});
    }
    if TreeSafe(j) && DepthAtMost(j, max) {
      if v.Ref? {
        TreeIsAcceptable(g, v, j, max);
      }
      SafeJson.VerdictIsJustified(g, v, max);
    }
  }

  lemma {:induction false} UnsplitKey(head: string, key: string)
    requires '.' !in key
    ensures SafeData.Split(head, key) == [head + key]
    decreases |key|
  {
    if key != "" {
      assert key[0] in key;
      assert '.' !in key[1..];
      UnsplitKey(head + [key[0]], key[1..]);
      assert head + [key[0]] + key[1..] == head + key;
    } else {
      assert head + key == head;
    }
  }

  lemma DangerousIsForbidden(key: string)
    requires key in DANGEROUS
    ensures SafeData.ForbiddenKey(key)
  {
    UnsplitKey("", key);
    assert "" + key == key;
    assert SafeData.Split("", key)[0] == key;
  }

  lemma {:induction false} SafeDataTree(g: Graph, root: nat, n: nat, j: Json)
    requires WellFormed(g) && Represents(g, Ref(n), j) && Reaches(AllEdges(g), root, n)
             && !SafeData.UncleanReached(g, root)
    ensures TreeSafe(j)
    decreases j
  {
    assert SafeData.Clean(g[n]);
    forall i: nat | i < Arity(j) ensures !DangerousKey(j, i) && TreeSafe(Child(j, i)) {
      assert SafeData.SlotAllowed(g[n], i);
      if DangerousKey(j, i) {
        DangerousIsForbidden(j.members[i].key);
      }
      var v := Slots(g[n])[i];
      assert Represents(g, v, Child(j, i));
      if v.Ref? {
        assert Arrow(AllEdges(g), n, v.id);
        ReachesThenArrow(AllEdges(g), root, n, v.id);
        SafeDataTree(g, root, v.id, Child(j, i));
      }
    }
  }

  /** What the browser's document check accepts, the protocol's search finds nothing wrong with. */
  lemma AcceptedDataHasNoDangerousKey(g: Graph, v: Value, j: Json)
    requires WellFormed(g) && Represents(g, v, j) && SafeData.AssertSafe(g, v).Accepted?
    ensures Find("$", j).None?
  {
    SafeData.AcceptedIffUnflawed(g, v);
    ReachesSelf(AllEdges(g), v.id);
    SafeDataTree(g, v.id, v.id, j);
    SafeIffNothingFound("$", j);
  }

  lemma PathsAreShort(g: Graph, root: nat, max: nat, p: seq<nat>)
    requires SafeJson.DepthWithin(g, root, max) && SafeData.PathFrom(g, root, p)
    ensures |p| <= max + 1
  {
  }

  /** What the server's JSON check passes, the browser's document check never calls cyclic. */
  lemma PassedJsonIsNotCyclic(g: Graph, v: Value, max: nat)
    requires WellFormed(g) && Within(g, v) && SafeJson.AssertSafeJson(g, v, max).Passed?
    ensures !SafeData.AssertSafe(g, v).Cyclic?
  {
    SafeJson.VerdictIsJustified(g, v, max);
    SafeData.AcceptedIffUnflawed(g, v);
    if SafeData.AssertSafe(g, v).Cyclic? {
      var p: seq<nat> :| SafeData.PathFrom(g, v.id, p) && !Distinct(p);
      var i: nat, j: nat :| i < j < |p| && p[i] == p[j];
      var q := SafeData.RepeatingPathGrows(AllEdges(g), p, i, j, max + 2);
      PathsAreShort(g, v.id, max, q);
      assert false;
    }
  }
}
