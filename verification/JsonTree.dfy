// The search for dangerous keys in JSON trees, kept on an explicit stack.
module JsonTree {
  import opened Common
  import opened Text

  const DANGEROUS: set<string> := {"__proto__", "prototype", "constructor"}

  datatype Json = Leaf | List(items: seq<Json>) | Dict(members: seq<Member>)

  datatype Member = Member(key: string, value: Json)

  function Arity(j: Json): nat {
    match j
    case Leaf => 0
    case List(items) => |items|
    case Dict(members) => |members|
  }

  function Child(j: Json, i: nat): (c: Json)
    requires i < Arity(j)
    ensures c < j
  {
    match j
    case List(items) => items[i]
    case Dict(members) => assert members[i] < j; members[i].value
  }

  /** How a child's place is written in the reported path. */
  function Label(j: Json, i: nat): string
    requires i < Arity(j)
  {
    match j
    case List(items) => "[" + Decimal(i) + "]"
    case Dict(members) => "." + members[i].key
  }

  predicate DangerousKey(j: Json, i: nat) {
    j.Dict? && i < |j.members| && j.members[i].key in DANGEROUS
  }

  // ---- The order of the search ----

  datatype Pending = Pending(path: string, value: Json)

  function Size(j: Json): (size: nat)
    ensures size >= 1
    decreases j, Arity(j) + 1
  {
    1 + SizeUpTo(j, Arity(j))
  }

  function SizeUpTo(j: Json, k: nat): nat
    requires k <= Arity(j)
    decreases j, k
  {
    if k == 0 then 0 else SizeUpTo(j, k - 1) + Size(Child(j, k - 1))
  }

  function TotalSize(stack: seq<Pending>): nat {
    if stack == [] then 0 else TotalSize(stack[..|stack| - 1]) + Size(stack[|stack| - 1].value)
  }

  function Children(path: string, j: Json, k: nat): (stack: seq<Pending>)
    requires k <= Arity(j)
    ensures |stack| == k
  {
    if k == 0 then [] else
      Children(path, j, k - 1) + [Pending(path + Label(j, k - 1), Child(j, k - 1))]
  }

  lemma {:induction false} ChildrenSize(path: string, j: Json, k: nat)
    requires k <= Arity(j)
    ensures TotalSize(Children(path, j, k)) == SizeUpTo(j, k)
  {
    if k > 0 {
      ChildrenSize(path, j, k - 1);
      assert Children(path, j, k)[..k - 1] == Children(path, j, k - 1);
    }
  }

  lemma {:induction false} ChildrenAt(path: string, j: Json, k: nat, i: nat)
    requires i < k <= Arity(j)
    ensures Children(path, j, k)[i] == Pending(path + Label(j, i), Child(j, i))
    decreases k
  {
    var init, last := Children(path, j, k - 1), Pending(path + Label(j, k - 1), Child(j, k - 1));
    assert Children(path, j, k) == init + [last];
    if i == k - 1 {
      assert (init + [last])[i] == last;
    } else {
      ChildrenAt(path, j, k - 1, i);
      assert (init + [last])[i] == init[i];
    }
  }

  function FirstDangerous(j: Json, i: nat): Option<nat>
    requires i <= Arity(j)
    decreases Arity(j) - i
  {
    if i == Arity(j) then None else if DangerousKey(j, i) then Some(i) else FirstDangerous(j, i + 1)
  }

  /** The path reported for `j`: its own first dangerous key, else what its children report, the last one first. */
  function Find(path: string, j: Json): Option<string>
    decreases Size(j), 0
  {
    var own := FirstDangerous(j, 0);
    if own.Some? && own.value < Arity(j) then Some(path + Label(j, own.value)) else
      ChildrenSize(path, j, Arity(j));
      FindAll(Children(path, j, Arity(j)))
  }

  function FindAll(stack: seq<Pending>): Option<string>
    decreases TotalSize(stack), |stack|
  {
    if stack == [] then None else
      var top := stack[|stack| - 1];
      var found := Find(top.path, top.value);
      if found.Some? then found else FindAll(stack[..|stack| - 1])
  }

  lemma FindAllSnoc(stack: seq<Pending>, top: Pending)
    ensures FindAll(stack + [top])
         == if Find(top.path, top.value).Some? then Find(top.path, top.value) else FindAll(stack)
  {
  }

  lemma {:induction false} FindAllAppend(below: seq<Pending>, above: seq<Pending>)
    ensures FindAll(below + above) == if FindAll(above).Some? then FindAll(above) else FindAll(below)
    decreases |above|
  {
    if above == [] {
      assert below + above == below;
    } else {
      var init, top := above[..|above| - 1], above[|above| - 1];
      assert above == init + [top] && below + above == (below + init) + [top];
      FindAllSnoc(init, top);
      FindAllSnoc(below + init, top);
      FindAllAppend(below, init);
    }
  }

  lemma {:induction false} TotalSizeAppend(below: seq<Pending>, above: seq<Pending>)
    ensures TotalSize(below + above) == TotalSize(below) + TotalSize(above)
    decreases |above|
  {
    if above == [] {
      assert below + above == below;
    } else {
      var stack, init := below + above, above[..|above| - 1];
      assert stack[..|stack| - 1] == below + init && stack[|stack| - 1] == above[|above| - 1];
      TotalSizeAppend(below, init);
    }
  }

  /** The loop over an explicit stack; it ends because the total size of the pending values shrinks. */
  method FindDangerousJsonPath(value: Json) returns (dangerous: Option<string>)
    ensures dangerous == Find("$", value)
  {
    var pending := [Pending("$", value)];
    while pending != []
      invariant FindAll(pending) == Find("$", value)
      decreases TotalSize(pending)
    {
      var current := pending[|pending| - 1];
      var below := pending[..|pending| - 1];
      pending := below;
      for i := 0 to Arity(current.value)
        invariant pending == below + Children(current.path, current.value, i)
        invariant FirstDangerous(current.value, 0) == FirstDangerous(current.value, i)
      {
        if DangerousKey(current.value, i) {
          return Some(current.path + Label(current.value, i));
        }
        pending := pending + [Pending(current.path + Label(current.value, i), Child(current.value, i))];
      }
      ChildrenSize(current.path, current.value, Arity(current.value));
      FindAllAppend(below, Children(current.path, current.value, Arity(current.value)));
      TotalSizeAppend(below, Children(current.path, current.value, Arity(current.value)));
    }
    return None;
  }

  // ---- What the search finds ----

  /** Following the positions `at` from `j` one meets an object with a dangerous key, written `report`. */
  ghost predicate DangerAt(j: Json, at: seq<nat>, path: string, report: string)
    decreases |at|
  {
    match j
    case Leaf => false
    case List(items) =>
      at != [] && at[0] < |items| && DangerAt(items[at[0]], at[1..], path + "[" + Decimal(at[0]) + "]", report)
    case Dict(members) =>
      if at == [] then
        exists m <- members :: m.key in {"__proto__", "prototype", "constructor"} && report == path + "." + m.key
      else at[0] < |members| && DangerAt(members[at[0]].value, at[1..], path + "." + members[at[0]].key, report)
  }

  lemma LabelText(j: Json, i: nat, path: string)
    requires j.Dict? && i < |j.members|
    ensures path + "." + j.members[i].key == path + Label(j, i)
  {
  }

  lemma DangerHere(j: Json, path: string, report: string)
    ensures DangerAt(j, [], path, report) <==> exists i: nat :: DangerousKey(j, i) && report == path + Label(j, i)
  {
    if j.Dict? {
      forall i: nat | i < |j.members| ensures path + "." + j.members[i].key == path + Label(j, i) {
        LabelText(j, i, path);
      }
      if DangerAt(j, [], path, report) {
        var m :| m in j.members && m.key in {"__proto__", "prototype", "constructor"} && report == path + "." + m.key;
        var i: nat :| i < |j.members| && j.members[i] == m;
        assert DangerousKey(j, i);
      }
      if i: nat :| DangerousKey(j, i) && report == path + Label(j, i) {
        assert j.members[i] in j.members;
      }
    }
  }

  lemma DangerBelow(j: Json, at: seq<nat>, path: string, report: string)
    requires at != []
    ensures DangerAt(j, at, path, report) <==>
              at[0] < Arity(j) && DangerAt(Child(j, at[0]), at[1..], path + Label(j, at[0]), report)
  {
    if at[0] < Arity(j) {
      if j.List? {
        assert path + "[" + Decimal(at[0]) + "]" == path + Label(j, at[0]);
      } else {
        assert path + "." + j.members[at[0]].key == path + Label(j, at[0]);
      }
    }
  }

  lemma {:induction false} FirstDangerousIsOne(j: Json, i: nat)
    requires i <= Arity(j)
    ensures var r := FirstDangerous(j, i);
            if r.Some? then i <= r.value && DangerousKey(j, r.value)
            else forall k: nat :: i <= k ==> !DangerousKey(j, k)
    decreases Arity(j) - i
  {
    if i < Arity(j) {
      FirstDangerousIsOne(j, i + 1);
    }
  }

  /** A reported path is the text of a real dangerous key, at whatever depth. */
  lemma {:induction false} FoundIsReal(path: string, j: Json) returns (at: seq<nat>)
    requires Find(path, j).Some?
    ensures DangerAt(j, at, path, Find(path, j).value)
    decreases Size(j), 0
  {
    FirstDangerousIsOne(j, 0);
    if FirstDangerous(j, 0).Some? {
      at := [];
      DangerHere(j, path, Find(path, j).value);
    } else {
      var i, rest := FoundInChildren(path, j, Arity(j));
      at := [i] + rest;
      assert at[1..] == rest;
      DangerBelow(j, at, path, Find(path, j).value);
    }
  }

  lemma {:induction false} FoundInChildren(path: string, j: Json, k: nat) returns (i: nat, at: seq<nat>)
    requires k <= Arity(j) && FindAll(Children(path, j, k)).Some?
    ensures i < k && DangerAt(Child(j, i), at, path + Label(j, i), FindAll(Children(path, j, k)).value)
    decreases SizeUpTo(j, k), k
  {
    var stack := Children(path, j, k);
    assert stack[..k - 1] == Children(path, j, k - 1);
    if Find(path + Label(j, k - 1), Child(j, k - 1)).Some? {
      i := k - 1;
      at := FoundIsReal(path + Label(j, k - 1), Child(j, k - 1));
    } else {
      i, at := FoundInChildren(path, j, k - 1);
    }
  }

  lemma {:induction false} NothingInStack(stack: seq<Pending>, i: nat)
    requires i < |stack| && FindAll(stack).None?
    ensures Find(stack[i].path, stack[i].value).None?
    decreases |stack|
  {
    if i < |stack| - 1 {
      NothingInStack(stack[..|stack| - 1], i);
    }
  }

  lemma NothingInChild(path: string, j: Json, k: nat, i: nat)
    requires i < k <= Arity(j) && FindAll(Children(path, j, k)).None?
    ensures Find(path + Label(j, i), Child(j, i)).None?
  {
    NothingInStack(Children(path, j, k), i);
    ChildrenAt(path, j, k, i);
  }

  /** Where nothing is reported there is no dangerous key at any depth. */
  lemma {:induction false} NothingMissed(path: string, j: Json, at: seq<nat>, report: string)
    requires Find(path, j).None?
    ensures !DangerAt(j, at, path, report)
    decreases |at|
  {
    FirstDangerousIsOne(j, 0);
    if at == [] {
      DangerHere(j, path, report);
    } else {
      DangerBelow(j, at, path, report);
      if at[0] < Arity(j) {
        NothingInChild(path, j, Arity(j), at[0]);
        NothingMissed(path + Label(j, at[0]), Child(j, at[0]), at[1..], report);
      }
    }
  }

  lemma FindIsExact(path: string, j: Json)
    ensures Find(path, j).None? <==> forall at, report :: !DangerAt(j, at, path, report)
    ensures Find(path, j).Some? ==> exists at :: DangerAt(j, at, path, Find(path, j).value)
  {
    if Find(path, j).Some? {
      var at := FoundIsReal(path, j);
      assert DangerAt(j, at, path, Find(path, j).value);
    } else {
      forall at, report ensures !DangerAt(j, at, path, report) {
        NothingMissed(path, j, at, report);
      }
    }
  }

  // ---- Which one it reports ----

  lemma {:induction false} FirstDangerousIsFirst(j: Json, from: nat, i: nat)
    requires from <= i < Arity(j) && DangerousKey(j, i) && forall k: nat | from <= k < i :: !DangerousKey(j, k)
    ensures FirstDangerous(j, from) == Some(i)
    decreases i - from
  {
    if from < i {
      FirstDangerousIsFirst(j, from + 1, i);
    }
  }

  lemma {:induction false} LastInStackReports(stack: seq<Pending>, i: nat)
    requires i < |stack| && Find(stack[i].path, stack[i].value).Some?
    requires forall l: nat | i < l < |stack| :: Find(stack[l].path, stack[l].value).None?
    ensures FindAll(stack) == Find(stack[i].path, stack[i].value)
    decreases |stack|
  {
    if i < |stack| - 1 {
      LastInStackReports(stack[..|stack| - 1], i);
    }
  }

  lemma LastChildReports(path: string, j: Json, i: nat)
    requires i < Arity(j) && Find(path + Label(j, i), Child(j, i)).Some?
    requires forall l: nat | i < l < Arity(j) :: Find(path + Label(j, l), Child(j, l)).None?
    ensures FindAll(Children(path, j, Arity(j))) == Find(path + Label(j, i), Child(j, i))
  {
    var stack := Children(path, j, Arity(j));
    forall l: nat | l < |stack| ensures stack[l] == Pending(path + Label(j, l), Child(j, l)) {
      ChildrenAt(path, j, Arity(j), l);
    }
    LastInStackReports(stack, i);
  }

  /** An object's own first dangerous key comes before anything below it, and below it the last child with anything to
      report comes first, as the stack has it. */
  lemma OrderOfReports(path: string, j: Json, i: nat)
    requires i < Arity(j)
    ensures DangerousKey(j, i) && (forall k: nat | k < i :: !DangerousKey(j, k)) ==>
              Find(path, j) == Some(path + Label(j, i))
    ensures (forall k: nat :: !DangerousKey(j, k)) && Find(path + Label(j, i), Child(j, i)).Some?
            && (forall l: nat | i < l < Arity(j) :: Find(path + Label(j, l), Child(j, l)).None?) ==>
              Find(path, j) == Find(path + Label(j, i), Child(j, i))
  {
    FirstDangerousIsOne(j, 0);
    if DangerousKey(j, i) && forall k: nat | k < i :: !DangerousKey(j, k) {
      FirstDangerousIsFirst(j, 0, i);
    }
    if Find(path + Label(j, i), Child(j, i)).Some?
       && forall l: nat | i < l < Arity(j) :: Find(path + Label(j, l), Child(j, l)).None? {
      LastChildReports(path, j, i);
    }
  }
}
