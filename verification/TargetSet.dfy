// The canonical form of a list of deletion targets: duplicates dropped, then sorted by code units.
module TargetSet {
  import opened Common

  /** The strict order of the default array sort. */
  predicate Before(a: string, b: string)
    decreases |a|
  {
    b != "" && (a == "" || a[0] < b[0] || (a[0] == b[0] && Before(a[1..], b[1..])))
  }

  /** `new Set(uuids)` in insertion order. */
  function Unique(uuids: seq<string>): seq<string>
    decreases |uuids|
  {
    if uuids == [] then [] else
      var init, last := uuids[..|uuids| - 1], uuids[|uuids| - 1];
      if last in init then Unique(init) else Unique(init) + [last]
  }

  function Insert(x: string, sorted: seq<string>): seq<string>
    decreases |sorted|
  {
    if sorted == [] then [x]
    else if Before(sorted[0], x) then [sorted[0]] + Insert(x, sorted[1..])
    else [x] + sorted
  }

  function Sort(uuids: seq<string>): seq<string>
    decreases |uuids|
  {
    if uuids == [] then [] else Insert(uuids[0], Sort(uuids[1..]))
  }

  function Normalize(uuids: seq<string>): seq<string> {
    Sort(Unique(uuids))
  }

  ghost predicate Increasing(s: seq<string>) {
    forall i, j :: 0 <= i < j < |s| ==> Before(s[i], s[j])
  }

  // ---- The order is a strict total order ----

  lemma {:induction false} BeforeIrreflexive(a: string)
    ensures !Before(a, a)
    decreases |a|
  {
    if a != "" {
      BeforeIrreflexive(a[1..]);
    }
  }

  lemma {:induction false} BeforeTransitive(a: string, b: string, c: string)
    requires Before(a, b) && Before(b, c)
    ensures Before(a, c)
    decreases |a|
  {
    if a != "" && a[0] == b[0] == c[0] {
      BeforeTransitive(a[1..], b[1..], c[1..]);
    }
  }

  lemma {:induction false} BeforeTotal(a: string, b: string)
    ensures Before(a, b) || Before(b, a) || a == b
    decreases |a|
  {
    if a != "" && b != "" && a[0] == b[0] {
      BeforeTotal(a[1..], b[1..]);
      assert a == [a[0]] + a[1..] && b == [b[0]] + b[1..];
    }
  }

  /** At the first place where two texts differ, the smaller code unit or the end comes first. */
  predicate DiffersAt(a: string, b: string, k: nat) {
    k <= |a| && k < |b| && a[..k] == b[..k] && (k == |a| || a[k] < b[k])
  }

  /** The order is that of code units, as the default sort of an array has it. */
  lemma {:induction false} BeforeMeaning(a: string, b: string)
    ensures Before(a, b) <==> exists k: nat :: DiffersAt(a, b, k)
    decreases |a|
  {
    if a != "" && b != "" && a[0] == b[0] {
      BeforeMeaning(a[1..], b[1..]);
      if k: nat :| DiffersAt(a[1..], b[1..], k) {
        assert a[..k + 1] == [a[0]] + a[1..][..k] && b[..k + 1] == [b[0]] + b[1..][..k];
        assert DiffersAt(a, b, k + 1);
      }
      if k: nat :| DiffersAt(a, b, k) {
        assert k > 0;
        assert a[1..][..k - 1] == a[..k][1..] && b[1..][..k - 1] == b[..k][1..];
        assert DiffersAt(a[1..], b[1..], k - 1);
      }
    } else if b != "" && (a == "" || a[0] < b[0]) {
      assert DiffersAt(a, b, 0);
    } else if a != "" && b != "" {
      forall k: nat ensures !DiffersAt(a, b, k) {
        if k > 0 && k <= |a| && k < |b| {
          assert a[..k][0] == a[0] && b[..k][0] == b[0];
        }
      }
    }
  }

  // ---- Normal forms ----

  lemma {:induction false} UniqueIsDistinct(uuids: seq<string>)
    ensures Distinct(Unique(uuids)) && Elements(Unique(uuids)) == Elements(uuids)
    decreases |uuids|
  {
    if uuids != [] {
      var init, last := uuids[..|uuids| - 1], uuids[|uuids| - 1];
      assert uuids == init + [last];
      UniqueIsDistinct(init);
      ElementsSnoc(init, last);
      if last !in init {
        ElementsSnoc(Unique(init), last);
        assert last !in Elements(Unique(init));
      }
    }
  }

  lemma {:induction false} InsertKeepsOrder(x: string, sorted: seq<string>)
    requires Increasing(sorted) && x !in sorted
    ensures Increasing(Insert(x, sorted)) && Elements(Insert(x, sorted)) == Elements(sorted) + {x}
    decreases |sorted|
  {
    if sorted != [] {
      var head, tail := sorted[0], sorted[1..];
      assert sorted == [head] + tail;
      if Before(head, x) {
        InsertKeepsOrder(x, tail);
        var r := Insert(x, tail);
        forall j | 0 <= j < |r| ensures Before(head, r[j]) {
          assert r[j] in Elements(r);
          if r[j] != x {
            var k :| 0 <= k < |tail| && tail[k] == r[j];
            assert sorted[k + 1] == r[j];
          }
        }
        assert Elements([head] + r) == {head} + Elements(r);
      } else {
        BeforeTotal(head, x);
        forall j | 0 <= j < |sorted| ensures Before(x, sorted[j]) {
          if j > 0 {
            BeforeTransitive(x, head, sorted[j]);
          }
        }
        assert Elements([x] + sorted) == {x} + Elements(sorted);
      }
    }
  }

  lemma {:induction false} SortIncreases(uuids: seq<string>)
    requires Distinct(uuids)
    ensures Increasing(Sort(uuids)) && Elements(Sort(uuids)) == Elements(uuids)
    decreases |uuids|
  {
    if uuids != [] {
      assert uuids == [uuids[0]] + uuids[1..];
      assert uuids[0] !in uuids[1..];
      SortIncreases(uuids[1..]);
      assert uuids[0] !in Elements(uuids[1..]);
      InsertKeepsOrder(uuids[0], Sort(uuids[1..]));
      assert Elements(uuids) == Elements(uuids[1..]) + {uuids[0]};
    }
  }

  lemma HeadIsFirst(s: seq<string>, x: string)
    requires Increasing(s) && s != [] && x in Elements(s) && x != s[0]
    ensures Before(s[0], x)
  {
  }

  lemma TailElements(s: seq<string>)
    requires Increasing(s) && s != []
    ensures Elements(s[1..]) == Elements(s) - {s[0]}
  {
    assert s == [s[0]] + s[1..];
    forall i | 0 <= i < |s[1..]| ensures s[1..][i] != s[0] {
      assert Before(s[0], s[i + 1]);
      BeforeIrreflexive(s[0]);
    }
  }

  lemma NoElements(s: seq<string>)
    ensures Elements(s) == {} <==> s == []
  {
    if s != [] {
      assert s[0] in Elements(s);
    }
  }

  /** An increasing list is determined by its elements. */
  lemma {:induction false} IncreasingIsUnique(s: seq<string>, t: seq<string>)
    requires Increasing(s) && Increasing(t) && Elements(s) == Elements(t)
    ensures s == t
    decreases |s|
  {
    if s == [] {
      NoElements(s);
      NoElements(t);
    } else {
      NoElements(s);
      NoElements(t);
      assert s[0] in Elements(t) && t[0] in Elements(s);
      if s[0] != t[0] {
        HeadIsFirst(s, t[0]);
        HeadIsFirst(t, s[0]);
        BeforeTransitive(s[0], t[0], s[0]);
        BeforeIrreflexive(s[0]);
        assert false;
      }
      TailElements(s);
      TailElements(t);
      IncreasingIsUnique(s[1..], t[1..]);
      assert s == [s[0]] + s[1..] && t == [t[0]] + t[1..];
    }
  }

  lemma NormalizeMeaning(uuids: seq<string>)
    ensures Increasing(Normalize(uuids)) && Elements(Normalize(uuids)) == Elements(uuids)
  {
    UniqueIsDistinct(uuids);
    SortIncreases(Unique(uuids));
  }

  /** Two lists have the same normal form exactly when they name the same targets, in whatever order and however
      often. */
  lemma NormalizeIsCanonical(a: seq<string>, b: seq<string>)
    ensures Normalize(a) == Normalize(b) <==> Elements(a) == Elements(b)
  {
    NormalizeMeaning(a);
    NormalizeMeaning(b);
    if Elements(a) == Elements(b) {
      IncreasingIsUnique(Normalize(a), Normalize(b));
    }
  }

  lemma NormalizeIsIdempotent(a: seq<string>)
    ensures Normalize(Normalize(a)) == Normalize(a)
  {
    NormalizeMeaning(a);
    NormalizeIsCanonical(Normalize(a), a);
  }
}
