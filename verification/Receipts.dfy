// Turning the summaries of an import into one receipt.
module Receipts {
  import opened Common
  import opened ObjectGraph
  import opened CollectDocuments
  import opened Text

  datatype Outcome = Completed | Updated | Skipped | Failed

  /** A summary, with the lower-cased description of its status (empty if it has none). */
  datatype Summary = Summary(value: Value, status: string)

  datatype Status = CompletedStatus | PartialStatus | SkippedStatus | FailedStatus

  datatype Lists = Lists(created: seq<nat>, updated: seq<nat>, skipped: seq<nat>)

  datatype Receipt = Receipt(status: Status, lists: Lists)

  function OutcomeOf(s: Summary): Outcome {
    if s.value.Primitive? then Completed
    else if Contains(s.status, "fail") || Contains(s.status, "error") then Failed
    else if Contains(s.status, "skip") || Contains(s.status, "cancel") then Skipped
    else if Contains(s.status, "overwrite") || Contains(s.status, "update") then Updated
    else Completed
  }

  function Count(summaries: seq<Summary>, outcome: Outcome): (n: nat)
    ensures n <= |summaries|
  {
    if summaries == [] then 0
    else Count(summaries[..|summaries| - 1], outcome)
         + if OutcomeOf(summaries[|summaries| - 1]) == outcome then 1 else 0
  }

  function StatusFor(total: nat, failed: nat, skipped: nat): Status {
    var successful := total - failed - skipped;
    var kinds := (if failed > 0 then 1 else 0) + (if skipped > 0 then 1 else 0) + (if successful > 0 then 1 else 0);
    if total > 0 && failed == total then FailedStatus
    else if total > 0 && skipped == total then SkippedStatus
    else if kinds > 1 then PartialStatus
    else CompletedStatus
  }

  function AppendUnique(g: Graph, target: seq<nat>, documents: seq<nat>): seq<nat>
    requires forall n <- documents :: IsDocument(g, n)
    decreases |documents|
  {
    if documents == [] then target else AppendUnique(g, Push(g, target, documents[0]), documents[1..])
  }

  function Place(g: Graph, lists: Lists, outcome: Outcome, documents: seq<nat>): Lists
    requires forall n <- documents :: IsDocument(g, n)
  {
    match outcome
    case Failed => lists
    case Skipped => lists.(skipped := AppendUnique(g, lists.skipped, documents))
    case Updated => lists.(updated := AppendUnique(g, lists.updated, documents))
    case Completed => lists.(created := AppendUnique(g, lists.created, documents))
  }

  function DocumentsIn(g: Graph, v: Value): (documents: seq<nat>)
    requires Closed(g) && Within(g, v)
    ensures forall n <- documents :: IsDocument(g, n)
  {
    CollectReports(g, v, Found({}, []));
    Collect(g, v, Found({}, [])).output
  }

  predicate WithinAll(g: Graph, summaries: seq<Summary>) {
    forall s <- summaries :: Within(g, s.value)
  }

  function Placed(g: Graph, summaries: seq<Summary>): Lists
    requires Closed(g) && WithinAll(g, summaries)
  {
    if summaries == [] then Lists([], [], []) else
      var last := summaries[|summaries| - 1];
      Place(g, Placed(g, summaries[..|summaries| - 1]), OutcomeOf(last), DocumentsIn(g, last.value))
  }

  function Normalized(g: Graph, summaries: seq<Summary>, events: seq<nat>): Receipt
    requires Closed(g) && WithinAll(g, summaries) && forall n <- events :: IsDocument(g, n)
  {
    var placed := Placed(g, summaries);
    var useEvents := placed == Lists([], [], []) && forall s <- summaries :: OutcomeOf(s) == Completed;
    Receipt(StatusFor(|summaries|, Count(summaries, Failed), Count(summaries, Skipped)),
            if useEvents then placed.(created := AppendUnique(g, [], events)) else placed)
  }

  method CollectFrom(g: Graph, value: Value) returns (documents: seq<nat>)
    requires Closed(g) && Within(g, value)
    ensures documents == DocumentsIn(g, value)
  {
    var search := new Search(g, []);
    search.Visit(value);
    return search.output;
  }

  method CountOutcome(summaries: seq<Summary>, outcome: Outcome) returns (n: nat)
    ensures n == Count(summaries, outcome)
  {
    n := 0;
    for i := 0 to |summaries|
      invariant n == Count(summaries[..i], outcome)
    {
      assert summaries[..i + 1][..i] == summaries[..i];
      if OutcomeOf(summaries[i]) == outcome {
        n := n + 1;
      }
    }
    assert summaries[..|summaries|] == summaries;
  }

  method NormalizePlutoniumResult(g: Graph, summaries: seq<Summary>, events: seq<nat>) returns (receipt: Receipt)
    requires Closed(g) && WithinAll(g, summaries) && forall n <- events :: IsDocument(g, n)
    ensures receipt == Normalized(g, summaries, events)
  {
    var lists := Lists([], [], []);
    for i := 0 to |summaries|
      invariant WithinAll(g, summaries[..i]) && lists == Placed(g, summaries[..i])
    {
      var documents := CollectFrom(g, summaries[i].value);
      lists := Place(g, lists, OutcomeOf(summaries[i]), documents);
      assert summaries[..i + 1][..i] == summaries[..i];
    }
    assert summaries[..|summaries|] == summaries;
    if lists == Lists([], [], []) && forall s <- summaries :: OutcomeOf(s) == Completed {
      lists := lists.(created := AppendUnique(g, lists.created, events));
    }
    var failedCount := CountOutcome(summaries, Failed);
    var skippedCount := CountOutcome(summaries, Skipped);
    return Receipt(StatusFor(|summaries|, failedCount, skippedCount), lists);
  }

  // ---- The status ----

  lemma {:induction false} CountMeaning(summaries: seq<Summary>, outcome: Outcome)
    ensures Count(summaries, outcome) > 0 <==> exists s :: s in summaries && OutcomeOf(s) == outcome
    ensures Count(summaries, outcome) == |summaries| <==> forall s <- summaries :: OutcomeOf(s) == outcome
  {
    if summaries != [] {
      var init, last := summaries[..|summaries| - 1], summaries[|summaries| - 1];
      CountMeaning(init, outcome);
      assert forall s :: s in summaries <==> s in init || s == last;
    }
  }

  predicate Successful(s: Summary) {
    OutcomeOf(s) != Failed && OutcomeOf(s) != Skipped
  }

  ghost predicate SuccessOccurs(summaries: seq<Summary>) {
    exists s :: s in summaries && Successful(s)
  }

  lemma {:induction false} SuccessfulMeaning(summaries: seq<Summary>)
    ensures Count(summaries, Failed) + Count(summaries, Skipped) <= |summaries|
    ensures Count(summaries, Failed) + Count(summaries, Skipped) < |summaries| <==> SuccessOccurs(summaries)
  {
    if summaries != [] {
      var init, last := summaries[..|summaries| - 1], summaries[|summaries| - 1];
      SuccessfulMeaning(init);
      assert forall s :: s in summaries <==> s in init || s == last;
      assert SuccessOccurs(summaries) <==> SuccessOccurs(init) || Successful(last) by {
        if s :| s in init && Successful(s) {
          assert s in summaries;
        }
        assert last in summaries;
      }
    }
  }

  ghost predicate Occurs(summaries: seq<Summary>, outcome: Outcome) {
    exists s :: s in summaries && OutcomeOf(s) == outcome
  }

  /** Failed or skipped only when everything was; partial when two kinds of outcome met; completed otherwise. */
  lemma StatusMeaning(g: Graph, summaries: seq<Summary>, events: seq<nat>)
    requires Closed(g) && WithinAll(g, summaries) && forall n <- events :: IsDocument(g, n)
    ensures var status := Normalized(g, summaries, events).status;
            && (status == FailedStatus <==> summaries != [] && forall s <- summaries :: OutcomeOf(s) == Failed)
            && (status == SkippedStatus <==> summaries != [] && forall s <- summaries :: OutcomeOf(s) == Skipped)
            && (status == PartialStatus <==>
                  || (Occurs(summaries, Failed) && Occurs(summaries, Skipped))
                  || (SuccessOccurs(summaries) && (Occurs(summaries, Failed) || Occurs(summaries, Skipped))))
  {
    CountMeaning(summaries, Failed);
    CountMeaning(summaries, Skipped);
    SuccessfulMeaning(summaries);
    if summaries != [] {
      assert summaries[0] in summaries;
    }
  }

  // ---- The lists ----

  lemma PushMeaning(g: Graph, target: seq<nat>, n: nat)
    requires IsDocument(g, n)
    ensures forall uuid :: Named(g, Push(g, target, n), uuid) <==> Named(g, target, uuid) || Uuid(g, n) == uuid
  {
    var next := Push(g, target, n);
    forall uuid ensures Named(g, next, uuid) <==> Named(g, target, uuid) || Uuid(g, n) == uuid {
      if i :| 0 <= i < |target| && IsDocument(g, target[i]) && Uuid(g, target[i]) == uuid {
        assert next[i] == target[i];
      }
      if next != target {
        assert next[|target|] == n;
      }
    }
  }

  lemma NamedCons(g: Graph, documents: seq<nat>, uuid: string)
    requires documents != [] && IsDocument(g, documents[0])
    ensures Named(g, documents, uuid) <==> Uuid(g, documents[0]) == uuid || Named(g, documents[1..], uuid)
  {
  }

  lemma {:induction false} AppendUniqueMeaning(g: Graph, target: seq<nat>, documents: seq<nat>)
    requires (forall n <- documents :: IsDocument(g, n)) && DistinctUuids(g, target)
    ensures DistinctUuids(g, AppendUnique(g, target, documents))
    ensures forall uuid :: Named(g, AppendUnique(g, target, documents), uuid) <==>
              Named(g, target, uuid) || Named(g, documents, uuid)
    decreases |documents|
  {
    if documents != [] {
      var next := Push(g, target, documents[0]);
      assert forall uuid :: Named(g, next, uuid) <==> Named(g, target, uuid) || Uuid(g, documents[0]) == uuid by {
        PushMeaning(g, target, documents[0]);
      }
      PushReports(g, Found({}, target), documents[0]);
      AppendUniqueMeaning(g, next, documents[1..]);
      forall uuid
        ensures Named(g, documents, uuid) <==> Uuid(g, documents[0]) == uuid || Named(g, documents[1..], uuid)
      {
        NamedCons(g, documents, uuid);
      }
    }
  }

  ghost predicate ShownBy(g: Graph, s: Summary, uuid: string) {
    exists n :: Visible(g, s.value, n) && Uuid(g, n) == uuid
  }

  /** Some summary with this outcome shows a document of this uuid. */
  ghost predicate Shown(g: Graph, summaries: seq<Summary>, outcome: Outcome, uuid: string) {
    exists s :: s in summaries && OutcomeOf(s) == outcome && ShownBy(g, s, uuid)
  }

  function ListFor(lists: Lists, outcome: Outcome): seq<nat> {
    match outcome
    case Failed => []
    case Skipped => lists.skipped
    case Updated => lists.updated
    case Completed => lists.created
  }

  lemma ShownSnoc(g: Graph, init: seq<Summary>, last: Summary, outcome: Outcome, uuid: string)
    ensures Shown(g, init + [last], outcome, uuid) <==>
              Shown(g, init, outcome, uuid) || (OutcomeOf(last) == outcome && ShownBy(g, last, uuid))
  {
  }

  lemma {:induction false} PlacedMeaning(g: Graph, summaries: seq<Summary>, outcome: Outcome)
    requires Closed(g) && WithinAll(g, summaries) && outcome != Failed
    ensures DistinctUuids(g, ListFor(Placed(g, summaries), outcome))
    ensures forall uuid :: Named(g, ListFor(Placed(g, summaries), outcome), uuid) <==>
              Shown(g, summaries, outcome, uuid)
  {
    if summaries != [] {
      var init, last := summaries[..|summaries| - 1], summaries[|summaries| - 1];
      assert summaries == init + [last];
      PlacedMeaning(g, init, outcome);
      var documents := DocumentsIn(g, last.value);
      CollectFindsExactlyTheVisible(g, last.value, []);
      var before := ListFor(Placed(g, init), outcome);
      AppendUniqueMeaning(g, before, documents);
      assert ListFor(Placed(g, summaries), outcome)
          == if OutcomeOf(last) == outcome then AppendUnique(g, before, documents) else before;
      forall uuid
        ensures Shown(g, summaries, outcome, uuid) <==>
                  Shown(g, init, outcome, uuid) || (OutcomeOf(last) == outcome && Named(g, documents, uuid))
      {
        ShownSnoc(g, init, last, outcome, uuid);
        assert Named(g, documents, uuid) <==> ShownBy(g, last, uuid);
      }
    }
  }

  /** Event documents stand in only when every summary completed and none showed any document. */
  ghost predicate EventsStandIn(g: Graph, summaries: seq<Summary>) {
    forall s <- summaries :: OutcomeOf(s) == Completed && forall uuid :: !ShownBy(g, s, uuid)
  }

  lemma NoneNamed(g: Graph, documents: seq<nat>)
    requires DistinctUuids(g, documents)
    ensures documents == [] <==> forall uuid :: !Named(g, documents, uuid)
  {
    if documents != [] {
      assert Named(g, documents, Uuid(g, documents[0]));
    }
  }

  lemma StandInCondition(g: Graph, summaries: seq<Summary>)
    requires Closed(g) && WithinAll(g, summaries)
    ensures EventsStandIn(g, summaries) <==>
              Placed(g, summaries) == Lists([], [], []) && forall s <- summaries :: OutcomeOf(s) == Completed
    ensures EventsStandIn(g, summaries) ==> forall uuid :: !Shown(g, summaries, Completed, uuid)
  {
    var placed := Placed(g, summaries);
    PlacedMeaning(g, summaries, Completed);
    PlacedMeaning(g, summaries, Updated);
    PlacedMeaning(g, summaries, Skipped);
    NoneNamed(g, placed.created);
    NoneNamed(g, placed.updated);
    NoneNamed(g, placed.skipped);
    if (forall s <- summaries :: OutcomeOf(s) == Completed) && placed == Lists([], [], []) {
      forall s <- summaries, uuid ensures !ShownBy(g, s, uuid) {
        assert !Shown(g, summaries, Completed, uuid);
      }
    }
  }

  /** Each list has distinct uuids and names exactly what the summaries of its outcome show; documents of failed
      summaries appear nowhere, and event documents only as stand-ins. */
  lemma ListsMeaning(g: Graph, summaries: seq<Summary>, events: seq<nat>)
    requires Closed(g) && WithinAll(g, summaries) && forall n <- events :: IsDocument(g, n)
    ensures var lists := Normalized(g, summaries, events).lists;
            && DistinctUuids(g, lists.created) && DistinctUuids(g, lists.updated) && DistinctUuids(g, lists.skipped)
            && (forall uuid :: Named(g, lists.updated, uuid) <==> Shown(g, summaries, Updated, uuid))
            && (forall uuid :: Named(g, lists.skipped, uuid) <==> Shown(g, summaries, Skipped, uuid))
            && (forall uuid :: Named(g, lists.created, uuid) <==>
                  Shown(g, summaries, Completed, uuid) || (EventsStandIn(g, summaries) && Named(g, events, uuid)))
  {
    PlacedMeaning(g, summaries, Completed);
    PlacedMeaning(g, summaries, Updated);
    PlacedMeaning(g, summaries, Skipped);
    AppendUniqueMeaning(g, [], events);
    StandInCondition(g, summaries);
  }

  // ---- The outcome of one summary ----

  /** A summary that is no object has completed. Otherwise the words in its status decide, failure first, then
      skipping, then updating; without any of them it has completed. */
  lemma OutcomeMeaning(s: Summary)
    ensures && (OutcomeOf(s) == Failed <==> s.value.Ref? && (StandsIn("fail", s.status) || StandsIn("error", s.status)))
            && (OutcomeOf(s) == Skipped <==> OutcomeOf(s) != Failed && s.value.Ref?
                                             && (StandsIn("skip", s.status) || StandsIn("cancel", s.status)))
            && (OutcomeOf(s) == Updated <==> OutcomeOf(s) != Failed && OutcomeOf(s) != Skipped && s.value.Ref?
                                             && (StandsIn("overwrite", s.status) || StandsIn("update", s.status)))
  {
    ContainsMeaning(s.status, "fail");
    ContainsMeaning(s.status, "error");
    ContainsMeaning(s.status, "skip");
    ContainsMeaning(s.status, "cancel");
    ContainsMeaning(s.status, "overwrite");
    ContainsMeaning(s.status, "update");
  }
}
