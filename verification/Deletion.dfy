// Two-phase deletion: a previewed plan, its one-use expiring token, and the confirmed delete.
module Deletion {
  import opened Common
  import opened TargetSet

  /** `digest` stands for SHA-256 over the serialised list. */
  datatype Config = Config(ttlMs: nat, digest: seq<string> -> nat)

  function HashTargets(config: Config, uuids: seq<string>): nat {
    config.digest(Normalize(uuids))
  }

  datatype Plan = Plan(targetHash: nat, uuids: seq<string>, expiresAt: int)

  type Plans = map<string, Plan>

  function Unexpired(plans: Plans, now: int): Plans {
    map token | token in plans && now < plans[token].expiresAt :: plans[token]
  }

  /** The clock is read once to prune and once more to date the plan. */
  function Created(config: Config, plans: Plans, uuids: seq<string>, token: string, pruneNow: int, now: int): Plans {
    var plan := Plan(HashTargets(config, Normalize(uuids)), Normalize(uuids), now + config.ttlMs);
    Unexpired(plans, pruneNow)[token := plan]
  }

  datatype Outcome = Invalid | Expired | TargetChanged | Confirmed(uuids: seq<string>)

  /** `supplied` is the target hash of the request once decoded, `None` when it is not 64 hexadecimal digits. */
  function Consumed(config: Config, plans: Plans, token: string, supplied: Option<nat>, uuids: seq<string>, now: int,
      pruneNow: int): (Plans, Outcome) {
    if token !in plans then (plans, Invalid)
    else if plans[token].expiresAt <= now then (plans - {token}, Expired)
    else
      var plan := plans[token];
      var pruned := Unexpired(plans, pruneNow);
      if supplied == Some(plan.targetHash) && HashTargets(config, uuids) == plan.targetHash
      then (pruned - {token}, Confirmed(plan.uuids)) else (pruned, TargetChanged)
  }

  class ConfirmationStore {
    const config: Config
    var pending: Plans

    constructor (config: Config)
      ensures this.config == config && pending == map[]
    {
      this.config, pending := config, map[];
    }

    method Prune(now: int)
      modifies this
      ensures pending == Unexpired(old(pending), now)
    {
      var todo := pending.Keys;
      while todo != {}
        invariant todo <= old(pending).Keys
        invariant pending == map token | token in old(pending)
                                         && (token in todo || now < old(pending)[token].expiresAt) ::
                                              old(pending)[token]
        decreases todo
      {
        var token :| token in todo;
        if pending[token].expiresAt <= now {
          pending := pending - {token};
        }
        todo := todo - {token};
      }
    }

    method Create(uuids: seq<string>, token: string, pruneNow: int, now: int) returns (plan: Plan)
      modifies this
      ensures pending == Created(config, old(pending), uuids, token, pruneNow, now) && plan == pending[token]
    {
      Prune(pruneNow);
      var normalized := Normalize(uuids);
      plan := Plan(HashTargets(config, normalized), normalized, now + config.ttlMs);
      pending := pending[token := plan];
    }

    method Consume(token: string, supplied: Option<nat>, uuids: seq<string>, now: int, pruneNow: int)
      returns (outcome: Outcome)
      modifies this
      ensures (pending, outcome) == Consumed(config, old(pending), token, supplied, uuids, now, pruneNow)
    {
      if token !in pending {
        return Invalid;
      }
      var entry := pending[token];
      if entry.expiresAt <= now {
        pending := pending - {token};
        return Expired;
      }
      Prune(pruneNow);
      if supplied != Some(entry.targetHash) || HashTargets(config, uuids) != entry.targetHash {
        return TargetChanged;
      }
      pending := pending - {token};
      return Confirmed(entry.uuids);
    }
  }

  // ---- The preview ----

  datatype Owner = Owner(id: string, name: Option<string>)

  /** A document as the browser finds it; `uuid` is what the document says of itself. */
  datatype Document = Document(uuid: string, documentName: string, id: string, name: Option<string>,
                               parent: Option<Owner>)

  datatype Preview = Refused | Preview(targets: seq<string>, consequences: seq<string>)

  function Title(name: Option<string>, id: string): string {
    if name.Some? then name.value else id
  }

  function Consequence(d: Document): seq<string> {
    var title := Title(d.name, d.id);
    if d.documentName == "Actor" then ["Actor " + title + " and its embedded documents will be deleted."]
    else if d.documentName == "Scene" then ["Scene " + title + " and its embedded placeables will be deleted."]
    else if d.parent.Some? then
      [d.documentName + " " + title + " will be removed from " + Title(d.parent.value.name, d.parent.value.id) + "."]
    else []
  }

  /** An entry of the request, `None` when it is not a non-blank string, names a document. */
  predicate Names(world: map<string, Document>, entry: Option<string>) {
    entry.Some? && entry.value in world
  }

  predicate AllNamed(world: map<string, Document>, entries: seq<Option<string>>) {
    forall i :: 0 <= i < |entries| ==> Names(world, entries[i])
  }

  function Consequences(world: map<string, Document>, entries: seq<Option<string>>): seq<string>
    requires AllNamed(world, entries)
  {
    if entries == [] then [] else
      var init, last := entries[..|entries| - 1], entries[|entries| - 1];
      assert Names(world, last);
      Consequences(world, init) + Consequence(world[last.value])
  }

  /** One target per entry, in order, with the consequences of those documents. */
  ghost predicate Describes(world: map<string, Document>, entries: seq<Option<string>>, targets: seq<string>,
      consequences: seq<string>) {
    && AllNamed(world, entries)
    && |targets| == |entries| && (forall i :: 0 <= i < |entries| ==> targets[i] == world[entries[i].value].uuid)
    && consequences == Consequences(world, entries)
  }

  lemma DescribesOneMore(world: map<string, Document>, entries: seq<Option<string>>, targets: seq<string>,
      consequences: seq<string>, next: Option<string>)
    requires Describes(world, entries, targets, consequences) && Names(world, next)
    ensures var d := world[next.value];
            Describes(world, entries + [next], targets + [d.uuid], consequences + Consequence(d))
  {
    assert (entries + [next])[..|entries|] == entries;
  }

  const MAX_TARGETS: nat := 50

  /** The browser's side: a description of exactly what was asked for, or a refusal. */
  method PrepareDelete(gm: bool, world: map<string, Document>, uuids: seq<Option<string>>) returns (preview: Preview)
    ensures preview.Refused? <==> !gm || uuids == [] || |uuids| > 50 || !AllNamed(world, uuids)
    ensures preview.Preview? ==> Describes(world, uuids, preview.targets, preview.consequences)
  {
    if !gm || uuids == [] || |uuids| > MAX_TARGETS {
      return Refused;
    }
    var targets, consequences := [], [];
    for i := 0 to |uuids|
      invariant Describes(world, uuids[..i], targets, consequences)
    {
      var uuid := uuids[i];
      if uuid.None? || uuid.value !in world {
        return Refused;
      }
      DescribesOneMore(world, uuids[..i], targets, consequences, uuid);
      assert uuids[..i + 1] == uuids[..i] + [uuid];
      targets := targets + [world[uuid.value].uuid];
      consequences := consequences + Consequence(world[uuid.value]);
    }
    assert uuids[..|uuids|] == uuids;
    return Preview(targets, consequences);
  }

  /** The server's check of a preview (which its schema requires to be non-empty). */
  predicate PreviewMatches(uuids: seq<string>, targets: seq<string>) {
    targets != [] && |targets| == |Elements(uuids)| && forall i :: 0 <= i < |targets| ==> targets[i] in uuids
  }

  lemma SubsetOfSameSize<T>(a: set<T>, b: set<T>)
    requires a <= b && |a| == |b|
    ensures a == b
  {
    assert b == a + (b - a);
    assert |b| == |a| + |b - a|;
  }

  /** The check compares a length and memberships only: it means equality of the target sets exactly for previews
      that repeat no target. */
  lemma MatchingPreviewIsExactIff(uuids: seq<string>, targets: seq<string>)
    requires PreviewMatches(uuids, targets)
    ensures Elements(targets) <= Elements(uuids)
    ensures Elements(targets) == Elements(uuids) <==> Distinct(targets)
  {
    DistinctIffCardinality(targets);
    if Distinct(targets) && Elements(targets) != Elements(uuids) {
      SubsetOfSameSize(Elements(targets), Elements(uuids));
    }
  }

  /** A preview that repeats a target can pass without covering the request. */
  lemma RepeatedPreviewPasses()
    ensures PreviewMatches(["Actor.a", "Actor.b"], ["Actor.a", "Actor.a"])
    ensures Elements(["Actor.a", "Actor.a"]) != Elements(["Actor.a", "Actor.b"])
  {
    var uuids := ["Actor.a", "Actor.b"];
    assert uuids[0] != uuids[1];
    DistinctIffCardinality(uuids);
    assert uuids[1] in Elements(uuids) && uuids[1] !in Elements(["Actor.a", "Actor.a"]);
  }

  /** When every document carries the uuid it was asked by, the preview of distinct targets always passes and is
      exact. */
  lemma HonestPreviewMatches(world: map<string, Document>, uuids: seq<string>, targets: seq<string>)
    requires uuids != [] && Distinct(uuids) && |targets| == |uuids|
    requires forall i :: 0 <= i < |uuids| ==> uuids[i] in world && targets[i] == world[uuids[i]].uuid == uuids[i]
    ensures PreviewMatches(uuids, targets) && Elements(targets) == Elements(uuids)
  {
    assert targets == uuids;
    DistinctIffCardinality(uuids);
  }

  // ---- Runs of the two tools ----

  datatype Prepared = Prepared(uuids: seq<string>, targets: seq<string>, at: int)

  datatype Delete = Delete(token: string, uuids: seq<string>, at: int)

  /** `prepared` and `deletes` are the history of issued plans and of routed deletes. */
  datatype State = State(plans: Plans, prepared: map<string, Prepared>, deletes: seq<Delete>)

  const INITIAL := State(map[], map[], [])

  datatype Event =
    | Prepare(uuids: seq<string>, targets: seq<string>, token: string, pruneNow: int, now: int)
    | Confirm(token: string, supplied: Option<nat>, uuids: seq<string>, now: int, pruneNow: int)

  function Step(config: Config, s: State, e: Event): State {
    match e
    case Prepare(uuids, targets, token, pruneNow, now) =>
      if !PreviewMatches(uuids, targets) then s else
        s.(plans := Created(config, s.plans, uuids, token, pruneNow, now),
           prepared := s.prepared[token := Prepared(uuids, targets, now)])
    case Confirm(token, supplied, uuids, now, pruneNow) =>
      var (plans, outcome) := Consumed(config, s.plans, token, supplied, uuids, now, pruneNow);
      s.(plans := plans,
         deletes := if outcome.Confirmed? then s.deletes + [Delete(token, outcome.uuids, now)] else s.deletes)
  }

  function Run(config: Config, s: State, events: seq<Event>): State
    decreases |events|
  {
    if events == [] then s else Run(config, Step(config, s, events[0]), events[1..])
  }

  class Tools {
    const store: ConfirmationStore
    var prepared: map<string, Prepared>
    var deletes: seq<Delete>

    ghost function View(): State
      reads this, store
    {
      State(store.pending, prepared, deletes)
    }

    constructor (config: Config)
      ensures View() == INITIAL && store.config == config && fresh(store)
    {
      store := new ConfirmationStore(config);
      prepared, deletes := map[], [];
    }

    /** `None` is the mismatch error; `targets` is the preview that Foundry returned. */
    method PrepareDeletion(uuids: seq<string>, targets: seq<string>, token: string, pruneNow: int, now: int)
      returns (plan: Option<Plan>)
      modifies this, store
      ensures View() == Step(store.config, old(View()), Prepare(uuids, targets, token, pruneNow, now))
      ensures plan == if PreviewMatches(uuids, targets) then Some(store.pending[token]) else None
    {
      var expected := Elements(uuids);
      if targets == [] || |targets| != |expected| || exists i :: 0 <= i < |targets| && targets[i] !in expected {
        return None;
      }
      var created := store.Create(uuids, token, pruneNow, now);
      prepared := prepared[token := Prepared(uuids, targets, now)];
      return Some(created);
    }

    /** Consumes the token first and routes the delete afterwards. */
    method ConfirmDeletion(token: string, supplied: Option<nat>, uuids: seq<string>, now: int, pruneNow: int)
      returns (outcome: Outcome)
      modifies this, store
      ensures View() == Step(store.config, old(View()), Confirm(token, supplied, uuids, now, pruneNow))
      ensures outcome == Consumed(store.config, old(store.pending), token, supplied, uuids, now, pruneNow).1
    {
      outcome := store.Consume(token, supplied, uuids, now, pruneNow);
      if outcome.Confirmed? {
        deletes := deletes + [Delete(token, outcome.uuids, now)];
      }
    }
  }

  // ---- Safety over every run ----

  function PlanFor(config: Config, p: Prepared): Plan {
    Plan(HashTargets(config, p.uuids), Normalize(p.uuids), p.at + config.ttlMs)
  }

  ghost predicate Spent(s: State, token: string) {
    exists d :: d in s.deletes && d.token == token
  }

  ghost predicate PlansAreIssued(config: Config, s: State) {
    forall token <- s.plans ::
      token in s.prepared && s.plans[token] == PlanFor(config, s.prepared[token]) && !Spent(s, token)
  }

  /** The delete carries exactly the targets of the plan issued with its token, and came before that plan expired. */
  ghost predicate Authorised(config: Config, s: State, d: Delete) {
    && d.token in s.prepared
    && PreviewMatches(s.prepared[d.token].uuids, s.prepared[d.token].targets)
    && d.uuids == Normalize(s.prepared[d.token].uuids)
    && d.at < s.prepared[d.token].at + config.ttlMs
  }

  ghost predicate DeletesAreAuthorised(config: Config, s: State) {
    && (forall d <- s.deletes :: Authorised(config, s, d))
    && (forall i, j :: 0 <= i < j < |s.deletes| ==> s.deletes[i].token != s.deletes[j].token)
    && (forall token <- s.prepared :: PreviewMatches(s.prepared[token].uuids, s.prepared[token].targets))
  }

  /** A plan leaves the store only by its delete or by expiring. */
  ghost predicate NothingLost(config: Config, s: State, clock: int) {
    forall token <- s.prepared :: token in s.plans || Spent(s, token) || s.prepared[token].at + config.ttlMs <= clock
  }

  ghost predicate Inv(config: Config, s: State, clock: int) {
    PlansAreIssued(config, s) && DeletesAreAuthorised(config, s) && NothingLost(config, s, clock)
  }

  /** Tokens are fresh random values and the clock never runs backwards. */
  ghost predicate Plausible(config: Config, s: State, clock: int, events: seq<Event>)
    decreases |events|
  {
    events == [] ||
    (match events[0]
     case Prepare(_, _, token, pruneNow, now) =>
       token !in s.prepared && clock <= pruneNow <= now
         && Plausible(config, Step(config, s, events[0]), now, events[1..])
     case Confirm(_, _, _, now, pruneNow) =>
       clock <= now <= pruneNow && Plausible(config, Step(config, s, events[0]), pruneNow, events[1..]))
  }

  function ClockAfter(e: Event): int {
    if e.Prepare? then e.now else e.pruneNow
  }

  lemma PrepareKeepsInv(config: Config, s: State, clock: int, e: Event)
    requires Inv(config, s, clock) && e.Prepare? && Plausible(config, s, clock, [e])
    ensures Inv(config, Step(config, s, e), ClockAfter(e))
  {
    NormalizeIsIdempotent(e.uuids);
    var s' := Step(config, s, e);
    forall token ensures Spent(s', token) <==> Spent(s, token) {}
    if PreviewMatches(e.uuids, e.targets) {
      assert !Spent(s, e.token) by {
        forall d <- s.deletes ensures d.token != e.token {
          assert Authorised(config, s, d);
        }
      }
      forall d <- s'.deletes ensures Authorised(config, s', d) {
        assert Authorised(config, s, d);
      }
    }
  }

  lemma SpentAfter(s: State, d: Delete, s': State)
    requires s'.deletes == s.deletes + [d]
    ensures forall token :: Spent(s', token) <==> Spent(s, token) || token == d.token
  {
  }

  lemma OneMoreDelete(config: Config, s: State, d: Delete, s': State)
    requires DeletesAreAuthorised(config, s) && Authorised(config, s, d) && !Spent(s, d.token)
    requires s'.deletes == s.deletes + [d] && s'.prepared == s.prepared
    ensures DeletesAreAuthorised(config, s')
  {
  }

  /** A confirmation that routes its delete. */
  lemma DeletingKeepsInv(config: Config, s: State, clock: int, e: Event)
    requires Inv(config, s, clock) && e.Confirm? && Plausible(config, s, clock, [e])
    requires Consumed(config, s.plans, e.token, e.supplied, e.uuids, e.now, e.pruneNow).1.Confirmed?
    ensures Inv(config, Step(config, s, e), ClockAfter(e))
  {
    var d := Delete(e.token, s.plans[e.token].uuids, e.now);
    SpentAfter(s, d, Step(config, s, e));
    OneMoreDelete(config, s, d, Step(config, s, e));
  }

  /** A confirmation that is refused may only drop expired plans. */
  lemma RefusingKeepsInv(config: Config, s: State, clock: int, e: Event)
    requires Inv(config, s, clock) && e.Confirm? && Plausible(config, s, clock, [e])
    requires !Consumed(config, s.plans, e.token, e.supplied, e.uuids, e.now, e.pruneNow).1.Confirmed?
    ensures Inv(config, Step(config, s, e), ClockAfter(e))
  {
    var s' := Step(config, s, e);
    assert s'.deletes == s.deletes && s'.prepared == s.prepared;
    forall token ensures Spent(s', token) <==> Spent(s, token) {}
    forall x <- s'.deletes ensures Authorised(config, s', x) {
      assert Authorised(config, s, x);
    }
  }

  lemma {:induction false} RunKeepsInv(config: Config, s: State, clock: int, events: seq<Event>) returns (end: int)
    requires Inv(config, s, clock) && Plausible(config, s, clock, events)
    ensures end >= clock && Inv(config, Run(config, s, events), end)
    ensures end == if events == [] then clock else ClockAfter(events[|events| - 1])
    decreases |events|
  {
    if events == [] {
      return clock;
    }
    var e := events[0];
    assert Plausible(config, Step(config, s, e), ClockAfter(e), []);
    if e.Prepare? {
      PrepareKeepsInv(config, s, clock, e);
    } else if Consumed(config, s.plans, e.token, e.supplied, e.uuids, e.now, e.pruneNow).1.Confirmed? {
      DeletingKeepsInv(config, s, clock, e);
    } else {
      RefusingKeepsInv(config, s, clock, e);
    }
    end := RunKeepsInv(config, Step(config, s, e), ClockAfter(e), events[1..]);
  }

  /** Over every run: each delete carries exactly the targets of one earlier matched preview, its plan was unexpired,
      and no token is ever used twice. */
  lemma EveryDeleteIsAuthorised(config: Config, clock: int, events: seq<Event>)
    requires Plausible(config, INITIAL, clock, events)
    ensures DeletesAreAuthorised(config, Run(config, INITIAL, events))
  {
    var end := RunKeepsInv(config, INITIAL, clock, events);
  }

  ghost predicate Injective(config: Config) {
    forall a, b :: config.digest(a) == config.digest(b) ==> a == b
  }

  lemma ConfirmedIff(config: Config, s: State, clock: int, e: Event)
    requires Injective(config) && e.Confirm? && Inv(config, s, clock) && clock <= e.now
    ensures Consumed(config, s.plans, e.token, e.supplied, e.uuids, e.now, e.pruneNow).1.Confirmed? <==>
              && e.token in s.prepared && !Spent(s, e.token) && e.now < s.prepared[e.token].at + config.ttlMs
              && e.supplied == Some(HashTargets(config, s.prepared[e.token].uuids))
              && Elements(e.uuids) == Elements(s.prepared[e.token].uuids)
  {
    if e.token in s.prepared {
      NormalizeIsCanonical(e.uuids, s.prepared[e.token].uuids);
    }
  }

  /** After any run, a confirmation deletes exactly when its token was issued, is unspent and unexpired, and both the
      supplied hash and the listed targets, in any order, are those of the plan. */
  lemma ConfirmDeletesIff(config: Config, clock: int, events: seq<Event>, e: Event)
    requires Injective(config) && e.Confirm? && Plausible(config, INITIAL, clock, events)
    requires clock <= e.now && (events != [] ==> ClockAfter(events[|events| - 1]) <= e.now)
    ensures var s := Run(config, INITIAL, events);
            |Step(config, s, e).deletes| > |s.deletes| <==>
              && e.token in s.prepared && !Spent(s, e.token) && e.now < s.prepared[e.token].at + config.ttlMs
              && e.supplied == Some(HashTargets(config, s.prepared[e.token].uuids))
              && Elements(e.uuids) == Elements(s.prepared[e.token].uuids)
  {
    var end := RunKeepsInv(config, INITIAL, clock, events);
    ConfirmedIff(config, Run(config, INITIAL, events), end, e);
  }

  // ---- Refusals ----

  /** `a` lacks only plans of `b` that have expired. */
  ghost predicate Lags(a: State, b: State, clock: int) {
    && a.prepared == b.prepared && a.deletes == b.deletes
    && (forall token <- a.plans :: token in b.plans && b.plans[token] == a.plans[token])
    && (forall token <- b.plans :: token in a.plans || b.plans[token].expiresAt <= clock)
  }

  lemma StepKeepsLag(config: Config, a: State, b: State, clock: int, e: Event)
    requires Lags(a, b, clock) && Plausible(config, b, clock, [e])
    ensures Lags(Step(config, a, e), Step(config, b, e), ClockAfter(e))
  {
  }

  lemma {:induction false} RunKeepsLag(config: Config, a: State, b: State, clock: int, events: seq<Event>)
    requires Lags(a, b, clock) && Plausible(config, b, clock, events)
    ensures Run(config, a, events).deletes == Run(config, b, events).deletes
    ensures Run(config, a, events).prepared == Run(config, b, events).prepared
    decreases |events|
  {
    if events != [] {
      var e := events[0];
      assert Plausible(config, Step(config, b, e), ClockAfter(e), []);
      StepKeepsLag(config, a, b, clock, e);
      RunKeepsLag(config, Step(config, a, e), Step(config, b, e), ClockAfter(e), events[1..]);
    }
  }

  /** A refused confirmation, for whatever reason, is invisible: in every later run the same deletes are routed and
      the same plans issued as without it, so that in particular a plan refused for its targets can still be
      confirmed. */
  lemma RefusalIsInvisible(config: Config, s: State, clock: int, e: Event, later: seq<Event>)
    requires e.Confirm? && !Consumed(config, s.plans, e.token, e.supplied, e.uuids, e.now, e.pruneNow).1.Confirmed?
    requires clock <= e.now <= e.pruneNow && Plausible(config, s, e.pruneNow, later)
    ensures Run(config, Step(config, s, e), later).deletes == Run(config, s, later).deletes
    ensures Run(config, Step(config, s, e), later).prepared == Run(config, s, later).prepared
  {
    RunKeepsLag(config, Step(config, s, e), s, e.pruneNow, later);
  }

  // ---- What is decided, spelled out ----

  /** The preview names as many targets as there are different uuids, and only requested ones. */
  ghost predicate Fits(uuids: seq<string>, targets: seq<string>) {
    |targets| > 0 && |targets| == |Elements(uuids)| && forall t <- targets :: t in uuids
  }

  /** A plan is issued exactly for a preview that is not empty, has as many targets as there are different uuids, and
      names requested ones only; it carries their canonical list, its hash and its deadline. */
  lemma PreparationDecides(config: Config, s: State, e: Event)
    requires e.Prepare? && e.token !in s.prepared
    ensures var s' := Step(config, s, e);
            var fits := Fits(e.uuids, e.targets);
            && (!fits ==> s' == s)
            && (fits ==> && s'.deletes == s.deletes
                         && s'.prepared == s.prepared[e.token := Prepared(e.uuids, e.targets, e.now)]
                         && e.token in s'.plans && s'.plans[e.token].uuids == Normalize(e.uuids)
                         && s'.plans[e.token].targetHash == config.digest(Normalize(e.uuids))
                         && s'.plans[e.token].expiresAt == e.now + config.ttlMs
                         && (forall t <- s'.plans :: t == e.token || (t in s.plans && s'.plans[t] == s.plans[t]
                                                                       && e.pruneNow < s.plans[t].expiresAt)))
  {
    NormalizeIsIdempotent(e.uuids);
  }

  ghost predicate Issues(e: Event, token: string) {
    e.Prepare? && e.token == token && Fits(e.uuids, e.targets)
  }

  /** The plans of a run are those that its fitting previews issued. */
  lemma {:induction false} PreparedWasIssued(config: Config, s: State, clock: int, events: seq<Event>, token: string)
    requires Plausible(config, s, clock, events)
    ensures var s' := Run(config, s, events);
            && (token in s'.prepared <==> token in s.prepared || exists e <- events :: Issues(e, token))
            && (token in s.prepared ==> s'.prepared[token] == s.prepared[token])
            && (forall e <- events | Issues(e, token) :: s'.prepared[token] == Prepared(e.uuids, e.targets, e.now))
    decreases |events|
  {
    if events != [] {
      var e := events[0];
      if e.Prepare? {
        PreparationDecides(config, s, e);
      }
      PreparedWasIssued(config, Step(config, s, e), ClockAfter(e), events[1..], token);
      assert forall x :: x in events <==> x == e || x in events[1..];
      assert Issues(e, token) ==> e in events;
    }
  }

  /** The deletes of a run are confirmations of it. */
  lemma {:induction false} DeletedWasConfirmed(config: Config, s: State, events: seq<Event>, d: Delete)
    ensures d in Run(config, s, events).deletes ==>
              d in s.deletes || exists e <- events :: e.Confirm? && e.token == d.token && e.now == d.at
    decreases |events|
  {
    if events != [] {
      DeletedWasConfirmed(config, Step(config, s, events[0]), events[1..], d);
      assert events == [events[0]] + events[1..];
    }
  }

  /** Why a confirmation is refused: unknown means never issued, already used, or dropped after its deadline; expired
      means the deadline has passed; changed means that neither is the case. */
  ghost predicate SaysWhy(config: Config, s: State, e: Event, plans: Plans, outcome: Outcome)
    requires e.Confirm?
  {
    && (e.token !in s.prepared || Spent(s, e.token) ==> outcome == Invalid && plans == s.plans)
    && (e.token in s.prepared && !Spent(s, e.token) ==>
          var late := s.prepared[e.token].at + config.ttlMs <= e.now;
          && (late <==> outcome == Invalid || outcome == Expired)
          && (outcome == Expired ==> e.token in s.plans && e.token !in plans)
          && (outcome == Invalid ==> e.token !in s.plans)
          && (outcome.Confirmed? ==> e.token !in plans && outcome.uuids == Normalize(s.prepared[e.token].uuids))
          && (outcome == TargetChanged && e.pruneNow < s.prepared[e.token].at + config.ttlMs ==> e.token in plans))
  }

  lemma RefusingSaysWhy(config: Config, s: State, clock: int, e: Event)
    requires e.Confirm? && Inv(config, s, clock) && clock <= e.now
    ensures var (plans, outcome) := Consumed(config, s.plans, e.token, e.supplied, e.uuids, e.now, e.pruneNow);
            SaysWhy(config, s, e, plans, outcome)
  {
  }

  /** After any run, a refusal says why. */
  lemma RefusalSaysWhy(config: Config, clock: int, events: seq<Event>, e: Event)
    requires e.Confirm? && Plausible(config, INITIAL, clock, events)
    requires clock <= e.now && (events != [] ==> ClockAfter(events[|events| - 1]) <= e.now)
    ensures var s := Run(config, INITIAL, events);
            var (plans, outcome) := Consumed(config, s.plans, e.token, e.supplied, e.uuids, e.now, e.pruneNow);
            SaysWhy(config, s, e, plans, outcome)
  {
    var end := RunKeepsInv(config, INITIAL, clock, events);
    RefusingSaysWhy(config, Run(config, INITIAL, events), end, e);
  }

  /** A fitting preview can be confirmed after any run that has not spent its token, until its deadline, by listing the
      same targets in any order and with any repetitions. */
  lemma FittingPreviewCanBeConfirmed(config: Config, clock: int, events: seq<Event>, issued: Event, e: Event)
    requires Injective(config) && Plausible(config, INITIAL, clock, events) && issued in events
    requires Issues(issued, issued.token) && e.Confirm? && e.token == issued.token
    requires clock <= e.now && ClockAfter(events[|events| - 1]) <= e.now < issued.now + config.ttlMs
    requires !Spent(Run(config, INITIAL, events), e.token)
    requires e.supplied == Some(config.digest(Normalize(issued.uuids))) && Elements(e.uuids) == Elements(issued.uuids)
    ensures var s := Run(config, INITIAL, events);
            Step(config, s, e).deletes == s.deletes + [Delete(e.token, Normalize(issued.uuids), e.now)]
  {
    var s := Run(config, INITIAL, events);
    PreparedWasIssued(config, INITIAL, clock, events, e.token);
    NormalizeIsIdempotent(issued.uuids);
    ConfirmDeletesIff(config, clock, events, e);
    RefusalSaysWhy(config, clock, events, e);
  }

  /** What the preview says of one document. */
  predicate Says(d: Document, text: string) {
    var title := if d.name.Some? then d.name.value else d.id;
    if d.documentName == "Actor" then text == "Actor " + title + " and its embedded documents will be deleted."
    else if d.documentName == "Scene" then text == "Scene " + title + " and its embedded placeables will be deleted."
    else d.parent.Some?
         && text == d.documentName + " " + title + " will be removed from "
                    + (if d.parent.value.name.Some? then d.parent.value.name.value else d.parent.value.id) + "."
  }

  lemma ConsequenceSays(d: Document, text: string)
    ensures text in Consequence(d) <==> Says(d, text)
  {
  }

  /** The consequences are exactly what is to be said of the documents listed. */
  lemma {:induction false} ConsequencesMeaning(world: map<string, Document>, entries: seq<Option<string>>, text: string)
    requires AllNamed(world, entries)
    ensures text in Consequences(world, entries) <==>
              exists entry <- entries :: entry.Some? && entry.value in world && Says(world[entry.value], text)
  {
    if entries != [] {
      var init, last := entries[..|entries| - 1], entries[|entries| - 1];
      assert entries == init + [last] && Names(world, last);
      ConsequencesMeaning(world, init, text);
      ConsequenceSays(world[last.value], text);
    }
  }
}
