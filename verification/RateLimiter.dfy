// The fixed-window limiter in front of the HTTP endpoint, with its lazy pruning.
module RateLimiter {

  /** `limit` requests per `windowMs` milliseconds and client. */
  datatype Limits = Limits(limit: nat, windowMs: nat)

  datatype Bucket = Bucket(count: nat, resetAt: int)

  type Buckets = map<string, Bucket>

  datatype Request = Request(key: string, now: int)

  /** What the client sees: the verdict, the remaining count and the time of the reset. */
  datatype Reply = Reply(accepted: bool, remaining: nat, resetAt: int)

  datatype Served = Served(request: Request, reply: Reply)

  const PRUNE_ABOVE: nat := 1000

  /** The bucket of the client once this request has been charged to it. */
  function Charge(limits: Limits, buckets: Buckets, request: Request): Bucket {
    if request.key !in buckets || buckets[request.key].resetAt <= request.now
    then Bucket(1, request.now + limits.windowMs)
    else buckets[request.key].(count := buckets[request.key].count + 1)
  }

  function Answer(limits: Limits, bucket: Bucket): Reply {
    Reply(bucket.count <= limits.limit,
          if bucket.count <= limits.limit then limits.limit - bucket.count else 0,
          bucket.resetAt)
  }

  function Live(buckets: Buckets, now: int): Buckets {
    map key | key in buckets && now < buckets[key].resetAt :: buckets[key]
  }

  /** The buckets after one request; only an accepted request on a large table prunes. */
  function After(limits: Limits, buckets: Buckets, request: Request): Buckets {
    var bucket := Charge(limits, buckets, request);
    var charged := buckets[request.key := bucket];
    if bucket.count <= limits.limit && |charged| > PRUNE_ABOVE then Live(charged, request.now) else charged
  }

  class Limiter {
    const limits: Limits
    var buckets: Buckets

    constructor (limits: Limits)
      ensures this.limits == limits && buckets == map[]
    {
      this.limits := limits;
      buckets := map[];
    }

    method Prune(now: int)
      modifies this
      ensures buckets == Live(old(buckets), now)
    {
      var todo := buckets.Keys;
      while todo != {}
        invariant todo <= old(buckets).Keys
        invariant buckets == map key | key in old(buckets) && (key in todo || now < old(buckets)[key].resetAt) ::
                    old(buckets)[key]
        decreases todo
      {
        var key :| key in todo;
        if buckets[key].resetAt <= now {
          buckets := buckets - {key};
        }
        todo := todo - {key};
      }
    }

    method Handle(key: string, now: int) returns (reply: Reply)
      modifies this
      ensures buckets == After(limits, old(buckets), Request(key, now))
      ensures reply == Answer(limits, Charge(limits, old(buckets), Request(key, now)))
    {
      var bucket := if key !in buckets || buckets[key].resetAt <= now
                    then Bucket(0, now + limits.windowMs)
                    else buckets[key];
      bucket := bucket.(count := bucket.count + 1);
      buckets := buckets[key := bucket];
      var remaining := if bucket.count <= limits.limit then limits.limit - bucket.count else 0;
      if bucket.count > limits.limit {
        return Reply(false, remaining, bucket.resetAt);
      }
      if |buckets| > PRUNE_ABOVE {
        Prune(now);
      }
      return Reply(true, remaining, bucket.resetAt);
    }
  }

  // ---- Runs ----

  ghost predicate NonDecreasing(clock: int, trace: seq<Request>) {
    && (forall i :: 0 <= i < |trace| ==> clock <= trace[i].now)
    && (forall i, j :: 0 <= i < j < |trace| ==> trace[i].now <= trace[j].now)
  }

  /** Every request of the trace together with its reply, for the limiter that prunes. */
  function Serve(limits: Limits, buckets: Buckets, trace: seq<Request>): (served: seq<Served>)
    ensures |served| == |trace|
    ensures forall i :: 0 <= i < |trace| ==> served[i].request == trace[i]
    decreases |trace|
  {
    if trace == [] then []
    else [Served(trace[0], Answer(limits, Charge(limits, buckets, trace[0])))]
         + Serve(limits, After(limits, buckets, trace[0]), trace[1..])
  }

  /** The reference limiter: the same decisions, and no bucket is ever dropped. */
  function ServeUnpruned(limits: Limits, buckets: Buckets, trace: seq<Request>): (served: seq<Served>)
    ensures |served| == |trace|
    ensures forall i :: 0 <= i < |trace| ==> served[i].request == trace[i]
    decreases |trace|
  {
    if trace == [] then []
    else var bucket := Charge(limits, buckets, trace[0]);
         [Served(trace[0], Answer(limits, bucket))]
         + ServeUnpruned(limits, buckets[trace[0].key := bucket], trace[1..])
  }

  /** The pruned table may lack only buckets that the clock has already passed. */
  ghost predicate Simulates(pruned: Buckets, full: Buckets, clock: int) {
    && (forall key <- pruned :: key in full && full[key] == pruned[key])
    && (forall key <- full :: key in pruned || full[key].resetAt <= clock)
  }

  lemma {:induction false} SimulationKeepsReplies(limits: Limits, pruned: Buckets, full: Buckets, clock: int,
      trace: seq<Request>)
    requires Simulates(pruned, full, clock) && NonDecreasing(clock, trace)
    ensures Serve(limits, pruned, trace) == ServeUnpruned(limits, full, trace)
    decreases |trace|
  {
    if trace != [] {
      var bucket := Charge(limits, pruned, trace[0]);
      assert bucket == Charge(limits, full, trace[0]);
      SimulationKeepsReplies(limits, After(limits, pruned, trace[0]), full[trace[0].key := bucket], trace[0].now,
        trace[1..]);
    }
  }

  /** Pruning is invisible: verdict, remaining count and reset time never differ from the reference limiter. */
  lemma PruningIsInvisible(limits: Limits, trace: seq<Request>)
    requires forall i, j :: 0 <= i < j < |trace| ==> trace[i].now <= trace[j].now
    ensures Serve(limits, map[], trace) == ServeUnpruned(limits, map[], trace)
  {
    if trace != [] {
      SimulationKeepsReplies(limits, map[], map[], trace[0].now, trace);
    }
  }

  // ---- How many requests get through ----

  /** Accepted requests of `key` whose time lies in [from, to). */
  function AcceptedIn(served: seq<Served>, key: string, from: int, to: int): nat {
    if served == [] then 0
    else var s := served[0];
         (if s.reply.accepted && s.request.key == key && from <= s.request.now < to then 1 else 0)
         + AcceptedIn(served[1..], key, from, to)
  }

  lemma {:induction false} AcceptedInSnoc(served: seq<Served>, last: Served, key: string, from: int, to: int)
    ensures AcceptedIn(served + [last], key, from, to)
            == AcceptedIn(served, key, from, to) + AcceptedIn([last], key, from, to)
  {
    if served != [] {
      assert (served + [last])[1..] == served[1..] + [last];
      AcceptedInSnoc(served[1..], last, key, from, to);
    }
  }

  lemma {:induction false} NoneLater(served: seq<Served>, key: string, from: int, to: int)
    requires forall s <- served :: s.request.key == key ==> s.request.now < from || to <= s.request.now
    ensures AcceptedIn(served, key, from, to) == 0
  {
    if served != [] {
      NoneLater(served[1..], key, from, to);
    }
  }

  /** A served request lies in the window it was told about, which admits at most `limit` requests and
      is either the current window of its client or over before that one began. */
  ghost predicate SettledWindow(limits: Limits, buckets: Buckets, past: seq<Served>, s: Served) {
    && s.request.key in buckets
    && s.reply.resetAt - limits.windowMs <= s.request.now < s.reply.resetAt
    && (s.reply.resetAt == buckets[s.request.key].resetAt
       || s.reply.resetAt <= buckets[s.request.key].resetAt - limits.windowMs)
    && AcceptedIn(past, s.request.key, s.reply.resetAt - limits.windowMs, s.reply.resetAt) <= limits.limit
  }

  /** What the reference table remembers about the requests served so far. */
  ghost predicate Remembers(limits: Limits, buckets: Buckets, past: seq<Served>, clock: int) {
    && (forall s <- past :: s.request.now <= clock && s.request.key in buckets)
    && (forall key <- buckets :: buckets[key].count >= 1 && buckets[key].resetAt <= clock + limits.windowMs)
    && (forall key <- buckets :: AcceptedIn(past, key, buckets[key].resetAt - limits.windowMs, buckets[key].resetAt)
          == if buckets[key].count <= limits.limit then buckets[key].count else limits.limit)
    && (forall s <- past :: SettledWindow(limits, buckets, past, s))
  }

  lemma ChargedCount(limits: Limits, buckets: Buckets, past: seq<Served>, clock: int, request: Request)
    requires limits.windowMs > 0 && Remembers(limits, buckets, past, clock) && clock <= request.now
    ensures var bucket := Charge(limits, buckets, request);
            AcceptedIn(past, request.key, bucket.resetAt - limits.windowMs, bucket.resetAt)
            == if bucket.count - 1 <= limits.limit then bucket.count - 1 else limits.limit
  {
    var bucket := Charge(limits, buckets, request);
    if request.key !in buckets || buckets[request.key].resetAt <= request.now {
      forall s <- past | s.request.key == request.key ensures s.request.now < request.now {
        assert SettledWindow(limits, buckets, past, s);
      }
      NoneLater(past, request.key, bucket.resetAt - limits.windowMs, bucket.resetAt);
    }
  }

  lemma StillSettled(limits: Limits, buckets: Buckets, past: seq<Served>, clock: int, request: Request, s: Served)
    requires limits.windowMs > 0 && Remembers(limits, buckets, past, clock) && clock <= request.now && s in past
    ensures var bucket := Charge(limits, buckets, request);
            var last := Served(request, Answer(limits, bucket));
            SettledWindow(limits, buckets[request.key := bucket], past + [last], s)
  {
    var bucket := Charge(limits, buckets, request);
    var last := Served(request, Answer(limits, bucket));
    AcceptedInSnoc(past, last, s.request.key, s.reply.resetAt - limits.windowMs, s.reply.resetAt);
    assert SettledWindow(limits, buckets, past, s);
    if s.request.key == request.key && s.reply.resetAt == bucket.resetAt {
      ChargedCount(limits, buckets, past, clock, request);
    }
  }

  lemma LastCounts(last: Served, windowMs: nat)
    requires last.reply.resetAt - windowMs <= last.request.now < last.reply.resetAt
    ensures AcceptedIn([last], last.request.key, last.reply.resetAt - windowMs, last.reply.resetAt)
         == if last.reply.accepted then 1 else 0
  {
    assert AcceptedIn([last][1..], last.request.key, last.reply.resetAt - windowMs, last.reply.resetAt) == 0;
  }

  lemma CountsAfter(limits: Limits, buckets: Buckets, past: seq<Served>, clock: int, request: Request, key: string)
    requires limits.windowMs > 0 && Remembers(limits, buckets, past, clock) && clock <= request.now
    requires key in buckets || key == request.key
    ensures var bucket := Charge(limits, buckets, request);
            var b := buckets[request.key := bucket][key];
            AcceptedIn(past + [Served(request, Answer(limits, bucket))], key, b.resetAt - limits.windowMs, b.resetAt)
            == if b.count <= limits.limit then b.count else limits.limit
  {
    var bucket := Charge(limits, buckets, request);
    var b := buckets[request.key := bucket][key];
    var last := Served(request, Answer(limits, bucket));
    AcceptedInSnoc(past, last, key, b.resetAt - limits.windowMs, b.resetAt);
    if key == request.key {
      ChargedCount(limits, buckets, past, clock, request);
      LastCounts(last, limits.windowMs);
    } else {
      NoneLater([last], key, b.resetAt - limits.windowMs, b.resetAt);
    }
  }

  lemma LastIsSettled(limits: Limits, buckets: Buckets, past: seq<Served>, clock: int, request: Request)
    requires limits.windowMs > 0 && Remembers(limits, buckets, past, clock) && clock <= request.now
    ensures var bucket := Charge(limits, buckets, request);
            var last := Served(request, Answer(limits, bucket));
            SettledWindow(limits, buckets[request.key := bucket], past + [last], last)
  {
    CountsAfter(limits, buckets, past, clock, request, request.key);
  }

  lemma AllSettledAfter(limits: Limits, buckets: Buckets, past: seq<Served>, clock: int, request: Request)
    requires limits.windowMs > 0 && Remembers(limits, buckets, past, clock) && clock <= request.now
    ensures var bucket := Charge(limits, buckets, request);
            var all := past + [Served(request, Answer(limits, bucket))];
            forall s <- all :: SettledWindow(limits, buckets[request.key := bucket], all, s)
  {
    var bucket := Charge(limits, buckets, request);
    var last := Served(request, Answer(limits, bucket));
    forall s <- past + [last] ensures SettledWindow(limits, buckets[request.key := bucket], past + [last], s) {
      if s in past {
        StillSettled(limits, buckets, past, clock, request, s);
      } else {
        LastIsSettled(limits, buckets, past, clock, request);
      }
    }
  }

  lemma RemembersStep(limits: Limits, buckets: Buckets, past: seq<Served>, clock: int, request: Request)
    requires limits.windowMs > 0 && Remembers(limits, buckets, past, clock) && clock <= request.now
    ensures var bucket := Charge(limits, buckets, request);
            Remembers(limits, buckets[request.key := bucket], past + [Served(request, Answer(limits, bucket))],
              request.now)
  {
    var bucket := Charge(limits, buckets, request);
    var next := buckets[request.key := bucket];
    var last := Served(request, Answer(limits, bucket));
    forall key <- next
      ensures AcceptedIn(past + [last], key, next[key].resetAt - limits.windowMs, next[key].resetAt)
           == if next[key].count <= limits.limit then next[key].count else limits.limit
    {
      CountsAfter(limits, buckets, past, clock, request, key);
    }
    AllSettledAfter(limits, buckets, past, clock, request);
  }

  /** Request `i` is turned away exactly when its window had already admitted `limit` requests of that client, and the
      remaining count it is told is the room left in that window. */
  ghost predicate RejectedIffFull(limits: Limits, all: seq<Served>, i: nat)
    requires i < |all|
  {
    var end := all[i].reply.resetAt;
    var before := AcceptedIn(all[..i], all[i].request.key, end - limits.windowMs, end);
    && end - limits.windowMs <= all[i].request.now < end
    && (!all[i].reply.accepted <==> before >= limits.limit)
    && all[i].reply.remaining == if all[i].reply.accepted then limits.limit - before - 1 else 0
  }

  ghost predicate WindowCapped(limits: Limits, all: seq<Served>, s: Served) {
    AcceptedIn(all, s.request.key, s.reply.resetAt - limits.windowMs, s.reply.resetAt) <= limits.limit
  }

  lemma RememberedAreCapped(limits: Limits, buckets: Buckets, past: seq<Served>, clock: int)
    requires Remembers(limits, buckets, past, clock)
    ensures forall s <- past :: WindowCapped(limits, past, s)
  {
  }

  lemma ChargedIsExact(limits: Limits, buckets: Buckets, past: seq<Served>, clock: int, request: Request,
      all: seq<Served>)
    requires limits.windowMs > 0 && Remembers(limits, buckets, past, clock) && clock <= request.now
    requires |past| < |all| && all[..|past|] == past
             && all[|past|] == Served(request, Answer(limits, Charge(limits, buckets, request)))
    ensures RejectedIffFull(limits, all, |past|)
  {
    ChargedCount(limits, buckets, past, clock, request);
  }

  lemma {:induction false} WindowsFrom(limits: Limits, buckets: Buckets, past: seq<Served>, clock: int,
      trace: seq<Request>, all: seq<Served>)
    requires limits.windowMs > 0 && Remembers(limits, buckets, past, clock) && NonDecreasing(clock, trace)
    requires all == past + ServeUnpruned(limits, buckets, trace)
    ensures forall i :: |past| <= i < |all| ==> RejectedIffFull(limits, all, i)
    ensures forall s <- all :: WindowCapped(limits, all, s)
    decreases |trace|
  {
    if trace == [] {
      assert all == past;
      RememberedAreCapped(limits, buckets, past, clock);
    } else {
      var bucket := Charge(limits, buckets, trace[0]);
      var last := Served(trace[0], Answer(limits, bucket));
      RemembersStep(limits, buckets, past, clock, trace[0]);
      assert all == (past + [last]) + ServeUnpruned(limits, buckets[trace[0].key := bucket], trace[1..]);
      WindowsFrom(limits, buckets[trace[0].key := bucket], past + [last], trace[0].now, trace[1..], all);
      assert all[..|past|] == past && all[|past|] == last;
      ChargedIsExact(limits, buckets, past, clock, trace[0], all);
    }
  }

  /** For the pruning limiter: a rejection means a full window, a full window means rejection,
      and no window admits more than `limit`. */
  lemma WindowsAreExact(limits: Limits, trace: seq<Request>)
    requires limits.windowMs > 0
    requires forall i, j :: 0 <= i < j < |trace| ==> trace[i].now <= trace[j].now
    ensures var all := Serve(limits, map[], trace);
            && (forall i :: 0 <= i < |all| ==> RejectedIffFull(limits, all, i))
            && (forall s <- all :: WindowCapped(limits, all, s))
  {
    if trace != [] {
      PruningIsInvisible(limits, trace);
      WindowsFrom(limits, map[], [], trace[0].now, trace, Serve(limits, map[], trace));
    }
  }

  // ---- Any interval of one window length ----

  ghost predicate Charged(buckets: Buckets) {
    forall key <- buckets :: buckets[key].count >= 1
  }

  function Left(limits: Limits, bucket: Bucket): nat {
    if bucket.count <= limits.limit then limits.limit - bucket.count else 0
  }

  /** While a bucket stays live its client gets only what is left in it. */
  lemma {:induction false} LiveBucketBound(limits: Limits, buckets: Buckets, clock: int, key: string, from: int,
      to: int, trace: seq<Request>)
    requires NonDecreasing(clock, trace) && key in buckets && to <= buckets[key].resetAt
    ensures AcceptedIn(ServeUnpruned(limits, buckets, trace), key, from, to) <= Left(limits, buckets[key])
    decreases |trace|
  {
    if trace != [] {
      if trace[0].now < to {
        var next := buckets[trace[0].key := Charge(limits, buckets, trace[0])];
        LiveBucketBound(limits, next, trace[0].now, key, from, to, trace[1..]);
      } else {
        NoneLater(ServeUnpruned(limits, buckets, trace), key, from, to);
      }
    }
  }

  /** Once the clock is inside the interval, at most one further window can open in it. */
  lemma {:induction false} TwoWindowBound(limits: Limits, buckets: Buckets, clock: int, key: string, from: int,
      trace: seq<Request>)
    requires Charged(buckets) && NonDecreasing(clock, trace) && from <= clock
    ensures AcceptedIn(ServeUnpruned(limits, buckets, trace), key, from, from + limits.windowMs)
         <= limits.limit + if key in buckets then Left(limits, buckets[key]) else 0
    decreases |trace|
  {
    var to := from + limits.windowMs;
    if trace != [] {
      var bucket := Charge(limits, buckets, trace[0]);
      var next := buckets[trace[0].key := bucket];
      if trace[0].key == key && bucket.count == 1 {
        LiveBucketBound(limits, next, trace[0].now, key, from, to, trace[1..]);
      } else {
        TwoWindowBound(limits, next, trace[0].now, key, from, trace[1..]);
      }
    }
  }

  lemma {:induction false} IntervalBoundFrom(limits: Limits, buckets: Buckets, clock: int, key: string, from: int,
      trace: seq<Request>)
    requires Charged(buckets) && NonDecreasing(clock, trace)
    ensures AcceptedIn(ServeUnpruned(limits, buckets, trace), key, from, from + limits.windowMs)
         <= if limits.limit == 0 then 0 else 2 * limits.limit - 1
    decreases |trace|
  {
    if trace != [] {
      if trace[0].now < from {
        var next := buckets[trace[0].key := Charge(limits, buckets, trace[0])];
        IntervalBoundFrom(limits, next, trace[0].now, key, from, trace[1..]);
      } else {
        TwoWindowBound(limits, buckets, trace[0].now, key, from, trace);
      }
    }
  }

  /** In no interval of one window length does a client get `2 * limit` requests accepted. */
  lemma IntervalBound(limits: Limits, trace: seq<Request>, key: string, from: int)
    requires forall i, j :: 0 <= i < j < |trace| ==> trace[i].now <= trace[j].now
    ensures AcceptedIn(Serve(limits, map[], trace), key, from, from + limits.windowMs)
         <= if limits.limit == 0 then 0 else 2 * limits.limit - 1
  {
    PruningIsInvisible(limits, trace);
    if trace != [] {
      IntervalBoundFrom(limits, map[], trace[0].now, key, from, trace);
    }
  }

  function Burst(key: string, now: int, n: nat): (trace: seq<Request>)
    ensures |trace| == n && forall r <- trace :: r == Request(key, now)
  {
    seq(n, i => Request(key, now))
  }

  /** The buckets with `n` more requests counted for one client. */
  function Counted(buckets: Buckets, key: string, n: nat): Buckets
    requires key in buckets
  {
    buckets[key := Bucket(buckets[key].count + n, buckets[key].resetAt)]
  }

  lemma OneMoreAccepted(limits: Limits, buckets: Buckets, trace: seq<Request>, from: int, to: int)
    requires trace != [] && trace[0].key in buckets && trace[0].now < buckets[trace[0].key].resetAt
    requires Left(limits, buckets[trace[0].key]) >= 1 && from <= trace[0].now < to
    ensures var key := trace[0].key;
            AcceptedIn(ServeUnpruned(limits, buckets, trace), key, from, to)
            == 1 + AcceptedIn(ServeUnpruned(limits, Counted(buckets, key, 1), trace[1..]), key, from, to)
  {
  }

  lemma BurstUnfolds(key: string, now: int, n: nat, later: seq<Request>)
    requires n > 0
    ensures var trace := Burst(key, now, n) + later;
            trace != [] && trace[0] == Request(key, now) && trace[1..] == Burst(key, now, n - 1) + later
  {
    assert Burst(key, now, n)[0] in Burst(key, now, n);
  }

  lemma {:induction false} BurstAccepted(limits: Limits, buckets: Buckets, key: string, now: int, n: nat,
      later: seq<Request>, from: int, to: int)
    requires key in buckets && now < buckets[key].resetAt && n <= Left(limits, buckets[key]) && from <= now < to
    ensures AcceptedIn(ServeUnpruned(limits, buckets, Burst(key, now, n) + later), key, from, to)
         == n + AcceptedIn(ServeUnpruned(limits, Counted(buckets, key, n), later), key, from, to)
    decreases n
  {
    if n == 0 {
      assert Burst(key, now, 0) + later == later;
      assert Counted(buckets, key, 0) == buckets;
    } else {
      var next := Counted(buckets, key, 1);
      BurstUnfolds(key, now, n, later);
      OneMoreAccepted(limits, buckets, Burst(key, now, n) + later, from, to);
      BurstAccepted(limits, next, key, now, n - 1, later, from, to);
      assert Counted(next, key, n - 1) == Counted(buckets, key, n);
    }
  }

  function SecondBurst(limits: Limits, key: string): seq<Request>
    requires limits.limit >= 1
  {
    [Request(key, limits.windowMs)] + Burst(key, limits.windowMs, limits.limit - 1)
  }

  /** One early request, the rest of its window just before it closes, and a full window just after. */
  function TwoBursts(limits: Limits, key: string): seq<Request>
    requires limits.limit >= 1 && limits.windowMs >= 1
  {
    [Request(key, 0)] + (Burst(key, limits.windowMs - 1, limits.limit - 1) + SecondBurst(limits, key))
  }

  lemma SecondBurstAccepted(limits: Limits, buckets: Buckets, key: string)
    requires limits.limit >= 1 && limits.windowMs >= 1
    requires key in buckets && buckets[key].resetAt == limits.windowMs
    ensures AcceptedIn(ServeUnpruned(limits, buckets, SecondBurst(limits, key)), key, 1, 1 + limits.windowMs)
            == limits.limit
  {
    var w := limits.windowMs;
    var next := buckets[key := Bucket(1, w + w)];
    assert SecondBurst(limits, key)[1..] == Burst(key, w, limits.limit - 1) + [];
    BurstAccepted(limits, next, key, w, limits.limit - 1, [], 1, 1 + w);
  }

  /** The bound is attained, for every limit and every window of at least two milliseconds. */
  lemma IntervalBoundIsTight(limits: Limits, key: string)
    requires limits.limit >= 1 && limits.windowMs >= 2
    ensures forall i, j :: 0 <= i < j < |TwoBursts(limits, key)| ==>
              TwoBursts(limits, key)[i].now <= TwoBursts(limits, key)[j].now
    ensures AcceptedIn(Serve(limits, map[], TwoBursts(limits, key)), key, 1, 1 + limits.windowMs)
            == 2 * limits.limit - 1
  {
    var w := limits.windowMs;
    var trace := TwoBursts(limits, key);
    PruningIsInvisible(limits, trace);
    var start := map[key := Bucket(1, w)];
    assert trace[1..] == Burst(key, w - 1, limits.limit - 1) + SecondBurst(limits, key);
    BurstAccepted(limits, start, key, w - 1, limits.limit - 1, SecondBurst(limits, key), 1, 1 + w);
    SecondBurstAccepted(limits, start[key := Bucket(limits.limit, w)], key);
  }

  // ---- What pruning is for ----

  /** After an accepted request that finds more than a thousand buckets, none is left that has expired; no live bucket
      is ever dropped, and no other request drops any. */
  lemma PruningDecides(limits: Limits, buckets: Buckets, request: Request)
    ensures var bucket := Charge(limits, buckets, request);
            var after := After(limits, buckets, request);
            var prunes := Answer(limits, bucket).accepted && |buckets[request.key := bucket]| > 1000;
            && (forall key <- after :: key == request.key || (key in buckets && after[key] == buckets[key]))
            && (forall key <- buckets :: key != request.key && request.now < buckets[key].resetAt ==> key in after)
            && (prunes ==> forall key <- after :: request.now < after[key].resetAt)
            && (!prunes ==> after.Keys == buckets.Keys + {request.key})
  {
  }
}
