// The profile lock between processes, one system call at a time: opening and writing are two steps, and so are reading
// and unlinking.
module LockRace {
  import opened Common
  import opened Text
  import L = ProfileLock

  /** A file on disk; `id` tells it from any other file that had the same path. */
  datatype File = File(id: nat, content: string)

  datatype Phase = Opening | Writing | Reading | Unlinking | Holding | Done

  /** A contender; `file` is the file it opened last. */
  datatype Attempt = Attempt(pid: nat, phase: Phase, file: nat)

  datatype State = State(file: Option<File>, next: nat, attempts: map<nat, Attempt>, alive: set<nat>, known: set<nat>)

  const INITIAL := State(None, 0, map[], {}, {})

  datatype Event =
    | Spawns(pid: nat)
    | Dies(pid: nat)
    | Begins(attempt: nat, pid: nat)
    | Opens(attempt: nat)
    | Writes(attempt: nat)
    | WriteFails(attempt: nat, left: string)
    | Reads(attempt: nat)
    | Unlinks(attempt: nat)
    | Releases(attempt: nat)

  predicate Runs(s: State, attempt: nat, phase: Phase) {
    attempt in s.attempts && s.attempts[attempt].phase == phase && s.attempts[attempt].pid in s.alive
  }

  function Moved(s: State, attempt: nat, phase: Phase): State
    requires attempt in s.attempts
  {
    s.(attempts := s.attempts[attempt := s.attempts[attempt].(phase := phase)])
  }

  /** Writing goes to the file that was opened, whether or not it still has its path. */
  function Filled(file: Option<File>, id: nat, content: string): Option<File> {
    if file.Some? && file.value.id == id then Some(File(id, content)) else file
  }

  /** A conflict sends the contender to look at the file; otherwise it has opened a new, empty one. */
  function Open(s: State, attempt: nat): State
    requires attempt in s.attempts
  {
    if s.file.Some? then Moved(s, attempt, Reading)
    else s.(file := Some(File(s.next, "")), next := s.next + 1,
            attempts := s.attempts[attempt := s.attempts[attempt].(phase := Writing, file := s.next)])
  }

  /** What a reader does next: unlink a file that names no live process, else try again. */
  function Judged(setting: L.Setting, s: State): Phase {
    if s.file.Some? && L.Stale(setting, s.alive, Some(s.file.value.content)) then Unlinking else Opening
  }

  function Step(setting: L.Setting, s: State, e: Event): State {
    match e
    case Spawns(pid) => if pid == 0 || pid in s.known then s else s.(alive := s.alive + {pid}, known := s.known + {pid})
    case Dies(pid) => s.(alive := s.alive - {pid})
    case Begins(attempt, pid) =>
      if attempt in s.attempts || pid !in s.alive then s
      else s.(attempts := s.attempts[attempt := Attempt(pid, Opening, 0)])
    case Opens(attempt) => if Runs(s, attempt, Opening) then Open(s, attempt) else s
    case Writes(attempt) =>
      if !Runs(s, attempt, Writing) then s else
        var a := s.attempts[attempt];
        Moved(s, attempt, Holding).(file := Filled(s.file, a.file, L.LockText(a.pid)))
    case WriteFails(attempt, left) =>
      if !Runs(s, attempt, Writing) then s
      else Moved(s, attempt, Done).(file := Filled(s.file, s.attempts[attempt].file, left))
    case Reads(attempt) => if Runs(s, attempt, Reading) then Moved(s, attempt, Judged(setting, s)) else s
    case Unlinks(attempt) => if Runs(s, attempt, Unlinking) then Moved(s, attempt, Opening).(file := None) else s
    case Releases(attempt) => if Runs(s, attempt, Holding) then Moved(s, attempt, Done).(file := None) else s
  }

  function Run(setting: L.Setting, s: State, events: seq<Event>): State
    decreases |events|
  {
    if events == [] then s else Run(setting, Step(setting, s, events[0]), events[1..])
  }

  // ---- Exclusion and its guard ----

  predicate Holds(s: State, attempt: nat) {
    Runs(s, attempt, Holding)
  }

  /** Between opening and release: a live contender that holds the lock or is about to. */
  predicate Owns(s: State, attempt: nat) {
    Runs(s, attempt, Writing) || Runs(s, attempt, Holding)
  }

  /** At most one owner, whose file is the one on disk: empty until it has been written, then with the owner's pid. */
  ghost predicate Exclusive(s: State) {
    && (forall a: nat, b: nat | Owns(s, a) && Owns(s, b) :: a == b)
    && (forall a: nat | Owns(s, a) :: s.file == Some(File(s.attempts[a].file,
          if s.attempts[a].phase.Holding? then L.LockText(s.attempts[a].pid) else "")))
  }

  ghost predicate Inv(s: State) {
    && Exclusive(s)
    && s.alive <= s.known && 0 !in s.known && (forall a <- s.attempts :: s.attempts[a].pid in s.known)
  }

  /** Nobody owns the file that is about to be unlinked. */
  ghost predicate Unowned(s: State) {
    forall a: nat :: !Owns(s, a)
  }

  ghost predicate Guarded(s: State, e: Event) {
    e.Unlinks? && Runs(s, e.attempt, Unlinking) ==> Unowned(s)
  }

  lemma OpenKeepsInv(s: State, attempt: nat)
    requires Inv(s) && Runs(s, attempt, Opening)
    ensures Inv(Open(s, attempt))
  {
    var s' := Open(s, attempt);
    forall a: nat | a != attempt ensures Owns(s', a) <==> Owns(s, a) {}
  }

  /** A write, complete or not, fills the owner's own file. */
  lemma WriteKeepsInv(s: State, attempt: nat, phase: Phase, content: string)
    requires Inv(s) && Runs(s, attempt, Writing)
    requires phase == Done || (phase == Holding && content == L.LockText(s.attempts[attempt].pid))
    ensures Inv(Moved(s, attempt, phase).(file := Filled(s.file, s.attempts[attempt].file, content)))
  {
    var s' := Moved(s, attempt, phase).(file := Filled(s.file, s.attempts[attempt].file, content));
    assert Owns(s, attempt);
    assert s'.file == Some(File(s.attempts[attempt].file, content));
    forall a: nat | Owns(s', a) ensures a == attempt && phase == Holding {
      assert Owns(s, a);
    }
  }

  lemma ReleaseKeepsInv(s: State, attempt: nat)
    requires Inv(s) && Runs(s, attempt, Holding)
    ensures Inv(Moved(s, attempt, Done).(file := None)) && Unowned(Moved(s, attempt, Done).(file := None))
  {
    var s' := Moved(s, attempt, Done).(file := None);
    forall a: nat ensures !Owns(s', a) {
      assert Owns(s, attempt) && (Owns(s', a) ==> Owns(s, a));
    }
  }

  lemma StepKeepsInv(setting: L.Setting, s: State, e: Event)
    requires Inv(s) && Guarded(s, e)
    ensures Inv(Step(setting, s, e))
  {
    var s' := Step(setting, s, e);
    match e
    case Opens(attempt) => if Runs(s, attempt, Opening) { OpenKeepsInv(s, attempt); }
    case Spawns(pid) => forall a: nat ensures Owns(s', a) ==> Owns(s, a) {}
    case Dies(pid) => forall a: nat ensures Owns(s', a) ==> Owns(s, a) {}
    case Begins(attempt, pid) => forall a: nat ensures Owns(s', a) ==> Owns(s, a) {}
    case Writes(attempt) =>
      if Runs(s, attempt, Writing) {
        WriteKeepsInv(s, attempt, Holding, L.LockText(s.attempts[attempt].pid));
      }
    case WriteFails(attempt, left) =>
      if Runs(s, attempt, Writing) {
        WriteKeepsInv(s, attempt, Done, left);
      }
    case Reads(attempt) => forall a: nat ensures Owns(s', a) ==> Owns(s, a) {}
    case Unlinks(attempt) => forall a: nat ensures Owns(s', a) ==> Owns(s, a) {}
    case Releases(attempt) => if Runs(s, attempt, Holding) { ReleaseKeepsInv(s, attempt); }
  }

  ghost predicate GuardedRun(setting: L.Setting, s: State, events: seq<Event>)
    decreases |events|
  {
    events == [] || (Guarded(s, events[0]) && GuardedRun(setting, Step(setting, s, events[0]), events[1..]))
  }

  lemma {:induction false} RunKeepsInv(setting: L.Setting, s: State, events: seq<Event>)
    requires Inv(s) && GuardedRun(setting, s, events)
    ensures Inv(Run(setting, s, events))
    decreases |events|
  {
    if events != [] {
      StepKeepsInv(setting, s, events[0]);
      RunKeepsInv(setting, Step(setting, s, events[0]), events[1..]);
    }
  }

  /** Exclusion holds over every run, of whatever system calls, in which no reader unlinks a file that has an owner. */
  lemma GuardedRunsAreExclusive(setting: L.Setting, events: seq<Event>)
    requires GuardedRun(setting, INITIAL, events)
    ensures Exclusive(Run(setting, INITIAL, events))
  {
    RunKeepsInv(setting, INITIAL, events);
  }

  // ---- The guard is exact ----

  /** A reader unlinks, opens and writes, and then another contender finishes its write, if it was at it. */
  function Takeover(attempt: nat, other: nat): seq<Event> {
    [Unlinks(attempt), Opens(attempt), Writes(attempt), Writes(other)]
  }

  lemma AfterTakeover(setting: L.Setting, s: State, attempt: nat, other: nat)
    requires Runs(s, attempt, Unlinking) && other != attempt
    ensures var s' := Run(setting, s, Takeover(attempt, other));
            Holds(s', attempt) && (Holds(s', other) <==> Owns(s, other))
  {
    var e := Takeover(attempt, other);
    var s1 := Step(setting, s, e[0]);
    var s2 := Step(setting, s1, e[1]);
    var s3 := Step(setting, s2, e[2]);
    calc {
      Run(setting, s, e);
      Run(setting, s1, e[1..]);
      Run(setting, s2, e[1..][1..]);
      Run(setting, s3, e[1..][1..][1..]);
      Run(setting, Step(setting, s3, e[3]), e[1..][1..][1..][1..]);
      Step(setting, s3, e[3]);
    }
  }

  /** A reader that is about to unlink can end up holding the lock beside another contender, if and only if the file
      that it is about to unlink has an owner. */
  lemma TakeoverSharesTheLockIff(setting: L.Setting, s: State, attempt: nat)
    requires Runs(s, attempt, Unlinking)
    ensures (exists other: nat :: other != attempt && Holds(Run(setting, s, Takeover(attempt, other)), attempt)
                                  && Holds(Run(setting, s, Takeover(attempt, other)), other))
       <==> !Unowned(s)
  {
    forall other: nat | other != attempt
      ensures var s' := Run(setting, s, Takeover(attempt, other));
              Holds(s', attempt) && (Holds(s', other) <==> Owns(s, other))
    {
      AfterTakeover(setting, s, attempt, other);
    }
    if other: nat :| Owns(s, other) {
      assert other != attempt;
    }
  }

  // ---- The two windows ----

  lemma EmptyFileIsStale(setting: L.Setting, alive: set<nat>)
    requires setting.exotic("") == Some(0)
    ensures L.Stale(setting, alive, Some(""))
  {
  }

  /** A reader condemns the file of an owner if and only if it reads between the owner's opening and writing: an
      empty text reads as 0, which is no pid. */
  lemma OwnerIsCondemnedIff(setting: L.Setting, s: State, reader: nat, owner: nat)
    requires Inv(s) && Runs(s, reader, Reading) && Owns(s, owner) && setting.exotic("") == Some(0)
    ensures Runs(Step(setting, s, Reads(reader)), reader, Unlinking) <==> s.attempts[owner].phase.Writing?
  {
    EmptyFileIsStale(setting, s.alive);
    if s.attempts[owner].phase.Holding? {
      L.OwnerOfLockText(s.attempts[owner].pid, setting.exotic);
    }
  }

  ghost predicate Reachable(setting: L.Setting, s: State) {
    exists events :: Run(setting, INITIAL, events) == s
  }

  lemma {:induction false} RunInParts(setting: L.Setting, s: State, first: seq<Event>, rest: seq<Event>)
    ensures Run(setting, s, first + rest) == Run(setting, Run(setting, s, first), rest)
    decreases |first|
  {
    if first == [] {
      assert first + rest == rest;
    } else {
      assert (first + rest)[1..] == first[1..] + rest;
      RunInParts(setting, Step(setting, s, first[0]), first[1..], rest);
    }
  }

  lemma RunStaysReachable(setting: L.Setting, s: State, events: seq<Event>)
    requires Reachable(setting, s)
    ensures Reachable(setting, Run(setting, s, events))
  {
    var before :| Run(setting, INITIAL, before) == s;
    RunInParts(setting, INITIAL, before, events);
  }

  lemma StepStaysReachable(setting: L.Setting, s: State, e: Event) returns (s': State)
    requires Reachable(setting, s)
    ensures s' == Step(setting, s, e) && Reachable(setting, s')
  {
    s' := Step(setting, s, e);
    RunStaysReachable(setting, s, [e]);
    assert [e][1..] == [];
    assert Run(setting, s, [e]) == Run(setting, s', [e][1..]);
  }

  /** Processes 1 and 2 with one contender each, and the file that a third process may have left behind. */
  function TwoContenders(file: Option<File>, phase: Phase, others: map<nat, Attempt>): State {
    var attempts := others[1 := Attempt(1, phase, 0)][2 := Attempt(2, phase, 0)];
    State(file, if file.Some? then 1 else 0, attempts, {1, 2}, {1, 2, 3})
  }

  lemma ThreeProcessesAreReachable(setting: L.Setting) returns (s: State)
    ensures Reachable(setting, s) && s == INITIAL.(alive := {1, 2, 3}, known := {1, 2, 3})
  {
    assert Run(setting, INITIAL, []) == INITIAL;
    s := StepStaysReachable(setting, INITIAL, Spawns(1));
    s := StepStaysReachable(setting, s, Spawns(2));
    s := StepStaysReachable(setting, s, Spawns(3));
  }

  lemma TwoContendersAreReachable(setting: L.Setting)
    ensures Reachable(setting, TwoContenders(None, Opening, map[]))
  {
    var s := ThreeProcessesAreReachable(setting);
    s := StepStaysReachable(setting, s, Dies(3));
    s := StepStaysReachable(setting, s, Begins(1, 1));
    s := StepStaysReachable(setting, s, Begins(2, 2));
    assert s.alive == {1, 2} && s.known == {1, 2, 3};
    assert s == TwoContenders(None, Opening, map[]);
  }

  /** A contender about to unlink the file of another, in a reachable state. */
  lemma TakeoverIsReachable(setting: L.Setting, s: State, attempt: nat, other: nat) returns (s': State)
    requires Reachable(setting, s) && Runs(s, attempt, Unlinking) && Owns(s, other)
    ensures Reachable(setting, s') && Holds(s', attempt) && Holds(s', other)
  {
    AfterTakeover(setting, s, attempt, other);
    RunStaysReachable(setting, s, Takeover(attempt, other));
    s' := Run(setting, s, Takeover(attempt, other));
  }

  /** The first window: process 2 reads the file between process 1's opening and writing it, and both hold the lock. */
  lemma ReadingAnEmptyFileSharesTheLock(setting: L.Setting) returns (s: State)
    requires setting.exotic("") == Some(0)
    ensures Reachable(setting, s) && Holds(s, 1) && Holds(s, 2)
  {
    TwoContendersAreReachable(setting);
    EmptyFileIsStale(setting, {1, 2});
    s := StepStaysReachable(setting, TwoContenders(None, Opening, map[]), Opens(1));
    assert Runs(s, 1, Writing) && Runs(s, 2, Opening) && s.file == Some(File(0, "")) && s.alive == {1, 2};
    s := StepStaysReachable(setting, s, Opens(2));
    s := StepStaysReachable(setting, s, Reads(2));
    assert Runs(s, 2, Unlinking) && Runs(s, 1, Writing);
    s := TakeoverIsReachable(setting, s, 2, 1);
  }

  /** The lock of process 3, which died holding it. */
  function DeadHolder(): Attempt {
    Attempt(3, Holding, 0)
  }

  lemma DeathIsReachable(setting: L.Setting)
    ensures Reachable(setting, State(Some(File(0, L.LockText(3))), 1, map[3 := DeadHolder()], {1, 2}, {1, 2, 3}))
  {
    var s := ThreeProcessesAreReachable(setting);
    s := StepStaysReachable(setting, s, Begins(3, 3));
    s := StepStaysReachable(setting, s, Opens(3));
    assert s.attempts == map[3 := Attempt(3, Writing, 0)] && s.file == Some(File(0, ""));
    s := StepStaysReachable(setting, s, Writes(3));
    s := StepStaysReachable(setting, s, Dies(3));
    assert s.alive == {1, 2} && s.known == {1, 2, 3} && s.attempts == map[3 := DeadHolder()];
  }

  lemma DeadHolderIsReachable(setting: L.Setting)
    ensures Reachable(setting, TwoContenders(Some(File(0, L.LockText(3))), Opening, map[3 := DeadHolder()]))
  {
    DeathIsReachable(setting);
    var s := State(Some(File(0, L.LockText(3))), 1, map[3 := DeadHolder()], {1, 2}, {1, 2, 3});
    s := StepStaysReachable(setting, s, Begins(1, 1));
    s := StepStaysReachable(setting, s, Begins(2, 2));
    assert s.attempts == map[3 := DeadHolder()][1 := Attempt(1, Opening, 0)][2 := Attempt(2, Opening, 0)];
  }

  lemma BothCondemn(setting: L.Setting)
    ensures Reachable(setting, TwoContenders(Some(File(0, L.LockText(3))), Unlinking, map[3 := DeadHolder()]))
  {
    DeadHolderIsReachable(setting);
    L.OwnerOfLockText(3, setting.exotic);
    var s := TwoContenders(Some(File(0, L.LockText(3))), Opening, map[3 := DeadHolder()]);
    s := StepStaysReachable(setting, s, Opens(1));
    s := StepStaysReachable(setting, s, Reads(1));
    assert Runs(s, 1, Unlinking) && Runs(s, 2, Opening);
    s := StepStaysReachable(setting, s, Opens(2));
    s := StepStaysReachable(setting, s, Reads(2));
    assert s.attempts == map[3 := DeadHolder()][1 := Attempt(1, Unlinking, 0)][2 := Attempt(2, Unlinking, 0)];
  }

  /** The second window: processes 1 and 2 have both found the file of a dead holder stale; after process 1 has
      replaced it by its own, process 2 unlinks that one, and both hold the lock. */
  lemma UnlinkingLateSharesTheLock(setting: L.Setting) returns (s: State)
    ensures Reachable(setting, s) && Holds(s, 1) && Holds(s, 2)
  {
    BothCondemn(setting);
    s := TwoContenders(Some(File(0, L.LockText(3))), Unlinking, map[3 := DeadHolder()]);
    s := StepStaysReachable(setting, s, Unlinks(1));
    s := StepStaysReachable(setting, s, Opens(1));
    s := StepStaysReachable(setting, s, Writes(1));
    assert Runs(s, 2, Unlinking) && Runs(s, 1, Holding);
    s := TakeoverIsReachable(setting, s, 2, 1);
  }

  // ---- Uninterrupted steps are enough ----

  /** What a contender does without being interrupted by another: inside one Node process, where these calls are
      synchronous, every contender does. */
  datatype Block =
    | Creating(attempt: nat)
    | CreatingFails(attempt: nat, left: string)
    | Reclaiming(attempt: nat)
    | Spawning(pid: nat)
    | Dying(pid: nat)
    | Beginning(attempt: nat, pid: nat)
    | Releasing(attempt: nat)

  function Calls(b: Block): seq<Event> {
    match b
    case Creating(attempt) => [Opens(attempt), Writes(attempt)]
    case CreatingFails(attempt, left) => [Opens(attempt), WriteFails(attempt, left)]
    case Reclaiming(attempt) => [Reads(attempt), Unlinks(attempt)]
    case Spawning(pid) => [Spawns(pid)]
    case Dying(pid) => [Dies(pid)]
    case Beginning(attempt, pid) => [Begins(attempt, pid)]
    case Releasing(attempt) => [Releases(attempt)]
  }

  function AllCalls(blocks: seq<Block>): seq<Event> {
    if blocks == [] then [] else Calls(blocks[0]) + AllCalls(blocks[1..])
  }

  /** Between two blocks no live contender is in the middle of one. */
  ghost predicate Settled(s: State) {
    forall a: nat :: !Runs(s, a, Writing) && !Runs(s, a, Unlinking)
  }

  lemma CreationSettles(setting: L.Setting, s: State, attempt: nat, second: Event)
    requires Settled(s) && (second == Writes(attempt) || (second.WriteFails? && second.attempt == attempt))
    ensures Settled(Step(setting, Step(setting, s, Opens(attempt)), second))
  {
    var s1 := Step(setting, s, Opens(attempt));
    var s2 := Step(setting, s1, second);
    assert !Runs(s, attempt, Writing) && !Runs(s, attempt, Unlinking);
    forall a: nat ensures !Runs(s2, a, Writing) && !Runs(s2, a, Unlinking) {
      if a != attempt {
        assert !Runs(s, a, Writing) && !Runs(s, a, Unlinking);
        assert a in s2.attempts ==> a in s.attempts && s2.attempts[a] == s.attempts[a];
      } else if Runs(s, attempt, Opening) {
        assert s1.attempts[attempt].phase == Writing || s1.attempts[attempt].phase == Reading;
      } else {
        assert s1 == s && s2 == s;
      }
    }
  }

  lemma ReclaimSettles(setting: L.Setting, s: State, attempt: nat)
    requires Settled(s)
    ensures Settled(Step(setting, Step(setting, s, Reads(attempt)), Unlinks(attempt)))
  {
    var s1 := Step(setting, s, Reads(attempt));
    var s2 := Step(setting, s1, Unlinks(attempt));
    assert !Runs(s, attempt, Writing) && !Runs(s, attempt, Unlinking);
    forall a: nat ensures !Runs(s2, a, Writing) && !Runs(s2, a, Unlinking) {
      if a != attempt {
        assert !Runs(s, a, Writing) && !Runs(s, a, Unlinking);
        assert a in s2.attempts ==> a in s.attempts && s2.attempts[a] == s.attempts[a];
      } else if Runs(s, attempt, Reading) {
        assert s1.attempts[attempt].phase == Unlinking || s1.attempts[attempt].phase == Opening;
      } else {
        assert s1 == s && s2 == s;
      }
    }
  }

  /** A reader that finds the file stale finds it without an owner. */
  lemma ReclaimIsGuarded(setting: L.Setting, s: State, attempt: nat)
    requires Inv(s) && Settled(s)
    ensures Guarded(Step(setting, s, Reads(attempt)), Unlinks(attempt))
  {
    var s1 := Step(setting, s, Reads(attempt));
    assert !Runs(s, attempt, Unlinking);
    if Runs(s1, attempt, Unlinking) {
      forall a: nat ensures !Owns(s1, a) {
        if Owns(s1, a) {
          assert Owns(s, a) && !Runs(s, a, Writing);
          L.OwnerOfLockText(s.attempts[a].pid, setting.exotic);
          assert false;
        }
      }
    }
  }

  lemma AloneSettles(setting: L.Setting, s: State, e: Event)
    requires Settled(s) && (e.Spawns? || e.Dies? || e.Begins? || e.Releases?)
    requires e.Spawns? ==> forall a <- s.attempts :: s.attempts[a].pid in s.known
    ensures Settled(Step(setting, s, e))
  {
    var s' := Step(setting, s, e);
    forall a: nat ensures !Runs(s', a, Writing) && !Runs(s', a, Unlinking) {
      assert !Runs(s, a, Writing) && !Runs(s, a, Unlinking);
    }
  }

  lemma PairRuns(setting: L.Setting, s: State, first: Event, second: Event)
    ensures Run(setting, s, [first, second]) == Step(setting, Step(setting, s, first), second)
    ensures GuardedRun(setting, s, [first, second]) <==> Guarded(s, first) && Guarded(Step(setting, s, first), second)
  {
    var e := [first, second];
    assert e[1..] == [second] && e[1..][1..] == [];
    var s1 := Step(setting, s, first);
    assert Run(setting, s1, [second]) == Run(setting, Step(setting, s1, second), [second][1..]);
    assert GuardedRun(setting, s1, [second]) <==>
             Guarded(s1, second) && GuardedRun(setting, Step(setting, s1, second), [second][1..]);
  }

  lemma AloneIsGuarded(setting: L.Setting, s: State, e: Event)
    requires Inv(s) && Settled(s) && (e.Spawns? || e.Dies? || e.Begins? || e.Releases?)
    ensures GuardedRun(setting, s, [e]) && Settled(Run(setting, s, [e]))
  {
    AloneSettles(setting, s, e);
    assert [e][1..] == [];
    assert Run(setting, s, [e]) == Run(setting, Step(setting, s, e), [e][1..]);
  }

  lemma BlockIsGuarded(setting: L.Setting, s: State, b: Block)
    requires Inv(s) && Settled(s)
    ensures GuardedRun(setting, s, Calls(b)) && Settled(Run(setting, s, Calls(b)))
  {
    match b
    case Creating(attempt) =>
      PairRuns(setting, s, Opens(attempt), Writes(attempt));
      CreationSettles(setting, s, attempt, Writes(attempt));
    case CreatingFails(attempt, left) =>
      PairRuns(setting, s, Opens(attempt), WriteFails(attempt, left));
      CreationSettles(setting, s, attempt, WriteFails(attempt, left));
    case Reclaiming(attempt) =>
      PairRuns(setting, s, Reads(attempt), Unlinks(attempt));
      ReclaimIsGuarded(setting, s, attempt);
      ReclaimSettles(setting, s, attempt);
    case Spawning(pid) => AloneIsGuarded(setting, s, Spawns(pid));
    case Dying(pid) => AloneIsGuarded(setting, s, Dies(pid));
    case Beginning(attempt, pid) => AloneIsGuarded(setting, s, Begins(attempt, pid));
    case Releasing(attempt) => AloneIsGuarded(setting, s, Releases(attempt));
  }

  lemma {:induction false} GuardedInParts(setting: L.Setting, s: State, first: seq<Event>, rest: seq<Event>)
    requires GuardedRun(setting, s, first) && GuardedRun(setting, Run(setting, s, first), rest)
    ensures GuardedRun(setting, s, first + rest)
    decreases |first|
  {
    if first == [] {
      assert first + rest == rest;
    } else {
      assert (first + rest)[1..] == first[1..] + rest;
      GuardedInParts(setting, Step(setting, s, first[0]), first[1..], rest);
    }
  }

  lemma {:induction false} BlocksAreGuarded(setting: L.Setting, s: State, blocks: seq<Block>)
    requires Inv(s) && Settled(s)
    ensures GuardedRun(setting, s, AllCalls(blocks))
    decreases |blocks|
  {
    if blocks != [] {
      var calls := Calls(blocks[0]);
      BlockIsGuarded(setting, s, blocks[0]);
      RunKeepsInv(setting, s, calls);
      BlocksAreGuarded(setting, Run(setting, s, calls), blocks[1..]);
      GuardedInParts(setting, s, calls, AllCalls(blocks[1..]));
    }
  }

  /** When nobody interrupts a creation or a reclaim, exclusion always holds. */
  lemma UninterruptedRunsAreExclusive(setting: L.Setting, blocks: seq<Block>)
    ensures Exclusive(Run(setting, INITIAL, AllCalls(blocks)))
  {
    BlocksAreGuarded(setting, INITIAL, blocks);
    GuardedRunsAreExclusive(setting, AllCalls(blocks));
  }

  // ---- What each call does ----

  /** Creating opens a new, empty file, or finds one in the way and reads that; writing reaches only the file that was
      opened, and the writer believes to hold the lock even when that file has lost its path. */
  lemma CreationDecides(setting: L.Setting, s: State, attempt: nat)
    ensures Runs(s, attempt, Opening) ==>
              var s' := Step(setting, s, Opens(attempt));
              && (s.file == None ==> s'.file == Some(File(s.next, "")) && Runs(s', attempt, Writing)
                                     && s'.attempts[attempt].file == s.next)
              && (s.file != None ==> s'.file == s.file && Runs(s', attempt, Reading))
    ensures Runs(s, attempt, Writing) ==>
              var s' := Step(setting, s, Writes(attempt));
              var a := s.attempts[attempt];
              && Runs(s', attempt, Holding)
              && (s.file.Some? && s.file.value.id == a.file ==>
                    s'.file == Some(File(a.file, Decimal(a.pid) + "\n")))
              && (s.file == None || s.file.value.id != a.file ==> s'.file == s.file)
  {
  }

  /** A reader goes on to unlink exactly when the file it reads names no live process; unlinking, like releasing, takes
      whatever file then has the path. */
  lemma ReclaimDecides(setting: L.Setting, s: State, attempt: nat)
    ensures Runs(s, attempt, Reading) ==>
              var s' := Step(setting, s, Reads(attempt));
              && s'.file == s.file && (Runs(s', attempt, Opening) || Runs(s', attempt, Unlinking))
              && (Runs(s', attempt, Unlinking) <==>
                    s.file.Some? && var owner := L.OwnerOf(s.file.value.content, setting.exotic);
                                    owner == None || owner.value !in s.alive)
    ensures Runs(s, attempt, Unlinking) ==>
              var s' := Step(setting, s, Unlinks(attempt));
              s'.file == None && Runs(s', attempt, Opening)
    ensures Runs(s, attempt, Holding) ==>
              var s' := Step(setting, s, Releases(attempt));
              s'.file == None && Runs(s', attempt, Done)
  {
  }
}
