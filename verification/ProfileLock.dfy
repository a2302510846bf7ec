// The interprocess lock around the preparation of a Chromium profile, as steps of any number of contenders.
module ProfileLock {
  import opened Common
  import opened Text

  // ---- The content of the lock file ----

  predicate Blank(c: char) {
    c == ' ' || c == '\n' || c == '\r' || c == '\t'
  }

  function SkipBlank(s: string): string
    decreases |s|
  {
    if s != "" && Blank(s[0]) then SkipBlank(s[1..]) else s
  }

  function UntilBlank(s: string): string
    decreases |s|
  {
    if s == "" || Blank(s[0]) then "" else [s[0]] + UntilBlank(s[1..])
  }

  /** What a process writes into the file it has created. */
  function LockText(pid: nat): string {
    Decimal(pid) + "\n"
  }

  /** The pid that a contender reads back; `None` when the first word is not a positive integer. */
  function OwnerOf(content: string, exotic: string -> Option<nat>): Option<nat> {
    var word := UntilBlank(SkipBlank(content));
    var n := if AllDigits(word) then Some(Value(word)) else exotic(word);
    if n.Some? && n.value > 0 then n else None
  }

  lemma {:induction false} WordBeforeBlank(word: string, rest: string)
    requires forall i :: 0 <= i < |word| ==> !Blank(word[i])
    requires rest != "" && Blank(rest[0])
    ensures UntilBlank(word + rest) == word
    decreases |word|
  {
    if word != "" {
      assert (word + rest)[1..] == word[1..] + rest;
      WordBeforeBlank(word[1..], rest);
      assert word == [word[0]] + word[1..];
    } else {
      assert word + rest == rest;
    }
  }

  /** The pid written into the lock file is the pid read back from it. */
  lemma OwnerOfLockText(pid: nat, exotic: string -> Option<nat>)
    requires pid > 0
    ensures OwnerOf(LockText(pid), exotic) == Some(pid)
  {
    ValueOfDecimal(pid);
    var word := Decimal(pid);
    assert !Blank(word[0]) && LockText(pid)[0] == word[0];
    WordBeforeBlank(word, "\n");
  }

  // ---- Contenders ----

  /** What one look at the profile shows: the processes using it, and Chromium's own lock with its host and pid. */
  datatype Probe = Unreadable | Seen(owners: seq<nat>, host: string, holder: Option<nat>)

  datatype Phase = Creating | Reclaiming | Checking | Rechecking | Removing | Verifying | Ready | Finished(ok: bool)

  /** A probe that an attempt went on with, and what was the case when it was made. */
  datatype Look = Look(probe: Probe, alive: set<nat>, hostname: string)

  /** One call of `prepareChromiumProfile`, with what it has done so far. */
  datatype Attempt = Attempt(pid: nat, phase: Phase, acquired: bool, looks: seq<Look>, removed: bool, releases: nat)

  datatype State = State(file: Option<string>, attempts: map<nat, Attempt>, alive: set<nat>, known: set<nat>)

  const INITIAL := State(None, map[], {}, {})

  datatype Setting = Setting(hostname: string, exotic: string -> Option<nat>)

  datatype CreateOutcome = Written | WriteFailed(left: string) | OpenFailed

  datatype Event =
    | Spawns(pid: nat)
    | Dies(pid: nat)
    | Begins(attempt: nat, pid: nat)
    | TriesCreate(attempt: nat, outcome: CreateOutcome)
    | Reclaims(attempt: nat, works: bool)
    | TimesOut(attempt: nat)
    | Checks(attempt: nat, probe: Probe)
    | Removes(attempt: nat, ok: bool)
    | Verifies(attempt: nat, probe: Probe)
    | Releases(attempt: nat)

  /** The profile could be inspected and no process uses it. */
  predicate Deserted(probe: Probe) {
    probe.Seen? && probe.owners == []
  }

  predicate Idle(setting: Setting, alive: set<nat>, probe: Probe) {
    Deserted(probe) && !(probe.holder.Some? && probe.host == setting.hostname && probe.holder.value in alive)
  }

  predicate Held(phase: Phase) {
    phase.Checking? || phase.Rechecking? || phase.Removing? || phase.Verifying? || phase.Ready?
  }

  predicate Runs(s: State, attempt: nat, phase: Phase) {
    attempt in s.attempts && s.attempts[attempt].phase == phase && s.attempts[attempt].pid in s.alive
  }

  function Moved(s: State, attempt: nat, a: Attempt): State {
    s.(attempts := s.attempts[attempt := a])
  }

  /** The release function: close and unlink, whatever the file now holds. */
  function Released(s: State, attempt: nat, ok: bool): State
    requires attempt in s.attempts
  {
    var a := s.attempts[attempt];
    Moved(s, attempt, a.(phase := Finished(ok), releases := a.releases + 1)).(file := None)
  }

  function Create(s: State, attempt: nat, outcome: CreateOutcome): State
    requires attempt in s.attempts
  {
    var a := s.attempts[attempt];
    if outcome.OpenFailed? then Moved(s, attempt, a.(phase := Finished(false)))
    else if s.file.Some? then Moved(s, attempt, a.(phase := Reclaiming))
    else if outcome.Written? then Moved(s, attempt, a.(phase := Checking, acquired := true)).(file :=
            Some(LockText(a.pid)))
    else Moved(s, attempt, a.(phase := Finished(false))).(file := Some(outcome.left))
  }

  /** A file is stale when it names no process, or one that is no longer alive. */
  predicate Stale(setting: Setting, alive: set<nat>, file: Option<string>) {
    file.Some? && (OwnerOf(file.value, setting.exotic).None? || OwnerOf(file.value, setting.exotic).value !in alive)
  }

  /** Reading or unlinking the file may fail; then it stays, as it does when it is not stale. */
  function Reclaim(setting: Setting, s: State, attempt: nat, works: bool): State
    requires attempt in s.attempts
  {
    Moved(s, attempt, s.attempts[attempt].(phase := Creating)).(
      file := if works && Stale(setting, s.alive, s.file) then None else s.file)
  }

  /** Creating and writing the file is one step, and so is reading, judging and unlinking it. */
  function Step(setting: Setting, s: State, e: Event): State {
    match e
    case Spawns(pid) => if pid == 0 || pid in s.known then s else s.(alive := s.alive + {pid}, known := s.known + {pid})
    case Dies(pid) => s.(alive := s.alive - {pid})
    case Begins(attempt, pid) =>
      if attempt in s.attempts || pid !in s.alive then s
      else Moved(s, attempt, Attempt(pid, Creating, false, [], false, 0))
    case TriesCreate(attempt, outcome) => if Runs(s, attempt, Creating) then Create(s, attempt, outcome) else s
    case Reclaims(attempt, works) => if Runs(s, attempt, Reclaiming) then Reclaim(setting, s, attempt, works) else s
    case TimesOut(attempt) =>
      if Runs(s, attempt, Creating) then Moved(s, attempt, s.attempts[attempt].(phase := Finished(false))) else s
    case Checks(attempt, probe) =>
      if !Runs(s, attempt, Checking) && !Runs(s, attempt, Rechecking) then s
      else if !Idle(setting, s.alive, probe) then Released(s, attempt, false)
      else
        var a := s.attempts[attempt];
        var next := if a.phase.Checking? then Rechecking else Removing;
        Moved(s, attempt, a.(phase := next, looks := a.looks + [Look(probe, s.alive, setting.hostname)]))
    case Removes(attempt, ok) =>
      if !Runs(s, attempt, Removing) then s
      else if !ok then Released(Moved(s, attempt, s.attempts[attempt].(removed := true)), attempt, false)
      else Moved(s, attempt, s.attempts[attempt].(phase := Verifying, removed := true))
    case Verifies(attempt, probe) =>
      if !Runs(s, attempt, Verifying) then s
      else if !Deserted(probe) then Released(s, attempt, false)
      else
        var a := s.attempts[attempt];
        Moved(s, attempt, a.(phase := Ready, looks := a.looks + [Look(probe, s.alive, setting.hostname)]))
    case Releases(attempt) => if Runs(s, attempt, Ready) then Released(s, attempt, true) else s
  }

  function Run(setting: Setting, s: State, events: seq<Event>): State
    decreases |events|
  {
    if events == [] then s else Run(setting, Step(setting, s, events[0]), events[1..])
  }

  // ---- Invariant ----

  predicate Holds(s: State, attempt: nat) {
    attempt in s.attempts && Held(s.attempts[attempt].phase) && s.attempts[attempt].pid in s.alive
  }

  /** A live holder's pid is in the file, and no other attempt, of its own process or of another, holds the lock. */
  ghost predicate Exclusive(s: State) {
    && (forall a: nat | Holds(s, a) :: s.file == Some(LockText(s.attempts[a].pid)))
    && (forall a: nat, b: nat | Holds(s, a) && Holds(s, b) :: a == b)
  }

  /** The probe could be made, named no owner of the profile, and no live holder of Chromium's lock on this host. */
  predicate SawNobody(look: Look) {
    match look.probe
    case Unreadable => false
    case Seen(owners, host, holder) =>
      |owners| == 0 && (holder.Some? && host == look.hostname ==> holder.value !in look.alive)
  }

  /** The probe could be made and named no owner. */
  predicate SawNoOwner(look: Look) {
    match look.probe
    case Unreadable => false
    case Seen(owners, _, _) => |owners| == 0
  }

  /** Files are removed only after two looks that saw nobody, a profile is handed out only after a third that saw no
      owner, and whoever acquired the lock releases it exactly once. */
  predicate InOrder(a: Attempt) {
    && (a.acquired <==> !a.phase.Creating? && !a.phase.Reclaiming? && !(a.phase.Finished? && a.releases == 0))
    && a.releases == (if a.phase.Finished? && a.acquired then 1 else 0)
    && |a.looks| <= 3
    && (a.looks != [] ==> SawNobody(a.looks[0])) && (|a.looks| >= 2 ==> SawNobody(a.looks[1]))
    && (|a.looks| == 3 ==> SawNoOwner(a.looks[2]) && a.removed)
    && (a.removed ==> |a.looks| >= 2)
    && match a.phase
       case Checking => a.looks == [] && !a.removed
       case Rechecking => |a.looks| == 1 && !a.removed
       case Removing => |a.looks| == 2 && !a.removed
       case Verifying => |a.looks| == 2 && a.removed
       case Ready => |a.looks| == 3
       case Finished(ok) => ok ==> a.acquired && |a.looks| == 3
       case _ => a.looks == [] && !a.removed
  }

  ghost predicate Inv(s: State) {
    && Exclusive(s)
    && s.alive <= s.known && 0 !in s.known
    && (forall a <- s.attempts :: InOrder(s.attempts[a]) && s.attempts[a].pid in s.known)
  }

  /** Reclaiming never takes the file of a live holder. */
  lemma LiveHolderIsNotStale(setting: Setting, s: State, a: nat)
    requires Inv(s) && Holds(s, a)
    ensures !Stale(setting, s.alive, s.file)
  {
    OwnerOfLockText(s.attempts[a].pid, setting.exotic);
  }

  lemma CreateKeepsInv(s: State, attempt: nat, outcome: CreateOutcome)
    requires Inv(s) && Runs(s, attempt, Creating)
    ensures Inv(Create(s, attempt, outcome))
  {
    var s' := Create(s, attempt, outcome);
    assert s.file == None ==> forall b: nat :: !Holds(s, b);
    assert InOrder(s'.attempts[attempt]);
    forall b: nat | b != attempt ensures Holds(s', b) <==> Holds(s, b) {}
  }

  lemma ReclaimKeepsInv(setting: Setting, s: State, attempt: nat, works: bool)
    requires Inv(s) && Runs(s, attempt, Reclaiming)
    ensures Inv(Reclaim(setting, s, attempt, works))
    ensures forall a: nat | Holds(s, a) :: Reclaim(setting, s, attempt, works).file == s.file
  {
    var s' := Reclaim(setting, s, attempt, works);
    forall a: nat | Holds(s, a) ensures s'.file == s.file {
      LiveHolderIsNotStale(setting, s, a);
    }
    forall b: nat ensures Holds(s', b) <==> Holds(s, b) {}
  }

  /** Releasing unlinks the file unconditionally, and that is safe because the releaser is the only live holder. */
  lemma ReleaseKeepsInv(s: State, attempt: nat, ok: bool)
    requires Inv(s) && Holds(s, attempt) && (ok ==> s.attempts[attempt].phase.Ready?)
    ensures Inv(Released(s, attempt, ok)) && forall b: nat :: !Holds(Released(s, attempt, ok), b)
  {
    var s' := Released(s, attempt, ok);
    forall b: nat ensures !Holds(s', b) {
      assert Holds(s', b) ==> Holds(s, b);
    }
  }

  lemma MoveKeepsInv(s: State, attempt: nat, a: Attempt)
    requires Inv(s) && Holds(s, attempt) && Held(a.phase) && a.pid == s.attempts[attempt].pid && InOrder(a)
    ensures Inv(Moved(s, attempt, a))
  {
    forall b: nat ensures Holds(Moved(s, attempt, a), b) <==> Holds(s, b) {}
  }

  lemma SpawnKeepsInv(setting: Setting, s: State, pid: nat)
    requires Inv(s)
    ensures Inv(Step(setting, s, Spawns(pid)))
  {
    var s' := Step(setting, s, Spawns(pid));
    forall b: nat ensures Holds(s', b) ==> Holds(s, b) {}
  }

  lemma CheckKeepsInv(setting: Setting, s: State, attempt: nat, probe: Probe)
    requires Inv(s)
    ensures Inv(Step(setting, s, Checks(attempt, probe)))
  {
    if Runs(s, attempt, Checking) || Runs(s, attempt, Rechecking) {
      var a := s.attempts[attempt];
      ReleaseKeepsInv(s, attempt, false);
      if Idle(setting, s.alive, probe) {
        var look := Look(probe, s.alive, setting.hostname);
        assert SawNobody(look);
        var next := if a.phase.Checking? then Rechecking else Removing;
        MoveKeepsInv(s, attempt, a.(phase := next, looks := a.looks + [look]));
      }
    }
  }

  lemma RemovalKeepsInv(setting: Setting, s: State, attempt: nat, ok: bool)
    requires Inv(s)
    ensures Inv(Step(setting, s, Removes(attempt, ok)))
  {
    if Runs(s, attempt, Removing) {
      var a := s.attempts[attempt];
      var touched := Moved(s, attempt, a.(phase := Verifying, removed := true));
      MoveKeepsInv(s, attempt, a.(phase := Verifying, removed := true));
      ReleaseKeepsInv(touched, attempt, false);
      assert Released(Moved(s, attempt, a.(removed := true)), attempt, false) == Released(touched, attempt, false);
    }
  }

  lemma LastLookKeepsInv(setting: Setting, s: State, attempt: nat, probe: Probe)
    requires Inv(s)
    ensures Inv(Step(setting, s, Verifies(attempt, probe)))
  {
    if Runs(s, attempt, Verifying) {
      var a := s.attempts[attempt];
      ReleaseKeepsInv(s, attempt, false);
      if Deserted(probe) {
        MoveKeepsInv(s, attempt, a.(phase := Ready, looks := a.looks + [Look(probe, s.alive, setting.hostname)]));
      }
    }
  }

  /** Deaths, new attempts and attempts that give up make no holder. */
  lemma OutsiderKeepsInv(setting: Setting, s: State, e: Event)
    requires Inv(s) && (e.Dies? || e.Begins? || e.TimesOut?)
    ensures Inv(Step(setting, s, e))
  {
    forall b: nat ensures Holds(Step(setting, s, e), b) ==> Holds(s, b) {}
  }

  lemma StepKeepsInv(setting: Setting, s: State, e: Event)
    requires Inv(s)
    ensures Inv(Step(setting, s, e))
  {
    match e
    case Spawns(pid) => SpawnKeepsInv(setting, s, pid);
    case Dies(pid) => OutsiderKeepsInv(setting, s, e);
    case Begins(attempt, pid) => OutsiderKeepsInv(setting, s, e);
    case TriesCreate(attempt, outcome) => if Runs(s, attempt, Creating) { CreateKeepsInv(s, attempt, outcome); }
    case Reclaims(attempt, works) => if Runs(s, attempt, Reclaiming) { ReclaimKeepsInv(setting, s, attempt, works); }
    case TimesOut(attempt) => OutsiderKeepsInv(setting, s, e);
    case Checks(attempt, probe) => CheckKeepsInv(setting, s, attempt, probe);
    case Removes(attempt, ok) => RemovalKeepsInv(setting, s, attempt, ok);
    case Verifies(attempt, probe) => LastLookKeepsInv(setting, s, attempt, probe);
    case Releases(attempt) => if Runs(s, attempt, Ready) { ReleaseKeepsInv(s, attempt, true); }
  }

  lemma {:induction false} RunKeepsInv(setting: Setting, s: State, events: seq<Event>)
    requires Inv(s)
    ensures Inv(Run(setting, s, events))
    decreases |events|
  {
    if events != [] {
      StepKeepsInv(setting, s, events[0]);
      RunKeepsInv(setting, Step(setting, s, events[0]), events[1..]);
    }
  }

  // ---- Main results ----

  /** In every interleaving of attempts, releases and deaths: a live holder's pid is the content of the file, at most
      one live attempt holds the lock, every attempt goes through its steps in order and releases once. */
  lemma EveryRunIsExclusive(setting: Setting, events: seq<Event>)
    ensures Inv(Run(setting, INITIAL, events))
  {
    RunKeepsInv(setting, INITIAL, events);
  }

  /** Singleton files are removed only by the one live holder, after two looks of its own that saw nobody. */
  lemma OnlyTheHolderRemoves(setting: Setting, events: seq<Event>, attempt: nat, ok: bool)
    requires var s := Run(setting, INITIAL, events); Step(setting, s, Removes(attempt, ok)) != s
    ensures var s := Run(setting, INITIAL, events);
            && Holds(s, attempt) && !s.attempts[attempt].removed
            && (var looks := s.attempts[attempt].looks; |looks| == 2 && SawNobody(looks[0]) && SawNobody(looks[1]))
            && (forall b: nat | Holds(s, b) :: b == attempt)
  {
    EveryRunIsExclusive(setting, events);
    var s := Run(setting, INITIAL, events);
    assert Runs(s, attempt, Removing) && InOrder(s.attempts[attempt]);
    assert Holds(s, attempt);
  }

  /** Whoever removed files, in whatever run, had seen nobody twice; whoever was handed the profile had then seen no
      owner. */
  lemma RemovalsAreJustified(setting: Setting, events: seq<Event>, attempt: nat)
    requires attempt in Run(setting, INITIAL, events).attempts
    ensures var a := Run(setting, INITIAL, events).attempts[attempt];
            && (a.removed ==> |a.looks| >= 2 && SawNobody(a.looks[0]) && SawNobody(a.looks[1]))
            && (a.phase == Ready || a.phase == Finished(true) ==> |a.looks| == 3 && a.removed && SawNoOwner(a.looks[2]))
  {
    EveryRunIsExclusive(setting, events);
  }

  /** A check goes on exactly with a probe that saw nobody; any other releases the lock, and nothing is removed. */
  lemma ChecksDecide(setting: Setting, s: State, attempt: nat, probe: Probe)
    requires Runs(s, attempt, Checking) || Runs(s, attempt, Rechecking)
    ensures var a := s.attempts[attempt];
            var s' := Step(setting, s, Checks(attempt, probe));
            if SawNobody(Look(probe, s.alive, setting.hostname))
            then && s'.attempts[attempt].phase == (if a.phase == Checking then Rechecking else Removing)
                 && s'.attempts[attempt].looks == a.looks + [Look(probe, s.alive, setting.hostname)]
                 && s'.file == s.file
            else && s'.attempts[attempt].phase == Finished(false) && s'.file == None
                 && s'.attempts[attempt].releases == a.releases + 1 && s'.attempts[attempt].removed == a.removed
  {
  }

  /** From the first check an attempt gets to the removal exactly by two probes that saw nobody. */
  lemma TwoChecksDecide(setting: Setting, s: State, attempt: nat, first: Probe, second: Probe)
    requires Runs(s, attempt, Checking)
    ensures var s' := Step(setting, Step(setting, s, Checks(attempt, first)), Checks(attempt, second));
            && (Runs(s', attempt, Removing) <==> SawNobody(Look(first, s.alive, setting.hostname))
                                                 && SawNobody(Look(second, s.alive, setting.hostname)))
            && (!Runs(s', attempt, Removing) ==> s'.file == None && s'.attempts[attempt].phase == Finished(false)
                                                 && s'.attempts[attempt].removed == s.attempts[attempt].removed)
  {
    ChecksDecide(setting, s, attempt, first);
    var s1 := Step(setting, s, Checks(attempt, first));
    if Runs(s1, attempt, Rechecking) {
      ChecksDecide(setting, s1, attempt, second);
    }
  }

  /** The last look hands the profile out exactly when it saw no owner, and releases the lock otherwise. */
  lemma LastLookDecides(setting: Setting, s: State, attempt: nat, probe: Probe)
    requires Runs(s, attempt, Verifying)
    ensures var s' := Step(setting, s, Verifies(attempt, probe));
            if SawNoOwner(Look(probe, s.alive, setting.hostname)) then Runs(s', attempt, Ready) && s'.file == s.file
            else s'.attempts[attempt].phase == Finished(false) && s'.file == None
  {
  }

  /** The lock is acquired exactly by writing a file that was not there, with the pid of the process in it. A file in
      the way is looked into before the next try; every other failure, and the deadline, ends the attempt without the
      lock. */
  lemma CreatesDecide(setting: Setting, s: State, attempt: nat, outcome: CreateOutcome)
    requires Runs(s, attempt, Creating)
    ensures var pid := s.attempts[attempt].pid;
            var s' := Step(setting, s, TriesCreate(attempt, outcome));
            && (Holds(s', attempt) <==> outcome == Written && s.file == None)
            && (Holds(s', attempt) ==> s'.file == Some(Decimal(pid) + "\n") && s'.attempts[attempt].acquired)
            && (!outcome.OpenFailed? && s.file.Some? ==> Runs(s', attempt, Reclaiming))
            && (outcome.OpenFailed? || (outcome.WriteFailed? && s.file == None) ==> Runs(s', attempt, Finished(false)))
            && (s'.file != s.file ==> s.file == None && outcome != OpenFailed)
            && s'.attempts == s.attempts[attempt := s'.attempts[attempt]]
    ensures var s' := Step(setting, s, TimesOut(attempt));
            Runs(s', attempt, Finished(false)) && s'.file == s.file
  {
  }

  /** A failed removal, after which some files may be gone, releases the lock; otherwise the last look comes. */
  lemma RemovalDecides(setting: Setting, s: State, attempt: nat, ok: bool)
    requires Runs(s, attempt, Removing)
    ensures var s' := Step(setting, s, Removes(attempt, ok));
            && s'.attempts[attempt].removed
            && (ok ==> Runs(s', attempt, Verifying) && s'.file == s.file)
            && (!ok ==> Runs(s', attempt, Finished(false)) && s'.file == None)
  {
  }

  /** In a reachable state a contender that meets the file gets it removed exactly when it is stale and can be removed,
      and then no live attempt held it. */
  lemma ReclaimTakesOnlyStaleFiles(setting: Setting, events: seq<Event>, attempt: nat, works: bool)
    requires Runs(Run(setting, INITIAL, events), attempt, Reclaiming)
    ensures var s := Run(setting, INITIAL, events);
            var s' := Step(setting, s, Reclaims(attempt, works));
            && (s'.file != s.file <==> works && Stale(setting, s.alive, s.file))
            && (s'.file != s.file ==> forall b: nat :: !Holds(s, b))
            && s'.attempts[attempt].phase == Creating
  {
    EveryRunIsExclusive(setting, events);
    var s := Run(setting, INITIAL, events);
    forall b: nat | Holds(s, b) ensures !Stale(setting, s.alive, s.file) {
      LiveHolderIsNotStale(setting, s, b);
    }
  }

  /** The lock of a dead holder does not block: one reclaim and one create take it over. */
  lemma StaleLockIsTakenOver(setting: Setting, s: State, attempt: nat)
    requires Runs(s, attempt, Creating) && Stale(setting, s.alive, s.file)
    ensures Holds(Run(setting, s, [TriesCreate(attempt, Written), Reclaims(attempt, true),
            TriesCreate(attempt, Written)]), attempt)
  {
    var e := [TriesCreate(attempt, Written), Reclaims(attempt, true), TriesCreate(attempt, Written)];
    var s1 := Step(setting, s, e[0]);
    var s2 := Step(setting, s1, e[1]);
    var s3 := Step(setting, s2, e[2]);
    assert s2.file == None;
    calc {
      Run(setting, s, e);
      Run(setting, s1, e[1..]);
      Run(setting, s2, e[1..][1..]);
      Run(setting, s3, e[1..][1..][1..]);
      s3;
    }
  }

  // ---- Nobody waits for ever ----

  lemma {:induction false} SkipsBlanks(before: string, tail: string)
    requires (forall i :: 0 <= i < |before| ==> before[i] in " \t\r\n") && tail != "" && !Blank(tail[0])
    ensures SkipBlank(before + tail) == tail
    decreases |before|
  {
    if before == "" {
      assert before + tail == tail;
    } else {
      assert (before + tail)[1..] == before[1..] + tail;
      SkipsBlanks(before[1..], tail);
    }
  }

  /** Blanks around it and whatever follows do not matter to the pid read back. */
  lemma OwnerOfFirstWord(before: string, pid: nat, rest: string, exotic: string -> Option<nat>)
    requires pid > 0 && (forall i :: 0 <= i < |before| ==> before[i] in " \t\r\n")
    requires rest != "" && rest[0] in " \t\r\n"
    ensures OwnerOf(before + (Decimal(pid) + rest), exotic) == Some(pid)
  {
    ValueOfDecimal(pid);
    var word := Decimal(pid);
    assert (word + rest)[0] == word[0];
    SkipsBlanks(before, word + rest);
    WordBeforeBlank(word, rest);
  }

  lemma OwnerOfZero(exotic: string -> Option<nat>)
    ensures OwnerOf(LockText(0), exotic) == None
  {
    assert Decimal(0) == "0" && LockText(0) == "0" + "\n";
    WordBeforeBlank("0", "\n");
  }

  /** A file left by a process that is dead, or that holds a zero, stops nobody: one conflict, one reclaim, one
      create. */
  lemma DeadLockIsTakenOver(setting: Setting, s: State, attempt: nat, pid: nat)
    requires Runs(s, attempt, Creating) && s.file == Some(LockText(pid)) && (pid > 0 ==> pid !in s.alive)
    ensures var creates := TriesCreate(attempt, Written);
            Holds(Run(setting, s, [creates, Reclaims(attempt, true), creates]), attempt)
  {
    if pid > 0 {
      OwnerOfLockText(pid, setting.exotic);
    } else {
      OwnerOfZero(setting.exotic);
    }
    StaleLockIsTakenOver(setting, s, attempt);
  }

  /** A released lock can be had at once: the next contender to create the file holds it. */
  lemma ReleasedLockIsFree(setting: Setting, s: State, holder: nat, next: nat)
    requires Runs(s, holder, Ready) && Runs(s, next, Creating)
    ensures Holds(Run(setting, s, [Releases(holder), TriesCreate(next, Written)]), next)
  {
    var e := [Releases(holder), TriesCreate(next, Written)];
    var s1 := Step(setting, s, e[0]);
    var s2 := Step(setting, s1, e[1]);
    calc {
      Run(setting, s, e);
      Run(setting, s1, e[1..]);
      Run(setting, s2, e[1..][1..]);
      s2;
    }
  }

  /** A new process can begin an attempt that no attempt has begun before. */
  lemma ArrivalsDecide(setting: Setting, s: State, attempt: nat, pid: nat)
    ensures pid > 0 && pid !in s.known ==> Step(setting, s, Spawns(pid)).alive == s.alive + {pid}
    ensures attempt !in s.attempts && pid in s.alive ==>
              var s' := Step(setting, s, Begins(attempt, pid));
              Runs(s', attempt, Creating) && s'.attempts[attempt].pid == pid && s'.file == s.file
  {
  }

  /** A holder that dies does not keep the lock: the next contender conflicts, reclaims and creates. */
  lemma DeadHolderIsSucceeded(setting: Setting, s: State, holder: nat, next: nat)
    requires Inv(s) && Holds(s, holder) && Runs(s, next, Creating)
    requires s.attempts[holder].pid != s.attempts[next].pid
    ensures var creates := TriesCreate(next, Written);
            var s' := Run(setting, s, [Dies(s.attempts[holder].pid), creates, Reclaims(next, true), creates]);
            Holds(s', next) && !Holds(s', holder)
  {
    var pid := s.attempts[holder].pid;
    var creates := TriesCreate(next, Written);
    var later := [creates, Reclaims(next, true), creates];
    StepKeepsInv(setting, s, Dies(pid));
    var dead := Step(setting, s, Dies(pid));
    DeadLockIsTakenOver(setting, dead, next, pid);
    assert ([Dies(pid)] + later)[1..] == later;
    assert [Dies(pid)] + later == [Dies(pid), creates, Reclaims(next, true), creates];
    RunKeepsInv(setting, dead, later);
    assert Holds(Run(setting, dead, later), next);
  }

  /** A process that arrives at an unlocked profile gets the lock. */
  lemma ArrivalGetsTheLock(setting: Setting, s: State, attempt: nat, pid: nat)
    requires pid > 0 && pid !in s.known && attempt !in s.attempts && s.file == None
    ensures Runs(Run(setting, s, [Spawns(pid), Begins(attempt, pid), TriesCreate(attempt, Written)]), attempt, Checking)
  {
    var e := [Spawns(pid), Begins(attempt, pid), TriesCreate(attempt, Written)];
    var spawned := Step(setting, s, e[0]);
    var begun := Step(setting, spawned, e[1]);
    var created := Step(setting, begun, e[2]);
    calc {
      Run(setting, s, e);
      Run(setting, spawned, e[1..]);
      Run(setting, begun, e[1..][1..]);
      Run(setting, created, e[1..][1..][1..]);
      created;
    }
  }

  // ---- The file and the preparation as the program handles them ----

  /** What becomes of one attempt to create the file: the lock, the conflict error, or another error. */
  datatype Created = Acquired | Conflict | Thrown

  class LockFile {
    var content: Option<string>

    constructor (content: Option<string>)
      ensures this.content == content
    {
      this.content := content;
    }

    /** Opening with O_CREAT and O_EXCL, then writing. A failed write leaves a file that nobody holds. */
    method TryCreate(pid: nat, outcome: CreateOutcome) returns (created: Created)
      modifies this
      ensures created == Acquired <==> outcome.Written? && old(content).None?
      ensures created == Conflict <==> !outcome.OpenFailed? && old(content).Some?
      ensures content == if outcome.OpenFailed? || old(content).Some? then old(content)
                         else if outcome.Written? then Some(LockText(pid)) else Some(outcome.left)
    {
      if outcome.OpenFailed? {
        return Thrown;
      }
      if content.Some? {
        return Conflict;
      }
      if outcome.WriteFailed? {
        content := Some(outcome.left);
        return Thrown;
      }
      content := Some(LockText(pid));
      return Acquired;
    }

    method ReclaimStale(setting: Setting, alive: set<nat>, works: bool) returns (reclaimed: bool)
      modifies this
      ensures reclaimed <==> works && Stale(setting, alive, old(content))
      ensures content == if reclaimed then None else old(content)
    {
      if content.None? || !works {
        return false;
      }
      var pid := OwnerOf(content.value, setting.exotic);
      if pid.None? || pid.value !in alive {
        content := None;
        return true;
      }
      return false;
    }

    method Unlink()
      modifies this
      ensures content == None
    {
      content := None;
    }
  }

  /** The steps of one attempt under the lock, with nothing happening in between. */
  function Prepared(setting: Setting, s: State, id: nat, first: Probe, second: Probe, removal: bool,
      last: Probe): State {
    var s2 := Step(setting, Step(setting, s, Checks(id, first)), Checks(id, second));
    Step(setting, Step(setting, s2, Removes(id, removal)), Verifies(id, last))
  }

  lemma OnceFinished(setting: Setting, s: State, id: nat, second: Probe, removal: bool, last: Probe)
    requires id in s.attempts && s.attempts[id].phase.Finished?
    ensures Step(setting, s, Checks(id, second)) == s
    ensures Step(setting, s, Removes(id, removal)) == s
    ensures Step(setting, s, Verifies(id, last)) == s
  {
  }

  lemma CleaningDecides(setting: Setting, s: State, id: nat, removal: bool, last: Probe)
    requires Runs(s, id, Removing)
    ensures var s' := Step(setting, Step(setting, s, Removes(id, removal)), Verifies(id, last));
            if removal && SawNoOwner(Look(last, s.alive, setting.hostname))
            then Runs(s', id, Ready) && s'.file == s.file
            else Runs(s', id, Finished(false)) && s'.file == None
  {
    RemovalDecides(setting, s, id, removal);
    var s' := Step(setting, s, Removes(id, removal));
    if removal {
      LastLookDecides(setting, s', id, last);
    } else {
      OnceFinished(setting, s', id, last, removal, last);
    }
  }

  /** Once the lock is acquired, the profile is handed out exactly when both checks saw nobody, the files could be
      removed and the last look saw no owner; otherwise the lock is released. */
  lemma PreparedDecides(setting: Setting, s: State, id: nat, first: Probe, second: Probe, removal: bool, last: Probe)
    requires Runs(s, id, Checking)
    ensures var s' := Prepared(setting, s, id, first, second, removal, last);
            if SawNobody(Look(first, s.alive, setting.hostname)) && SawNobody(Look(second, s.alive, setting.hostname))
               && removal && SawNoOwner(Look(last, s.alive, setting.hostname))
            then Runs(s', id, Ready) && s'.file == s.file
            else Runs(s', id, Finished(false)) && s'.file == None
  {
    TwoChecksDecide(setting, s, id, first, second);
    var checked := Step(setting, Step(setting, s, Checks(id, first)), Checks(id, second));
    if Runs(checked, id, Removing) {
      CleaningDecides(setting, checked, id, removal, last);
    } else {
      OnceFinished(setting, checked, id, second, removal, last);
    }
  }

  class Preparation {
    const setting: Setting
    const file: LockFile
    var me: Attempt

    ghost predicate At(s: State, id: nat)
      reads this, file
    {
      id in s.attempts && s.attempts[id] == me && s.file == file.content && me.pid in s.alive
    }

    /** `s` with this attempt and its file as they are now. */
    ghost function Now(s: State, id: nat): State
      reads this, file
    {
      Moved(s, id, me).(file := file.content)
    }

    constructor (setting: Setting, file: LockFile, me: Attempt)
      ensures this.setting == setting && this.file == file && this.me == me
    {
      this.setting, this.file, this.me := setting, file, me;
    }

    method Release()
      modifies this, file
      ensures me == old(me).(phase := Finished(false), releases := old(me).releases + 1) && file.content == None
    {
      me := me.(phase := Finished(false), releases := me.releases + 1);
      file.Unlink();
    }

    /** `assertProfileIdle`: a profile in use, or one that cannot be inspected, releases the lock. */
    method AssertIdle(alive: set<nat>, probe: Probe, ghost s: State, ghost id: nat) returns (idle: bool)
      requires At(s, id) && s.alive == alive && (me.phase.Checking? || me.phase.Rechecking?)
      modifies this, file
      ensures Now(s, id) == Step(setting, s, Checks(id, probe))
      ensures idle <==> me.phase == if old(me).phase.Checking? then Rechecking else Removing
      ensures !idle ==> me.phase == Finished(false)
      ensures me.pid == old(me.pid)
    {
      if !Idle(setting, alive, probe) {
        Release();
        return false;
      }
      me := me.(phase := if me.phase.Checking? then Rechecking else Removing,
                looks := me.looks + [Look(probe, alive, setting.hostname)]);
      return true;
    }

    method RemoveSingletonFiles(ok: bool, ghost s: State, ghost id: nat)
      requires At(s, id) && me.phase.Removing?
      modifies this, file
      ensures Now(s, id) == Step(setting, s, Removes(id, ok))
      ensures me.phase == if ok then Verifying else Finished(false)
    {
      me := me.(removed := true);
      if !ok {
        Release();
        return;
      }
      me := me.(phase := Verifying);
    }

    method LookAgain(alive: set<nat>, probe: Probe, ghost s: State, ghost id: nat)
      requires At(s, id) && s.alive == alive && me.phase.Verifying?
      modifies this, file
      ensures Now(s, id) == Step(setting, s, Verifies(id, probe))
      ensures me.phase == Ready || me.phase == Finished(false)
    {
      if probe.Unreadable? || probe.owners != [] {
        Release();
        return;
      }
      me := me.(phase := Ready, looks := me.looks + [Look(probe, alive, setting.hostname)]);
    }

    /** The idle check and its repetition. */
    method CheckTwice(alive: set<nat>, first: Probe, second: Probe, ghost s: State, ghost id: nat) returns (idle: bool)
      requires At(s, id) && s.alive == alive && me.phase.Checking?
      modifies this, file
      ensures Now(s, id) == Step(setting, Step(setting, s, Checks(id, first)), Checks(id, second))
      ensures me.pid == old(me.pid) && me.phase == if idle then Removing else Finished(false)
    {
      idle := AssertIdle(alive, first, s, id);
      ghost var s1 := Now(s, id);
      if !idle {
        OnceFinished(setting, s1, id, second, true, second);
        return false;
      }
      idle := AssertIdle(alive, second, s1, id);
    }

    /** The removal and the last look. */
    method CleanUp(alive: set<nat>, removal: bool, last: Probe, ghost s: State, ghost id: nat) returns (ready: bool)
      requires At(s, id) && s.alive == alive && me.phase.Removing?
      modifies this, file
      ensures Now(s, id) == Step(setting, Step(setting, s, Removes(id, removal)), Verifies(id, last))
      ensures ready <==> me.phase.Ready?
    {
      RemoveSingletonFiles(removal, s, id);
      ghost var s1 := Now(s, id);
      if me.phase.Finished? {
        OnceFinished(setting, s1, id, last, removal, last);
        return false;
      }
      LookAgain(alive, last, s1, id);
      return me.phase.Ready?;
    }

    /** The part of `prepareChromiumProfile` that runs under the lock: two idle checks, the removal, one last look.
        Every failure releases the lock, a success keeps it for the caller. */
    method UnderLock(alive: set<nat>, first: Probe, second: Probe, removal: bool, last: Probe, ghost s: State,
        ghost id: nat) returns (ready: bool)
      requires At(s, id) && s.alive == alive && me.phase.Checking?
      modifies this, file
      ensures Now(s, id) == Prepared(setting, s, id, first, second, removal, last)
      ensures ready <==> me.phase.Ready?
    {
      var idle := CheckTwice(alive, first, second, s, id);
      ghost var s1 := Now(s, id);
      if !idle {
        OnceFinished(setting, s1, id, second, removal, last);
        return false;
      }
      ready := CleanUp(alive, removal, last, s1, id);
    }
  }
}
