/** The cross-process provider limiter (model_runtime.rs) as interleaved steps of any number of callers
    over one lock file and one state file. */
module Limiter {
  import opened Text

  type Caller = nat

  /** Where a caller stands in acquire, or as the holder of a permit. A caller that has crashed is gone. */
  datatype Phase =
    | Outside
    | Trying
    /** It has seen a stale lock and is about to remove the lock file. */
    | Removing
    /** It created the lock file and has not read the state file yet. */
    | Locked
    /** It sleeps until the given time. */
    | Sleeping(until: nat)
    /** acquire returned a permit. */
    | Holding
    | Crashed

  datatype Lock = Lock(owner: Caller, modifiedAt: nat)

  datatype Config = Config(minIntervalMs: nat, staleLockMs: nat)

  datatype State = State(
    now: nat,
    lock: Option<Lock>,
    /** next_allowed_at_ms in the state file; 0 if there is no file. */
    nextAllowedAt: nat,
    phase: map<Caller, Phase>,
    /** granted_at_ms of every grant so far, in order. */
    grants: seq<nat>)

  datatype Step =
    | Tick(ms: nat)
    | Start(c: Caller)
    /** remove_stale_lock_if_needed reads the lock's age. */
    | Inspect(c: Caller)
    | Remove(c: Caller)
    | Create(c: Caller)
    /** The lock file stayed there until the timeout. */
    | TimeOut(c: Caller)
    /** enforce_min_interval reads the state file and the clock. */
    | ReadState(c: Caller)
    | Grant(c: Caller)
    /** The wait exceeds the time left, or an I/O error: the permit is dropped without a grant. */
    | GiveUp(c: Caller)
    | Release(c: Caller)
    | Crash(c: Caller)

  const INITIAL := State(0, None, 0, map[], [])

  function PhaseOf(s: State, c: Caller): Phase { if c in s.phase then s.phase[c] else Outside }

  /** The permit value exists: from the creation of the lock file until the drop. */
  predicate IsLive(p: Phase) { p == Locked || p.Sleeping? || p == Holding }

  predicate Stale(config: Config, s: State) {
    s.lock.Some? && s.now - s.lock.value.modifiedAt >= config.staleLockMs
  }

  predicate Enabled(config: Config, s: State, step: Step) {
    match step
    case Tick(_) => true
    case Start(c) => PhaseOf(s, c) == Outside
    case Inspect(c) => PhaseOf(s, c) == Trying
    case Remove(c) => PhaseOf(s, c) == Removing
    case Create(c) => PhaseOf(s, c) == Trying && s.lock.None?
    case TimeOut(c) => PhaseOf(s, c) == Trying && s.lock.Some?
    case ReadState(c) => PhaseOf(s, c) == Locked
    case Grant(c) => PhaseOf(s, c).Sleeping? && PhaseOf(s, c).until <= s.now
    case GiveUp(c) => PhaseOf(s, c) == Locked || PhaseOf(s, c).Sleeping?
    case Release(c) => PhaseOf(s, c) == Holding
    case Crash(c) => PhaseOf(s, c) != Crashed
  }

  function To(s: State, c: Caller, p: Phase): State { s.(phase := s.phase[c := p]) }

  /** The state after an enabled step. Dropping a permit removes the lock file, whoever made it. */
  function Next(config: Config, s: State, step: Step): State
    requires Enabled(config, s, step)
  {
    match step
    case Tick(ms) => s.(now := s.now + ms)
    case Start(c) => To(s, c, Trying)
    case Inspect(c) => if Stale(config, s) then To(s, c, Removing) else s
    case Remove(c) => To(s, c, Trying).(lock := None)
    case Create(c) => To(s, c, Locked).(lock := Some(Lock(c, s.now)))
    case TimeOut(c) => To(s, c, Outside)
    case ReadState(c) => To(s, c, Sleeping(if s.nextAllowedAt > s.now then s.nextAllowedAt else s.now))
    case Grant(c) => To(s, c, Holding).(nextAllowedAt := s.now + config.minIntervalMs, grants := s.grants + [s.now])
    case GiveUp(c) => To(s, c, Outside).(lock := None)
    case Release(c) => To(s, c, Outside).(lock := None)
    case Crash(c) => To(s, c, Crashed)
  }

  /** A run: a list of steps, each enabled where it is taken. */
  predicate IsRun(config: Config, steps: seq<Step>)
    decreases |steps|, 0
  {
    steps == [] ||
    (var before := steps[..|steps| - 1];
     IsRun(config, before) && Enabled(config, After(config, before), steps[|steps| - 1]))
  }

  function After(config: Config, steps: seq<Step>): State
    requires IsRun(config, steps)
    decreases |steps|, 1
  {
    if steps == [] then INITIAL
    else Next(config, After(config, steps[..|steps| - 1]), steps[|steps| - 1])
  }

  // ---- What the steps do together ----

  /** How long a caller that reads the state file now must wait. */
  function WaitFrom(s: State): nat { if s.nextAllowedAt > s.now then s.nextAllowedAt - s.now else 0 }

  /** Nothing changes for the other callers. */
  ghost predicate OthersKept(s: State, t: State, c: Caller) {
    forall d: Caller :: d != c ==> PhaseOf(t, d) == PhaseOf(s, d)
  }

  /** A caller that finds no lock gets its permit by waiting just until the time in the state file, never earlier: it
      owns the lock file, the grant is recorded, and the next one is allowed the interval later. */
  lemma AcquireMeaning(config: Config, s: State, c: Caller) returns (created: State, read: State, t: State)
    requires s.lock == None && PhaseOf(s, c) == Trying
    ensures Enabled(config, s, Create(c)) && created == Next(config, s, Create(c))
    ensures Enabled(config, created, ReadState(c)) && read == Next(config, created, ReadState(c))
    ensures forall ms: nat :: Enabled(config, Next(config, read, Tick(ms)), Grant(c)) <==> WaitFrom(s) <= ms
    ensures t == Next(config, Next(config, read, Tick(WaitFrom(s))), Grant(c))
    ensures t.now == s.now + WaitFrom(s) && PhaseOf(t, c) == Holding && OthersKept(s, t, c)
    ensures t.lock == Some(Lock(c, s.now)) && t.grants == s.grants + [t.now]
    ensures t.nextAllowedAt == t.now + config.minIntervalMs
  {
    created := Next(config, s, Create(c));
    read := Next(config, created, ReadState(c));
    t := Next(config, Next(config, read, Tick(WaitFrom(s))), Grant(c));
  }

  /** A lock file at least as old as the limit can be removed in two steps; a younger one is left alone. */
  lemma StaleMeaning(config: Config, s: State, c: Caller)
    requires s.lock.Some? && PhaseOf(s, c) == Trying
    ensures s.now >= s.lock.value.modifiedAt + config.staleLockMs ==>
              && Enabled(config, Next(config, s, Inspect(c)), Remove(c))
              && var t := Next(config, Next(config, s, Inspect(c)), Remove(c));
                 t.lock == None && PhaseOf(t, c) == Trying && OthersKept(s, t, c) && t.grants == s.grants
    ensures s.now < s.lock.value.modifiedAt + config.staleLockMs ==> Next(config, s, Inspect(c)) == s
  {
  }

  /** However a caller leaves, no grant is recorded. Its lock file goes with the permit, but stays after a crash; a
      caller that only waited leaves the lock file alone. */
  lemma LeavingMeaning(config: Config, s: State, step: Step)
    requires Enabled(config, s, step) && (step.Release? || step.GiveUp? || step.TimeOut? || step.Crash?)
    ensures var t := Next(config, s, step);
            && t.now == s.now && t.grants == s.grants && t.nextAllowedAt == s.nextAllowedAt && OthersKept(s, t, step.c)
            && PhaseOf(t, step.c) == (if step.Crash? then Crashed else Outside)
            && t.lock == if step.Release? || step.GiveUp? then None else s.lock
  {
  }

  // ---- The two conditions on a run ----

  /** The lock file of a permit that still exists. */
  predicate LiveLock(s: State) { s.lock.Some? && IsLive(PhaseOf(s, s.lock.value.owner)) }

  /** No stale-lock removal in the run hits the lock of a live permit. */
  ghost predicate RemovesOnlyDeadLocks(config: Config, steps: seq<Step>)
    requires IsRun(config, steps)
  {
    forall k :: 0 <= k < |steps| && steps[k].Remove? ==>
      PrefixRun(config, steps, k) && !LiveLock(After(config, steps[..k]))
  }

  /** Always true: the first k steps of a run are a run. */
  ghost predicate PrefixRun(config: Config, steps: seq<Step>, k: nat) { k <= |steps| && IsRun(config, steps[..k]) }

  lemma {:induction false} PrefixIsRun(config: Config, steps: seq<Step>, k: nat)
    requires IsRun(config, steps) && k <= |steps|
    ensures PrefixRun(config, steps, k)
  {
    if k == |steps| {
      assert steps[..k] == steps;
    } else {
      var n := |steps| - 1;
      PrefixIsRun(config, steps[..n], k);
      assert steps[..n][..k] == steps[..k];
    }
  }

  // ---- Safety ----

  /** Every live permit owns the lock file. */
  ghost predicate Exclusive(s: State) {
    forall c :: IsLive(PhaseOf(s, c)) ==> s.lock.Some? && s.lock.value.owner == c
  }

  /** Grants are at least the interval apart, and whoever may still be granted waits long enough. */
  ghost predicate Spaced(config: Config, s: State) {
    && (forall i :: 0 < i < |s.grants| ==> s.grants[i] >= s.grants[i - 1] + config.minIntervalMs)
    && (s.grants != [] ==> s.nextAllowedAt == s.grants[|s.grants| - 1] + config.minIntervalMs)
    && (forall c :: PhaseOf(s, c).Sleeping? ==> s.nextAllowedAt <= PhaseOf(s, c).until)
  }

  ghost predicate AtMostOneLive(s: State) {
    forall c, d :: IsLive(PhaseOf(s, c)) && IsLive(PhaseOf(s, d)) ==> c == d
  }

  lemma StepKeepsSafety(config: Config, s: State, step: Step)
    requires Enabled(config, s, step) && Exclusive(s) && Spaced(config, s)
    requires step.Remove? ==> !LiveLock(s)
    ensures Exclusive(Next(config, s, step)) && Spaced(config, Next(config, s, step))
  {
    var t := Next(config, s, step);
    if !step.Tick? {
      assert forall c :: c != step.c ==> PhaseOf(t, c) == PhaseOf(s, c);
    } else {
      assert forall c :: PhaseOf(t, c) == PhaseOf(s, c);
    }
    if step.Remove? {
      assert forall c :: IsLive(PhaseOf(s, c)) ==> s.lock.value.owner == c;
    }
  }

  /** In every run whose stale-lock removals hit only dead locks, at most one permit is live and grants are spaced. */
  lemma {:induction false} SafeIfOnlyDeadLocksRemoved(config: Config, steps: seq<Step>)
    requires IsRun(config, steps) && RemovesOnlyDeadLocks(config, steps)
    ensures Exclusive(After(config, steps)) && AtMostOneLive(After(config, steps)) &&
            Spaced(config, After(config, steps))
  {
    if steps != [] {
      var n := |steps| - 1;
      var before := steps[..n];
      forall k | 0 <= k < n && before[k].Remove?
        ensures PrefixRun(config, before, k) && !LiveLock(After(config, before[..k]))
      {
        assert steps[k].Remove? && before[..k] == steps[..k];
      }
      SafeIfOnlyDeadLocksRemoved(config, before);
      StepKeepsSafety(config, After(config, before), steps[n]);
    }
  }

  /** Every live permit owns the lock file throughout a run exactly when its stale-lock removals hit only dead locks. */
  lemma ExclusiveThroughoutIff(config: Config, steps: seq<Step>)
    requires IsRun(config, steps)
    ensures (forall k :: 0 <= k <= |steps| ==> PrefixRun(config, steps, k) && Exclusive(After(config, steps[..k]))) <==>
            RemovesOnlyDeadLocks(config, steps)
  {
    forall k | 0 <= k <= |steps|
      ensures PrefixRun(config, steps, k)
      ensures RemovesOnlyDeadLocks(config, steps) ==> Exclusive(After(config, steps[..k]))
      ensures k < |steps| && steps[k].Remove? && LiveLock(After(config, steps[..k])) ==>
                PrefixRun(config, steps, k + 1) && !Exclusive(After(config, steps[..k + 1]))
    {
      PrefixIsRun(config, steps, k);
      if RemovesOnlyDeadLocks(config, steps) {
        DeadLocksOfPrefix(config, steps, k);
        SafeIfOnlyDeadLocksRemoved(config, steps[..k]);
      }
      if k < |steps| && steps[k].Remove? {
        PrefixIsRun(config, steps, k + 1);
        assert steps[..k + 1][..k] == steps[..k];
        var s := After(config, steps[..k]);
        if LiveLock(s) {
          RemovalBreaksExclusion(config, s, steps[k]);
        }
      }
    }
    if forall k :: 0 <= k <= |steps| ==> PrefixRun(config, steps, k) && Exclusive(After(config, steps[..k])) {
      forall k | 0 <= k < |steps| && steps[k].Remove?
        ensures PrefixRun(config, steps, k) && !LiveLock(After(config, steps[..k]))
      {
        assert PrefixRun(config, steps, k + 1) && Exclusive(After(config, steps[..k + 1]));
      }
    }
  }

  lemma RemovalBreaksExclusion(config: Config, s: State, step: Step)
    requires Enabled(config, s, step) && step.Remove? && LiveLock(s)
    ensures !Exclusive(Next(config, s, step))
  {
    var owner := s.lock.value.owner;
    assert IsLive(PhaseOf(Next(config, s, step), owner));
  }

  lemma DeadLocksOfPrefix(config: Config, steps: seq<Step>, k: nat)
    requires IsRun(config, steps) && RemovesOnlyDeadLocks(config, steps) && PrefixRun(config, steps, k)
    ensures RemovesOnlyDeadLocks(config, steps[..k])
  {
    forall j | 0 <= j < k && steps[..k][j].Remove?
      ensures PrefixRun(config, steps[..k], j) && !LiveLock(After(config, steps[..k][..j]))
    {
      assert steps[j].Remove? && steps[..k][..j] == steps[..j];
    }
  }

  /** Removing a live lock lets the remover create its own: then two permits are live. */
  lemma RemovalAdmitsSecond(config: Config, s: State, step: Step)
    requires Enabled(config, s, step) && step.Remove? && LiveLock(s)
    ensures Enabled(config, Next(config, s, step), Create(step.c))
    ensures !AtMostOneLive(Next(config, Next(config, s, step), Create(step.c)))
  {
    var owner, t := s.lock.value.owner, Next(config, s, step);
    var u := Next(config, t, Create(step.c));
    assert IsLive(PhaseOf(u, owner)) && IsLive(PhaseOf(u, step.c));
  }

  /** Whoever may create the lock file now would hold the only live permit. */
  ghost predicate SafeToCreate(config: Config, s: State) {
    && AtMostOneLive(s)
    && forall c: Caller :: Enabled(config, s, Create(c)) ==> AtMostOneLive(Next(config, s, Create(c)))
  }

  lemma CreateFromExclusive(config: Config, s: State, c: Caller)
    requires Exclusive(s) && Spaced(config, s) && Enabled(config, s, Create(c))
    ensures AtMostOneLive(Next(config, s, Create(c)))
  {
    StepKeepsSafety(config, s, Create(c));
  }

  lemma SafeAfterPrefix(config: Config, steps: seq<Step>, k: nat)
    requires IsRun(config, steps) && RemovesOnlyDeadLocks(config, steps) && k <= |steps|
    ensures PrefixRun(config, steps, k) && SafeToCreate(config, After(config, steps[..k]))
  {
    PrefixIsRun(config, steps, k);
    DeadLocksOfPrefix(config, steps, k);
    SafeIfOnlyDeadLocksRemoved(config, steps[..k]);
    forall c: Caller | Enabled(config, After(config, steps[..k]), Create(c))
      ensures AtMostOneLive(Next(config, After(config, steps[..k]), Create(c)))
    {
      CreateFromExclusive(config, After(config, steps[..k]), c);
    }
  }

  lemma UnsafeAfterRemoval(config: Config, steps: seq<Step>, k: nat)
    requires IsRun(config, steps) && k < |steps| && steps[k].Remove?
    ensures PrefixRun(config, steps, k) && PrefixRun(config, steps, k + 1)
    ensures LiveLock(After(config, steps[..k])) ==> !SafeToCreate(config, After(config, steps[..k + 1]))
  {
    PrefixIsRun(config, steps, k);
    PrefixIsRun(config, steps, k + 1);
    assert steps[..k + 1][..k] == steps[..k];
    if LiveLock(After(config, steps[..k])) {
      RemovalAdmitsSecond(config, After(config, steps[..k]), steps[k]);
    }
  }

  ghost predicate SafeAt(config: Config, steps: seq<Step>, k: nat) {
    PrefixRun(config, steps, k) && SafeToCreate(config, After(config, steps[..k]))
  }

  lemma SafeThroughoutRemovesDead(config: Config, steps: seq<Step>)
    requires IsRun(config, steps) && forall k :: 0 <= k <= |steps| ==> SafeAt(config, steps, k)
    ensures RemovesOnlyDeadLocks(config, steps)
  {
    forall k | 0 <= k < |steps| && steps[k].Remove?
      ensures PrefixRun(config, steps, k) && !LiveLock(After(config, steps[..k]))
    {
      UnsafeAfterRemoval(config, steps, k);
      assert SafeAt(config, steps, k + 1);
    }
  }

  /**
    * At no point of a run are two permits live, or could the next creation of the lock file make two live, exactly when
    * its stale-lock removals hit only dead locks.
    */
  lemma AtMostOneLiveIff(config: Config, steps: seq<Step>)
    requires IsRun(config, steps)
    ensures (forall k :: 0 <= k <= |steps| ==> SafeAt(config, steps, k)) <==> RemovesOnlyDeadLocks(config, steps)
  {
    if RemovesOnlyDeadLocks(config, steps) {
      forall k | 0 <= k <= |steps| ensures SafeAt(config, steps, k) {
        SafeAfterPrefix(config, steps, k);
      }
    }
    if forall k :: 0 <= k <= |steps| ==> SafeAt(config, steps, k) {
      SafeThroughoutRemovesDead(config, steps);
    }
  }

  // ---- When removals hit only dead locks ----

  /** Seeing a stale lock and removing the lock file are one step. */
  predicate AtomicRemoval(steps: seq<Step>) {
    forall k :: 0 <= k < |steps| && steps[k].Remove? ==> k > 0 && steps[k - 1] == Inspect(steps[k].c)
  }

  /** No permit lives so long that its lock goes stale. */
  ghost predicate Punctual(config: Config, steps: seq<Step>)
    requires IsRun(config, steps)
  {
    forall k :: 0 <= k <= |steps| ==>
      PrefixRun(config, steps, k) && !(LiveLock(After(config, steps[..k])) && Stale(config, After(config, steps[..k])))
  }

  /** The lock that is removed right after it was found stale is still that lock. */
  lemma RemovedAfterInspection(config: Config, steps: seq<Step>, k: nat)
    requires IsRun(config, steps) && AtomicRemoval(steps) && Punctual(config, steps)
    requires k < |steps| && steps[k].Remove?
    ensures PrefixRun(config, steps, k) && !LiveLock(After(config, steps[..k]))
  {
    assert PrefixRun(config, steps, k) && PrefixRun(config, steps, k - 1);
    PrefixIsRun(config, steps, k + 1);
    assert steps[..k + 1][..k] == steps[..k] && steps[..k][..k - 1] == steps[..k - 1];
    var s := After(config, steps[..k - 1]);
    assert After(config, steps[..k]) == Next(config, s, Inspect(steps[k].c));
  }

  lemma AtomicAndPunctualSuffice(config: Config, steps: seq<Step>)
    requires IsRun(config, steps) && AtomicRemoval(steps) && Punctual(config, steps)
    ensures RemovesOnlyDeadLocks(config, steps)
  {
    hide IsRun, After, LiveLock, AtomicRemoval, Punctual;
    forall k | 0 <= k < |steps| && steps[k].Remove?
      ensures PrefixRun(config, steps, k) && !LiveLock(After(config, steps[..k]))
    {
      RemovedAfterInspection(config, steps, k);
    }
  }

  /** With atomic removal and punctual holders, at most one permit is live and grants are spaced, whoever crashes. */
  lemma SafeIfAtomicAndPunctual(config: Config, steps: seq<Step>)
    requires IsRun(config, steps) && AtomicRemoval(steps) && Punctual(config, steps)
    ensures AtMostOneLive(After(config, steps)) && Spaced(config, After(config, steps))
  {
    AtomicAndPunctualSuffice(config, steps);
    SafeIfOnlyDeadLocksRemoved(config, steps);
  }

  // ---- Without atomic removal ----

  lemma Extend(config: Config, steps: seq<Step>, s: State, step: Step) returns (longer: seq<Step>, t: State)
    requires IsRun(config, steps) && After(config, steps) == s && Enabled(config, s, step)
    ensures longer == steps + [step] && t == Next(config, s, step)
    ensures IsRun(config, longer) && After(config, longer) == t
  {
    longer, t := steps + [step], Next(config, s, step);
    assert longer[..|steps|] == steps;
  }

  /** A holder crashes and its lock goes stale while two others wait. */
  const WAITING := State(10, Some(Lock(0, 0)), 0, map[0 := Crashed, 1 := Trying, 2 := Trying], [])

  /** The holder has crashed and its lock has gone stale. */
  const STALLED := State(10, Some(Lock(0, 0)), 0, map[0 := Crashed], [])

  lemma StalledIsReached() returns (steps: seq<Step>)
    ensures var config := Config(0, 10);
            && steps == [Start(0), Create(0), Crash(0), Tick(10)]
            && IsRun(config, steps) && After(config, steps) == STALLED
  {
    var config := Config(0, 10);
    var s: State;
    steps, s := Extend(config, [], INITIAL, Start(0));
    steps, s := Extend(config, steps, s, Create(0));
    steps, s := Extend(config, steps, s, Crash(0));
    steps, s := Extend(config, steps, s, Tick(10));
    assert s.phase == STALLED.phase;
  }

  lemma WaitingIsReached() returns (steps: seq<Step>)
    ensures var config := Config(0, 10);
            && steps == [Start(0), Create(0), Crash(0), Tick(10), Start(1), Start(2)]
            && IsRun(config, steps) && After(config, steps) == WAITING
  {
    var config := Config(0, 10);
    steps := StalledIsReached();
    var s := STALLED;
    steps, s := Extend(config, steps, s, Start(1));
    steps, s := Extend(config, steps, s, Start(2));
    assert s.phase == WAITING.phase;
  }

  /** Both waiting callers have seen the stale lock, and one has replaced it by its own. */
  const RACED := State(10, Some(Lock(1, 10)), 0, map[0 := Crashed, 1 := Locked, 2 := Removing], [])

  lemma RacedIsReached() returns (steps: seq<Step>)
    ensures var config := Config(0, 10);
            && steps == [Start(0), Create(0), Crash(0), Tick(10), Start(1), Start(2)]
                        + [Inspect(1), Inspect(2), Remove(1), Create(1)]
            && IsRun(config, steps) && After(config, steps) == RACED
  {
    hide IsRun, After;
    var config := Config(0, 10);
    steps := WaitingIsReached();
    var s := WAITING;
    steps, s := Extend(config, steps, s, Inspect(1));
    steps, s := Extend(config, steps, s, Inspect(2));
    steps, s := Extend(config, steps, s, Remove(1));
    steps, s := Extend(config, steps, s, Create(1));
    assert s.phase == RACED.phase;
  }

  /** Both see the crashed holder's lock; the second removal takes away the first one's new lock, and both get a
      permit. */
  lemma RacyRunHasTwoPermits() returns (steps: seq<Step>)
    ensures var config := Config(0, 10);
            && steps == [Start(0), Create(0), Crash(0), Tick(10), Start(1), Start(2)]
                        + [Inspect(1), Inspect(2), Remove(1), Create(1), Remove(2), Create(2)]
            && IsRun(config, steps)
            && PhaseOf(After(config, steps), 1) == Locked == PhaseOf(After(config, steps), 2)
  {
    var config := Config(0, 10);
    steps := RacedIsReached();
    var s := RACED;
    steps, s := Extend(config, steps, s, Remove(2));
    steps, s := Extend(config, steps, s, Create(2));
  }
}
