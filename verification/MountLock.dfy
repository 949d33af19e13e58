/**
 * Mounting one overlay at a time: any number of threads run commands, each under the lock that the
 * registry keeps for the command's upper directory.
 */
module MountLock {
  type Thread = nat
  type LockId = nat

  const MAX_ATTEMPTS: nat := 5

  /** An attempt's exit status, and whether its output says the device is busy. */
  datatype Attempt = Attempt(rc: int, busy: bool)

  predicate Retried(a: Attempt) {
    a.rc == 1 && a.busy
  }

  /** Where a thread is in `run_command`; `tries` are the attempts that were reaped. */
  datatype Pc =
    | Idle
    | Asking(upper: string)
    | Waiting(upper: string, lock: LockId)
    | Holding(upper: string, lock: LockId, tries: seq<Attempt>, running: bool)

  /** The registry under its guard, who holds each lock, and the threads. */
  datatype State = State(registry: map<string, LockId>, holder: map<LockId, Thread>, threads: map<Thread, Pc>,
                         next: LockId)

  datatype Step =
    | Call(t: Thread, upper: string)
    | Lookup(t: Thread)
    | Acquire(t: Thread)
    | Spawn(t: Thread)
    | Reap(t: Thread, a: Attempt)
    | Release(t: Thread)

  function PcOf(s: State, t: Thread): Pc {
    if t in s.threads then s.threads[t] else Idle
  }

  predicate IsFree(s: State, lock: LockId) {
    lock !in s.holder
  }

  /** The last attempt must be repeated: it was busy and there are attempts left. */
  predicate MustRetry(tries: seq<Attempt>) {
    tries == [] || (|tries| < MAX_ATTEMPTS && Retried(tries[|tries| - 1]))
  }

  predicate Enabled(s: State, step: Step) {
    var pc := PcOf(s, step.t);
    match step
    case Call(_, upper) => pc.Idle? && upper != ""
    case Lookup(_) => pc.Asking?
    case Acquire(_) => pc.Waiting? && IsFree(s, pc.lock)
    case Spawn(_) => pc.Holding? && !pc.running && MustRetry(pc.tries)
    case Reap(_, _) => pc.Holding? && pc.running
    case Release(_) => pc.Holding? && !pc.running && !MustRetry(pc.tries)
  }

  function Move(s: State, t: Thread, pc: Pc): State {
    s.(threads := s.threads[t := pc])
  }

  function Apply(s: State, step: Step): State
    requires Enabled(s, step)
  {
    var pc := PcOf(s, step.t);
    match step
    case Call(t, upper) => Move(s, t, Asking(upper))
    case Lookup(t) =>
      if pc.upper in s.registry then Move(s, t, Waiting(pc.upper, s.registry[pc.upper]))
      else Move(s.(registry := s.registry[pc.upper := s.next], next := s.next + 1), t, Waiting(pc.upper, s.next))
    case Acquire(t) => Move(s.(holder := s.holder[pc.lock := t]), t, Holding(pc.upper, pc.lock, [], false))
    case Spawn(t) => Move(s, t, pc.(running := true))
    case Reap(t, a) => Move(s, t, pc.(running := false, tries := pc.tries + [a]))
    case Release(t) => Move(s.(holder := s.holder - {pc.lock}), t, Idle)
  }

  predicate Init(s: State) {
    s.registry == map[] && s.holder == map[] && s.threads == map[]
  }

  /** All locks of the registry are different, and made before `next`. */
  predicate RegistryOk(s: State) {
    && (forall u :: u in s.registry ==> s.registry[u] < s.next)
    && (forall u, v :: u in s.registry && v in s.registry && s.registry[u] == s.registry[v] ==> u == v)
  }

  /** A thread waits for, or holds, the registry's lock for its upper directory. */
  predicate ThreadsOk(s: State) {
    forall t :: t in s.threads && (s.threads[t].Waiting? || s.threads[t].Holding?) ==>
      s.threads[t].upper in s.registry && s.registry[s.threads[t].upper] == s.threads[t].lock
  }

  /** Threads and locks agree on who holds what. */
  predicate HoldersOk(s: State) {
    && (forall t :: t in s.threads && s.threads[t].Holding? ==>
          s.threads[t].lock in s.holder && s.holder[s.threads[t].lock] == t)
    && (forall l :: l in s.holder ==> s.holder[l] in s.threads && s.threads[s.holder[l]].Holding?
                                      && s.threads[s.holder[l]].lock == l)
  }

  /** All attempts but the last were retried, at most five were made, and one may be running. */
  predicate TriesOk(pc: Pc) {
    pc.Holding? ==>
      (|pc.tries| <= MAX_ATTEMPTS && (pc.running ==> MustRetry(pc.tries))
       && forall i :: 0 <= i < |pc.tries| - 1 ==> Retried(pc.tries[i]))
  }

  predicate Inv(s: State) {
    RegistryOk(s) && ThreadsOk(s) && HoldersOk(s) && forall t :: t in s.threads ==> TriesOk(s.threads[t])
  }

  lemma LookupRegistry(s: State, t: Thread)
    requires RegistryOk(s) && ThreadsOk(s) && Enabled(s, Lookup(t))
    ensures RegistryOk(Apply(s, Lookup(t))) && ThreadsOk(Apply(s, Lookup(t)))
  {
  }

  lemma LookupHolders(s: State, t: Thread)
    requires HoldersOk(s) && Enabled(s, Lookup(t)) && forall u :: u in s.threads ==> TriesOk(s.threads[u])
    ensures var next := Apply(s, Lookup(t));
      HoldersOk(next) && forall u :: u in next.threads ==> TriesOk(next.threads[u])
  {
  }

  lemma LookupKeeps(s: State, t: Thread)
    requires Inv(s) && Enabled(s, Lookup(t))
    ensures Inv(Apply(s, Lookup(t)))
  {
    LookupRegistry(s, t);
    LookupHolders(s, t);
  }

  lemma AcquireKeeps(s: State, t: Thread)
    requires Inv(s) && Enabled(s, Acquire(t))
    ensures Inv(Apply(s, Acquire(t)))
  {
  }

  lemma CallKeeps(s: State, step: Step)
    requires Inv(s) && Enabled(s, step) && step.Call?
    ensures Inv(Apply(s, step))
  {
  }

  /** A holder that keeps its lock leaves registry and holders as they are. */
  lemma HoldingOn(s: State, t: Thread, pc: Pc)
    requires RegistryOk(s) && ThreadsOk(s) && HoldersOk(s) && t in s.threads && s.threads[t].Holding?
    requires pc.Holding? && pc.upper == s.threads[t].upper && pc.lock == s.threads[t].lock
    ensures RegistryOk(Move(s, t, pc)) && ThreadsOk(Move(s, t, pc)) && HoldersOk(Move(s, t, pc))
  {
  }

  lemma SpawnKeeps(s: State, t: Thread)
    requires Inv(s) && Enabled(s, Spawn(t))
    ensures Inv(Apply(s, Spawn(t)))
  {
    HoldingOn(s, t, s.threads[t].(running := true));
  }

  lemma ReapTries(pc: Pc, a: Attempt)
    requires TriesOk(pc) && pc.Holding? && pc.running
    ensures TriesOk(pc.(running := false, tries := pc.tries + [a]))
  {
  }

  lemma ReapKeeps(s: State, t: Thread, a: Attempt)
    requires Inv(s) && Enabled(s, Reap(t, a))
    ensures Inv(Apply(s, Reap(t, a)))
  {
    var pc := s.threads[t];
    HoldingOn(s, t, pc.(running := false, tries := pc.tries + [a]));
    ReapTries(pc, a);
  }

  lemma ReleaseKeeps(s: State, t: Thread)
    requires Inv(s) && Enabled(s, Release(t))
    ensures Inv(Apply(s, Release(t)))
  {
  }

  lemma {:induction false} StepKeepsInv(s: State, step: Step)
    requires Inv(s) && Enabled(s, step)
    ensures Inv(Apply(s, step))
  {
    match step
    case Lookup(t) => LookupKeeps(s, t);
    case Acquire(t) => AcquireKeeps(s, t);
    case Release(t) => ReleaseKeeps(s, t);
    case Call(_, _) => CallKeeps(s, step);
    case Spawn(t) => SpawnKeeps(s, t);
    case Reap(t, a) => ReapKeeps(s, t, a);
  }

  predicate IsRun(s: State, steps: seq<Step>)
    decreases |steps|
  {
    steps == [] || (Enabled(s, steps[0]) && IsRun(Apply(s, steps[0]), steps[1..]))
  }

  function After(s: State, steps: seq<Step>): State
    requires IsRun(s, steps)
    decreases |steps|
  {
    if steps == [] then s else After(Apply(s, steps[0]), steps[1..])
  }

  lemma {:induction false} RunKeepsInv(s: State, steps: seq<Step>)
    requires Inv(s) && IsRun(s, steps)
    ensures Inv(After(s, steps))
    decreases |steps|
  {
    if steps != [] {
      StepKeepsInv(s, steps[0]);
      RunKeepsInv(Apply(s, steps[0]), steps[1..]);
    }
  }

  /** The registry never forgets or changes a lock: an upper directory keeps the one it was given. */
  lemma {:induction false} LocksAreStable(s: State, steps: seq<Step>, upper: string)
    requires IsRun(s, steps) && upper in s.registry
    ensures upper in After(s, steps).registry && After(s, steps).registry[upper] == s.registry[upper]
    decreases |steps|
  {
    if steps != [] {
      LocksAreStable(Apply(s, steps[0]), steps[1..], upper);
    }
  }

  /** A process of `t` stands between spawn and reap. */
  predicate Mounted(s: State, t: Thread, upper: string) {
    PcOf(s, t).Holding? && PcOf(s, t).running && PcOf(s, t).upper == upper
  }

  /** In every reachable state at most one process mounts an upper directory. */
  lemma OneMountPerUpper(s: State, steps: seq<Step>, upper: string, t: Thread, u: Thread)
    requires Init(s) && IsRun(s, steps)
    requires Mounted(After(s, steps), t, upper) && Mounted(After(s, steps), u, upper)
    ensures t == u
  {
    RunKeepsInv(s, steps);
  }

  /** A thread is kept waiting only by a thread that works on the same upper directory. */
  lemma BlockedOnlyBySameUpper(s: State, steps: seq<Step>, t: Thread)
    requires Init(s) && IsRun(s, steps) && PcOf(After(s, steps), t).Waiting?
    ensures var end := After(s, steps);
      !Enabled(end, Acquire(t)) <==>
      exists u :: u in end.threads && u != t && end.threads[u].Holding? && end.threads[u].upper == end.threads[t].upper
  {
    RunKeepsInv(s, steps);
    var end := After(s, steps);
    var pc := PcOf(end, t);
    if !Enabled(end, Acquire(t)) {
      var u := end.holder[pc.lock];
      assert end.threads[u].lock == pc.lock && end.threads[u].upper == pc.upper;
    }
  }

  /** What a call returns is its last attempt; it made one to five, and every one before was busy. */
  lemma CallResult(s: State, steps: seq<Step>, t: Thread)
    requires Init(s) && IsRun(s, steps) && Enabled(After(s, steps), Release(t))
    ensures var tries := PcOf(After(s, steps), t).tries;
      1 <= |tries| <= 5 && (forall i :: 0 <= i < |tries| - 1 ==> tries[i].rc == 1 && tries[i].busy)
      && (tries[|tries| - 1].rc == 1 && tries[|tries| - 1].busy ==> |tries| == 5)
  {
    RunKeepsInv(s, steps);
  }

  /** The retry loop itself: `attempt(k)` is what the k-th try would give. */
  method RunWithRetry(attempt: nat -> Attempt) returns (result: Attempt, tries: nat)
    ensures 1 <= tries <= 5 && result == attempt(tries - 1)
    ensures forall k :: 0 <= k < tries - 1 ==> attempt(k).rc == 1 && attempt(k).busy
    ensures result.rc == 1 && result.busy ==> tries == 5
  {
    result := attempt(0);
    tries := 1;
    for i := 0 to MAX_ATTEMPTS - 1
      invariant tries == i + 1 && result == attempt(i)
      invariant forall k :: 0 <= k < i ==> attempt(k).rc == 1 && attempt(k).busy
    {
      if result.rc != 1 || !result.busy {
        break;
      }
      result := attempt(tries);
      tries := tries + 1;
    }
  }
}
