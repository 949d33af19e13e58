/** The shared layer store as a protocol: any number of sessions commit, roll back, reset
    and are destroyed while collections run. Index edits happen under one lock; a
    session's in-memory stack and its persisted `meta.json` change outside it, so each
    operation is split at lock acquire, index edit, lock release, stack edit, meta write
    and wipe, and steps of different sessions interleave freely. */
module StoreProtocol {
  import opened Wrappers
  import opened FileTree
  import opened Overlay
  import opened Manifest
  import opened LayerIndex
  import opened LayerGc

  /** Where a session stands in the operation it is performing. */
  datatype Pc =
    | Idle
    | CommitHashed(id: CommitId)
    | CommitLocked(id: CommitId)
    | CommitCounted(id: CommitId)
    | CommitUnlocked(id: CommitId)
    | CommitAppended
    | CommitPersisted
    | RollbackCut(removed: seq<CommitId>)
    | RollbackLocked(removed: seq<CommitId>)
    | RollbackCounted
    | RollbackUnlocked
    | RollbackWiped
    | DestroyWanted
    | DestroyLocked
    | DestroyCounted
    | DestroyUnlocked
    | Gone

  datatype Session = Session(stack: seq<CommitId>, upper: Tree, meta: seq<CommitId>, pc: Pc)

  datatype Holder = BySession(i: nat) | ByGc

  /** A collection reads the persisted stacks one by one, then edits the index. */
  datatype Collector = Off | Scanning(toRead: set<nat>, live: set<CommitId>) | Peeled

  datatype State = State(
    layers: map<CommitId, Tree>,
    index: Index,
    lock: Option<Holder>,
    sessions: seq<Session>,
    gc: Collector)

  datatype Step =
    | Create
    | Run(i: nat, upper: Tree)
    | Reset(i: nat)
    | BeginCommit(i: nat)
    | BeginRollback(i: nat, id: CommitId)
    | BeginDestroy(i: nat)
    | Acquire(i: nat)
    | EditIndex(i: nat)
    | Release(i: nat)
    | Finish(i: nat)
    | GcAcquire
    | GcRead(i: nat)
    | GcPeel
    | GcRelease

  function Init(): State {
    State(map[], map[], None, [], Off)
  }

  // ---- Steps ----

  function FirstIndex(stack: seq<CommitId>, id: CommitId): nat
    requires id in stack
  {
    if stack[0] == id then 0 else 1 + FirstIndex(stack[1..], id)
  }

  predicate WantsLock(pc: Pc) {
    pc.CommitHashed? || pc.RollbackCut? || pc.DestroyWanted?
  }

  predicate ReadyToEdit(pc: Pc) {
    pc.CommitLocked? || pc.RollbackLocked? || pc.DestroyLocked?
  }

  predicate Edited(pc: Pc) {
    pc.CommitCounted? || pc.RollbackCounted? || pc.DestroyCounted?
  }

  predicate HoldsLock(pc: Pc) {
    ReadyToEdit(pc) || Edited(pc)
  }

  predicate AfterUnlock(pc: Pc) {
    pc.CommitUnlocked? || pc.CommitAppended? || pc.CommitPersisted? ||
    pc.RollbackUnlocked? || pc.RollbackWiped? || pc.DestroyUnlocked?
  }

  ghost predicate AcceptableUpper(t: Tree) {
    WellFormed(t) && PlainTargets(t)
  }

  ghost predicate Enabled(s: State, step: Step) {
    match step
    case Create => true
    case Run(i, upper) => i < |s.sessions| && s.sessions[i].pc.Idle? && AcceptableUpper(upper)
    case Reset(i) => i < |s.sessions| && s.sessions[i].pc.Idle?
    case BeginCommit(i) => i < |s.sessions| && s.sessions[i].pc.Idle?
    case BeginRollback(i, _) => i < |s.sessions| && s.sessions[i].pc.Idle?
    case BeginDestroy(i) => i < |s.sessions| && s.sessions[i].pc.Idle?
    case Acquire(i) => i < |s.sessions| && WantsLock(s.sessions[i].pc) && s.lock.None?
    case EditIndex(i) => i < |s.sessions| && ReadyToEdit(s.sessions[i].pc)
    case Release(i) => i < |s.sessions| && Edited(s.sessions[i].pc)
    case Finish(i) => i < |s.sessions| && AfterUnlock(s.sessions[i].pc)
    case GcAcquire => s.lock.None?
    case GcRead(i) => s.gc.Scanning? && i in s.gc.toRead
    case GcPeel => s.gc.Scanning? && s.gc.toRead == {}
    case GcRelease => s.gc.Peeled?
  }

  function SetSession(s: State, i: nat, t: Session): State
    requires i < |s.sessions|
  {
    s.(sessions := s.sessions[i := t])
  }

  /** Leaving a session where it is in memory, only its position moves. */
  function Move(s: State, i: nat, pc: Pc): State
    requires i < |s.sessions|
  {
    SetSession(s, i, s.sessions[i].(pc := pc))
  }

  /** A rollback to an id that is not in the stack raises before anything changes. */
  function CutStack(t: Session, id: CommitId): Session {
    if id in t.stack then
      var n := FirstIndex(t.stack, id) + 1;
      FirstIndexIs(t.stack, id);
      t.(stack := t.stack[..n], pc := RollbackCut(t.stack[n..]))
    else t
  }

  lemma {:induction false} FirstIndexIs(stack: seq<CommitId>, id: CommitId)
    requires id in stack
    ensures var n := FirstIndex(stack, id);
            n < |stack| && stack[n] == id && forall k | 0 <= k < n :: stack[k] != id
  {
    if stack[0] != id {
      FirstIndexIs(stack[1..], id);
      assert forall k | 1 <= k < |stack| :: stack[k] == stack[1..][k - 1];
    }
  }

  function LockedPc(pc: Pc): Pc
    requires WantsLock(pc)
  {
    match pc
    case CommitHashed(id) => CommitLocked(id)
    case RollbackCut(removed) => RollbackLocked(removed)
    case DestroyWanted => DestroyLocked
  }

  /** What a session does to the store while it holds the lock. */
  function Edit(s: State, i: nat): State
    requires i < |s.sessions| && ReadyToEdit(s.sessions[i].pc)
  {
    var t := s.sessions[i];
    match t.pc
    case CommitLocked(id) =>
      Move(s.(layers := if id in s.layers then s.layers else s.layers[id := t.upper],
              index := CommitIndex(s.index, id, Tip(t.stack))), i, CommitCounted(id))
    case RollbackLocked(removed) =>
      Move(s.(index := LayerIndex.Release(s.index, removed)), i, RollbackCounted)
    case DestroyLocked =>
      Move(s.(index := LayerIndex.Release(s.index, t.stack)), i, DestroyCounted)
  }

  function UnlockedPc(pc: Pc): Pc
    requires Edited(pc)
  {
    match pc
    case CommitCounted(id) => CommitUnlocked(id)
    case RollbackCounted => RollbackUnlocked
    case DestroyCounted => DestroyUnlocked
  }

  /** The unlocked tail of an operation, one effect at a time. */
  function Tail(t: Session): Session
    requires AfterUnlock(t.pc)
  {
    match t.pc
    case CommitUnlocked(id) => t.(stack := t.stack + [id], pc := CommitAppended)
    case CommitAppended => t.(meta := t.stack, pc := CommitPersisted)
    case CommitPersisted => t.(upper := Seeds(), pc := Idle)
    case RollbackUnlocked => t.(upper := Seeds(), pc := RollbackWiped)
    case RollbackWiped => t.(meta := t.stack, pc := Idle)
    case DestroyUnlocked => t.(pc := Gone)
  }

  ghost function OnDisk(s: State): set<nat> {
    set i: nat | i < |s.sessions| && !s.sessions[i].pc.Gone?
  }

  ghost function MetaIds(s: State, i: nat): set<CommitId> {
    if i < |s.sessions| && !s.sessions[i].pc.Gone? then set x | x in s.sessions[i].meta else {}
  }

  ghost function Apply(s: State, step: Step): State
    requires Enabled(s, step)
  {
    match step
    case Create => s.(sessions := s.sessions + [Session([], Seeds(), [], Idle)])
    case Run(i, upper) => SetSession(s, i, s.sessions[i].(upper := upper))
    case Reset(i) => SetSession(s, i, s.sessions[i].(upper := Seeds()))
    case BeginCommit(i) => Move(s, i, CommitHashed(CommitIdOf(s.sessions[i].upper)))
    case BeginRollback(i, id) => SetSession(s, i, CutStack(s.sessions[i], id))
    case BeginDestroy(i) => Move(s, i, DestroyWanted)
    case Acquire(i) => Move(s.(lock := Some(BySession(i))), i, LockedPc(s.sessions[i].pc))
    case EditIndex(i) => Edit(s, i)
    case Release(i) => Move(s.(lock := None), i, UnlockedPc(s.sessions[i].pc))
    case Finish(i) => SetSession(s, i, Tail(s.sessions[i]))
    case GcAcquire => s.(lock := Some(ByGc), gc := Scanning(OnDisk(s), {}))
    case GcRead(i) => s.(gc := Scanning(s.gc.toRead - {i}, s.gc.live + MetaIds(s, i)))
    case GcPeel =>
      var kept := Peel(s.index, s.gc.live);
      s.(index := kept, layers := s.layers - (s.index.Keys - kept.Keys), gc := Peeled)
    case GcRelease => s.(lock := None, gc := Off)
  }

  // ---- The invariant ----

  /** The references a session holds in the index's session counts. */
  ghost function Charge(t: Session): seq<CommitId> {
    match t.pc
    case Gone => []
    case DestroyCounted => []
    case DestroyUnlocked => []
    case CommitCounted(id) => t.stack + [id]
    case CommitUnlocked(id) => t.stack + [id]
    case RollbackCut(removed) => t.stack + removed
    case RollbackLocked(removed) => t.stack + removed
    case _ => t.stack
  }

  ghost function Charged(sessions: seq<Session>): multiset<CommitId> {
    if sessions == [] then multiset{}
    else Charged(sessions[..|sessions| - 1]) + multiset(Charge(sessions[|sessions| - 1]))
  }

  /** How far the persisted stack lags behind the one in memory. */
  ghost predicate MetaLag(t: Session) {
    match t.pc
    case Gone => true
    case CommitHashed(id) => t.meta == t.stack && id == CommitIdOf(t.upper)
    case CommitLocked(id) => t.meta == t.stack && id == CommitIdOf(t.upper)
    case CommitCounted(id) => t.meta == t.stack && id == CommitIdOf(t.upper)
    case CommitUnlocked(id) => t.meta == t.stack && id == CommitIdOf(t.upper)
    case CommitAppended => t.stack != [] && t.meta == t.stack[..|t.stack| - 1]
    case RollbackCut(removed) => t.meta == t.stack + removed
    case RollbackLocked(removed) => t.meta == t.stack + removed
    case RollbackCounted => t.stack <= t.meta
    case RollbackUnlocked => t.stack <= t.meta
    case RollbackWiped => t.stack <= t.meta
    case _ => t.meta == t.stack
  }

  ghost predicate LockConsistent(s: State) {
    (forall i: nat | i < |s.sessions| :: HoldsLock(s.sessions[i].pc) <==> s.lock == Some(BySession(i))) &&
    (!s.gc.Off? <==> s.lock == Some(ByGc)) &&
    (forall i: nat | s.lock == Some(BySession(i)) :: i < |s.sessions|)
  }

  ghost predicate Counted(s: State) {
    SessionsExact(s.index, Charged(s.sessions)) && LayersExact(s.index) && s.layers.Keys == s.index.Keys
  }

  /** Every stored tree is filed under its own commit id. */
  ghost predicate Addressed(s: State) {
    forall id | id in s.layers :: AcceptableUpper(s.layers[id]) && CommitIdOf(s.layers[id]) == id
  }

  ghost predicate SessionsOk(s: State) {
    forall i | 0 <= i < |s.sessions| :: AcceptableUpper(s.sessions[i].upper) && MetaLag(s.sessions[i])
  }

  ghost predicate MetasStored(s: State) {
    forall i: nat, x | x in MetaIds(s, i) :: x in s.layers
  }

  /** While a collection scans, a persisted id it may never see is held by a count. */
  ghost predicate ScanCovers(s: State) {
    s.gc.Scanning? ==>
      forall i: nat, x | i !in s.gc.toRead && x in MetaIds(s, i) ::
        x in s.gc.live || x in Charge(s.sessions[i])
  }

  ghost predicate Inv(s: State) {
    LockConsistent(s) && Counted(s) && Addressed(s) && SessionsOk(s) && MetasStored(s) && ScanCovers(s)
  }

  /** Every id in an in-memory stack, in a persisted stack, or between a commit's unlock
      and its meta write has its layer in the store. */
  ghost predicate Safe(s: State) {
    forall i: nat | i < |s.sessions| && !s.sessions[i].pc.Gone? ::
      (forall x | x in s.sessions[i].stack :: x in s.layers) &&
      (forall x | x in s.sessions[i].meta :: x in s.layers) &&
      (s.sessions[i].pc.CommitCounted? || s.sessions[i].pc.CommitUnlocked? ==>
         s.sessions[i].pc.id in s.layers)
  }

  // ---- Charges ----

  lemma {:induction false} ChargedUpdate(sessions: seq<Session>, i: nat, t: Session)
    requires i < |sessions|
    ensures Charged(sessions[i := t]) + multiset(Charge(sessions[i])) ==
            Charged(sessions) + multiset(Charge(t))
  {
    var n := |sessions| - 1;
    var sessions' := sessions[i := t];
    ghost var front, front' := Charged(sessions[..n]), Charged(sessions'[..n]);
    ghost var was, now, last := multiset(Charge(sessions[i])), multiset(Charge(t)), multiset(Charge(sessions[n]));
    if i == n {
      assert sessions'[..n] == sessions[..n];
      Swap(front, now, last);
    } else {
      ChargedUpdate(sessions[..n], i, t);
      assert sessions'[..n] == sessions[..n][i := t];
      Swap(front', last, was);
      Swap(front, last, now);
    }
  }

  lemma Swap<T>(a: multiset<T>, b: multiset<T>, c: multiset<T>)
    ensures a + b + c == a + c + b
  {
  }

  lemma {:induction false} ChargeIncluded(sessions: seq<Session>, i: nat)
    requires i < |sessions|
    ensures multiset(Charge(sessions[i])) <= Charged(sessions)
  {
    if i < |sessions| - 1 {
      ChargeIncluded(sessions[..|sessions| - 1], i);
    }
  }

  /** A charged id is counted, hence stored. */
  lemma ChargedIsStored(s: State, i: nat, x: CommitId)
    requires Counted(s) && i < |s.sessions| && x in Charge(s.sessions[i])
    ensures x in s.index && s.index[x].sessions > 0 && x in s.layers
  {
    ChargeIncluded(s.sessions, i);
    assert x in multiset(Charge(s.sessions[i]));
    assert SessionCount(s.index, x) == Charged(s.sessions)[x] > 0;
  }

  lemma StackStored(s: State, i: nat, x: CommitId)
    requires Inv(s) && i < |s.sessions| && !s.sessions[i].pc.Gone? && x in s.sessions[i].stack
    ensures x in s.layers
  {
    var t := s.sessions[i];
    if x in Charge(t) {
      ChargedIsStored(s, i, x);
    } else {
      assert t.pc.DestroyCounted? || t.pc.DestroyUnlocked?;
      assert x in MetaIds(s, i);
    }
  }

  lemma InvIsSafe(s: State)
    requires Inv(s)
    ensures Safe(s)
  {
    forall i: nat | i < |s.sessions| && !s.sessions[i].pc.Gone?
      ensures forall x | x in s.sessions[i].stack :: x in s.layers
      ensures forall x | x in s.sessions[i].meta :: x in s.layers
      ensures s.sessions[i].pc.CommitCounted? || s.sessions[i].pc.CommitUnlocked? ==>
                s.sessions[i].pc.id in s.layers
    {
      var t := s.sessions[i];
      forall x | x in t.stack ensures x in s.layers { StackStored(s, i, x); }
      forall x | x in t.meta ensures x in s.layers { assert x in MetaIds(s, i); }
      if t.pc.CommitCounted? || t.pc.CommitUnlocked? {
        assert t.pc.id in Charge(t);
        ChargedIsStored(s, i, t.pc.id);
      }
    }
  }
}
