/** Every interleaving keeps the protocol's invariant, so no layer that a stack, a
    persisted meta or a commit in flight refers to is ever collected. */
module StoreSafety {
  import opened Wrappers
  import opened FileTree
  import opened Overlay
  import opened Manifest
  import opened LayerIndex
  import opened LayerGc
  import opened StoreProtocol

  lemma SeedsAcceptable()
    ensures AcceptableUpper(Seeds())
  {
    assert ValidName("workspace") && ValidName("tmp");
  }

  // ---- Steps that move one session and leave the store alone ----

  /** The session's new position keeps its references and persists nothing unreferenced. */
  ghost predicate KeepsReferences(t: Session, t': Session) {
    Charge(t') == Charge(t) && AcceptableUpper(t'.upper) && MetaLag(t') &&
    (!t'.pc.Gone? ==> !t.pc.Gone? && forall x | x in t'.meta :: x in t.meta || x in Charge(t'))
  }

  ghost predicate MovesOneSession(s: State, s': State, i: nat) {
    i < |s.sessions| && |s'.sessions| == |s.sessions| &&
    s'.sessions == s.sessions[i := s'.sessions[i]] &&
    s'.layers == s.layers && s'.index == s.index && s'.gc == s.gc
  }

  lemma MovedMetasStored(s: State, s': State, i: nat)
    requires Inv(s) && MovesOneSession(s, s', i) && KeepsReferences(s.sessions[i], s'.sessions[i])
    ensures MetasStored(s')
  {
    forall j: nat, x | x in MetaIds(s', j) ensures x in s'.layers {
      if j == i && x !in s.sessions[i].meta {
        ChargedIsStored(s, i, x);
      } else {
        assert x in MetaIds(s, j);
      }
    }
  }

  lemma MovedScanCovers(s: State, s': State, i: nat)
    requires Inv(s) && MovesOneSession(s, s', i) && KeepsReferences(s.sessions[i], s'.sessions[i])
    ensures ScanCovers(s')
  {
    if s'.gc.Scanning? {
      forall j: nat, x | j !in s'.gc.toRead && x in MetaIds(s', j)
        ensures x in s'.gc.live || x in Charge(s'.sessions[j])
      {
        if !(j == i && x !in s.sessions[i].meta) {
          assert x in MetaIds(s, j);
        }
      }
    }
  }

  lemma MovedCounted(s: State, s': State, i: nat)
    requires Counted(s) && MovesOneSession(s, s', i)
    requires Charge(s'.sessions[i]) == Charge(s.sessions[i])
    ensures Counted(s')
  {
    ChargedUpdate(s.sessions, i, s'.sessions[i]);
    Cancel(Charged(s.sessions), Charged(s'.sessions), multiset(Charge(s.sessions[i])));
  }

  lemma Cancel<T>(a: multiset<T>, b: multiset<T>, c: multiset<T>)
    requires a + c == b + c
    ensures a == b
  {
    assert a == (a + c) - c && b == (b + c) - c;
  }

  lemma MoveKeepsInv(s: State, s': State, i: nat)
    requires Inv(s) && MovesOneSession(s, s', i) && KeepsReferences(s.sessions[i], s'.sessions[i])
    requires LockConsistent(s')
    ensures Inv(s')
  {
    MovedCounted(s, s', i);
    MovedMetasStored(s, s', i);
    MovedScanCovers(s, s', i);
  }

  // ---- The unlocked steps ----

  /** Neither the old nor the new position holds the lock. */
  lemma MoveUnlocked(s: State, i: nat, t': Session)
    requires Inv(s) && i < |s.sessions| && KeepsReferences(s.sessions[i], t')
    requires !HoldsLock(s.sessions[i].pc) && !HoldsLock(t'.pc)
    ensures Inv(SetSession(s, i, t'))
  {
    MoveKeepsInv(s, SetSession(s, i, t'), i);
  }

  lemma UpperStep(s: State, i: nat, upper: Tree)
    requires Inv(s) && i < |s.sessions| && s.sessions[i].pc.Idle? && AcceptableUpper(upper)
    ensures Inv(SetSession(s, i, s.sessions[i].(upper := upper)))
  {
    MoveUnlocked(s, i, s.sessions[i].(upper := upper));
  }

  lemma BeginCommitStep(s: State, i: nat)
    requires Inv(s) && i < |s.sessions| && s.sessions[i].pc.Idle?
    ensures Inv(Move(s, i, CommitHashed(CommitIdOf(s.sessions[i].upper))))
  {
    MoveUnlocked(s, i, s.sessions[i].(pc := CommitHashed(CommitIdOf(s.sessions[i].upper))));
  }

  lemma CutKeepsReferences(t: Session, id: CommitId)
    requires t.pc.Idle? && AcceptableUpper(t.upper) && MetaLag(t) && id in t.stack
    ensures KeepsReferences(t, CutStack(t, id)) && CutStack(t, id).pc.RollbackCut?
  {
    FirstIndexIs(t.stack, id);
    var n := FirstIndex(t.stack, id) + 1;
    assert t.stack == t.stack[..n] + t.stack[n..];
  }

  lemma BeginRollbackStep(s: State, i: nat, id: CommitId)
    requires Inv(s) && i < |s.sessions| && s.sessions[i].pc.Idle?
    ensures Inv(SetSession(s, i, CutStack(s.sessions[i], id)))
  {
    var t := s.sessions[i];
    if id in t.stack {
      CutKeepsReferences(t, id);
      MoveUnlocked(s, i, CutStack(t, id));
    } else {
      assert s.sessions[i := t] == s.sessions;
    }
  }

  lemma BeginDestroyStep(s: State, i: nat)
    requires Inv(s) && i < |s.sessions| && s.sessions[i].pc.Idle?
    ensures Inv(Move(s, i, DestroyWanted))
  {
    MoveUnlocked(s, i, s.sessions[i].(pc := DestroyWanted));
  }

  lemma HashedLocks(t: Session)
    requires t.pc.CommitHashed? && AcceptableUpper(t.upper) && MetaLag(t)
    ensures KeepsReferences(t, t.(pc := CommitLocked(t.pc.id)))
  {
  }

  lemma CutLocks(t: Session)
    requires t.pc.RollbackCut? && AcceptableUpper(t.upper) && MetaLag(t)
    ensures KeepsReferences(t, t.(pc := RollbackLocked(t.pc.removed)))
  {
  }

  lemma LockedKeeps(t: Session)
    requires WantsLock(t.pc) && AcceptableUpper(t.upper) && MetaLag(t)
    ensures KeepsReferences(t, t.(pc := LockedPc(t.pc)))
    ensures !HoldsLock(t.pc) && HoldsLock(LockedPc(t.pc))
  {
    if t.pc.CommitHashed? {
      HashedLocks(t);
    } else if t.pc.RollbackCut? {
      CutLocks(t);
    }
  }

  lemma AcquireStep(s: State, i: nat)
    requires Inv(s) && Enabled(s, Acquire(i))
    ensures Inv(Move(s.(lock := Some(BySession(i))), i, LockedPc(s.sessions[i].pc)))
  {
    LockedKeeps(s.sessions[i]);
    var s' := Move(s.(lock := Some(BySession(i))), i, LockedPc(s.sessions[i].pc));
    MoveKeepsInv(s, s', i);
  }

  lemma CountedUnlocks(t: Session)
    requires t.pc.CommitCounted? && AcceptableUpper(t.upper) && MetaLag(t)
    ensures KeepsReferences(t, t.(pc := CommitUnlocked(t.pc.id)))
  {
  }

  lemma RolledUnlocks(t: Session)
    requires t.pc.RollbackCounted? && AcceptableUpper(t.upper) && MetaLag(t)
    ensures KeepsReferences(t, t.(pc := RollbackUnlocked))
  {
  }

  lemma UnlockedKeeps(t: Session)
    requires Edited(t.pc) && AcceptableUpper(t.upper) && MetaLag(t)
    ensures KeepsReferences(t, t.(pc := UnlockedPc(t.pc)))
    ensures HoldsLock(t.pc) && !HoldsLock(UnlockedPc(t.pc))
  {
    if t.pc.CommitCounted? {
      CountedUnlocks(t);
    } else if t.pc.RollbackCounted? {
      RolledUnlocks(t);
    }
  }

  lemma ReleaseStep(s: State, i: nat)
    requires Inv(s) && Enabled(s, Step.Release(i))
    ensures Inv(Move(s.(lock := None), i, UnlockedPc(s.sessions[i].pc)))
  {
    UnlockedKeeps(s.sessions[i]);
    var s' := Move(s.(lock := None), i, UnlockedPc(s.sessions[i].pc));
    MoveKeepsInv(s, s', i);
  }

  lemma AppendTail(t: Session)
    requires t.pc.CommitUnlocked? && AcceptableUpper(t.upper) && MetaLag(t)
    ensures KeepsReferences(t, Tail(t))
  {
    assert (t.stack + [t.pc.id])[..|t.stack|] == t.stack;
  }

  lemma PersistTail(t: Session)
    requires t.pc.CommitAppended? && AcceptableUpper(t.upper) && MetaLag(t)
    ensures KeepsReferences(t, Tail(t))
  {
  }

  lemma WipeTail(t: Session)
    requires (t.pc.CommitPersisted? || t.pc.RollbackUnlocked?) && MetaLag(t)
    ensures KeepsReferences(t, Tail(t))
  {
    SeedsAcceptable();
  }

  lemma PersistCutTail(t: Session)
    requires t.pc.RollbackWiped? && AcceptableUpper(t.upper) && MetaLag(t)
    ensures KeepsReferences(t, Tail(t))
  {
  }

  lemma RemoveTail(t: Session)
    requires t.pc.DestroyUnlocked? && AcceptableUpper(t.upper)
    ensures KeepsReferences(t, Tail(t))
  {
  }

  lemma TailKeepsReferences(t: Session)
    requires AfterUnlock(t.pc) && AcceptableUpper(t.upper) && MetaLag(t)
    ensures KeepsReferences(t, Tail(t))
  {
    if t.pc.CommitUnlocked? { AppendTail(t); }
    else if t.pc.CommitAppended? { PersistTail(t); }
    else if t.pc.CommitPersisted? || t.pc.RollbackUnlocked? { WipeTail(t); }
    else if t.pc.RollbackWiped? { PersistCutTail(t); }
    else { RemoveTail(t); }
  }

  lemma FinishStep(s: State, i: nat)
    requires Inv(s) && Enabled(s, Finish(i))
    ensures Inv(SetSession(s, i, Tail(s.sessions[i])))
  {
    var t := s.sessions[i];
    TailKeepsReferences(t);
    TailUnlocked(t);
    MoveUnlocked(s, i, Tail(t));
  }

  lemma TailUnlocked(t: Session)
    requires AfterUnlock(t.pc)
    ensures !HoldsLock(t.pc) && !HoldsLock(Tail(t).pc)
  {
  }

  lemma CreateCharge(sessions: seq<Session>, t: Session)
    requires Charge(t) == []
    ensures Charged(sessions + [t]) == Charged(sessions)
  {
    assert (sessions + [t])[..|sessions|] == sessions;
  }

  lemma CreateMetas(s: State, t: Session)
    requires t.meta == []
    ensures forall i: nat, x :: x in MetaIds(s.(sessions := s.sessions + [t]), i) ==> x in MetaIds(s, i)
  {
  }

  lemma CreateStep(s: State)
    requires Inv(s)
    ensures Inv(s.(sessions := s.sessions + [Session([], Seeds(), [], Idle)]))
  {
    var t := Session([], Seeds(), [], Idle);
    SeedsAcceptable();
    CreateCharge(s.sessions, t);
    CreateMetas(s, t);
  }

  // ---- The index edits ----

  lemma EditMetas(s: State, s': State, i: nat)
    requires Inv(s) && i < |s.sessions| && s.layers.Keys <= s'.layers.Keys
    requires |s'.sessions| == |s.sessions| && s'.sessions == s.sessions[i := s'.sessions[i]]
    requires s'.sessions[i].meta == s.sessions[i].meta && !s.sessions[i].pc.Gone?
    ensures MetasStored(s')
  {
    forall j: nat, x | x in MetaIds(s', j) ensures x in s'.layers {
      assert x in MetaIds(s, j);
    }
  }

  lemma CommitCharge(t: Session)
    requires t.pc.CommitLocked?
    ensures Charge(t.(pc := CommitCounted(t.pc.id))) == Charge(t) + [t.pc.id]
    ensures Charge(t) == t.stack
  {
  }

  lemma CommitEditSessions(s: State, i: nat)
    requires Counted(s) && i < |s.sessions| && s.sessions[i].pc.CommitLocked?
    ensures SessionsExact(Edit(s, i).index, Charged(Edit(s, i).sessions))
  {
    var t, s' := s.sessions[i], Edit(s, i);
    var id, t' := t.pc.id, t.(pc := CommitCounted(t.pc.id));
    assert s'.sessions == s.sessions[i := t'];
    CommitCountsSession(s.index, id, Tip(t.stack), Charged(s.sessions));
    CommitCharge(t);
    ChargedUpdate(s.sessions, i, t');
    assert multiset(Charge(t')) == multiset{id} + multiset(Charge(t));
    MovePart(Charged(s'.sessions), Charged(s.sessions), multiset{id}, multiset(Charge(t)));
  }

  lemma CommitEditShape(s: State, i: nat)
    requires i < |s.sessions| && s.sessions[i].pc.CommitLocked?
    ensures var t, s' := s.sessions[i], Edit(s, i);
            var id := t.pc.id;
            s' == s.(layers := if id in s.layers then s.layers else s.layers[id := t.upper],
                     index := CommitIndex(s.index, id, Tip(t.stack)),
                     sessions := s.sessions[i := t.(pc := CommitCounted(id))])
  {
  }

  lemma TipIsIndexed(s: State, i: nat)
    requires Counted(s) && i < |s.sessions| && s.sessions[i].pc.CommitLocked?
    ensures Tip(s.sessions[i].stack).Some? ==> Tip(s.sessions[i].stack).value in s.index
  {
    var t := s.sessions[i];
    CommitCharge(t);
    if t.stack != [] {
      assert Tip(t.stack).value in Charge(t);
      ChargedIsStored(s, i, Tip(t.stack).value);
    }
  }

  lemma CommitEditLinks(s: State, i: nat)
    requires Counted(s) && i < |s.sessions| && s.sessions[i].pc.CommitLocked?
    ensures LayersExact(Edit(s, i).index)
  {
    CommitEditShape(s, i);
    TipIsIndexed(s, i);
    CommitKeepsLayersExact(s.index, s.sessions[i].pc.id, Tip(s.sessions[i].stack));
  }

  lemma CommitEditKeys(s: State, i: nat)
    requires Counted(s) && i < |s.sessions| && s.sessions[i].pc.CommitLocked?
    ensures Edit(s, i).layers.Keys == Edit(s, i).index.Keys
  {
    CommitEditShape(s, i);
    CommitCountsSession(s.index, s.sessions[i].pc.id, Tip(s.sessions[i].stack), Charged(s.sessions));
  }

  lemma CommitEditCounted(s: State, i: nat)
    requires Counted(s) && i < |s.sessions| && s.sessions[i].pc.CommitLocked?
    ensures Counted(Edit(s, i))
  {
    CommitEditSessions(s, i);
    CommitEditLinks(s, i);
    CommitEditKeys(s, i);
  }

  lemma MovePart<T>(now: multiset<T>, before: multiset<T>, part: multiset<T>, rest: multiset<T>)
    requires now + rest == before + (part + rest)
    ensures now == before + part
  {
    assert before + (part + rest) == (before + part) + rest;
    Cancel(now, before + part, rest);
  }

  /** An edit of session `i` happens under the lock and moves nothing but its position. */
  ghost predicate EditsUnderLock(s: State, s': State, i: nat) {
    i < |s.sessions| && HoldsLock(s.sessions[i].pc) && s'.lock == s.lock && s'.gc == s.gc &&
    |s'.sessions| == |s.sessions| && HoldsLock(s'.sessions[i].pc) && MetaLag(s'.sessions[i]) &&
    s'.sessions == s.sessions[i := s.sessions[i].(pc := s'.sessions[i].pc)]
  }

  lemma EditFrame(s: State, s': State, i: nat)
    requires Inv(s) && EditsUnderLock(s, s', i)
    ensures LockConsistent(s') && SessionsOk(s') && ScanCovers(s')
  {
  }

  lemma CommitEditAddressed(s: State, i: nat)
    requires Inv(s) && i < |s.sessions| && s.sessions[i].pc.CommitLocked?
    ensures Addressed(Edit(s, i))
  {
    var t := s.sessions[i];
    CommitEditShape(s, i);
    assert AcceptableUpper(t.upper) && CommitIdOf(t.upper) == t.pc.id by {
      assert MetaLag(t);
    }
    StoreOne(s.layers, t.pc.id, t.upper);
  }

  lemma StoreOne(layers: map<CommitId, Tree>, id: CommitId, upper: Tree)
    requires forall x | x in layers :: AcceptableUpper(layers[x]) && CommitIdOf(layers[x]) == x
    requires AcceptableUpper(upper) && CommitIdOf(upper) == id
    ensures var layers' := layers[id := upper];
            forall x | x in layers' :: AcceptableUpper(layers'[x]) && CommitIdOf(layers'[x]) == x
  {
  }

  lemma CommitEdit(s: State, i: nat)
    requires Inv(s) && i < |s.sessions| && s.sessions[i].pc.CommitLocked?
    ensures Inv(Edit(s, i))
  {
    CommitEditCounted(s, i);
    CommitEditAddressed(s, i);
    EditFrame(s, Edit(s, i), i);
    EditMetas(s, Edit(s, i), i);
  }

  function Dropped(t: Session): seq<CommitId> {
    if t.pc.RollbackLocked? then t.pc.removed else t.stack
  }

  lemma ReleaseCharge(s: State, i: nat)
    requires i < |s.sessions| && (s.sessions[i].pc.RollbackLocked? || s.sessions[i].pc.DestroyLocked?)
    ensures var t, s' := s.sessions[i], Edit(s, i);
            var t' := s'.sessions[i];
            s'.sessions == s.sessions[i := t'] && Charge(t) == Charge(t') + Dropped(t) &&
            s' == s.(index := LayerIndex.Release(s.index, Dropped(t)), sessions := s'.sessions)
  {
  }

  lemma ReleaseEditCounted(s: State, i: nat)
    requires Inv(s) && i < |s.sessions|
    requires s.sessions[i].pc.RollbackLocked? || s.sessions[i].pc.DestroyLocked?
    ensures Counted(Edit(s, i))
  {
    var t, s' := s.sessions[i], Edit(s, i);
    ReleaseCharge(s, i);
    ChargeIncluded(s.sessions, i);
    ReleaseCountsSessions(s.index, Dropped(t), Charged(s.sessions));
    ReleaseKeepsLayersExact(s.index, Dropped(t));
    ReleaseShape(s.index, Dropped(t));
    ChargedUpdate(s.sessions, i, s'.sessions[i]);
    TakePart(Charged(s'.sessions), Charged(s.sessions), multiset(Dropped(t)), multiset(Charge(s'.sessions[i])));
  }

  lemma TakePart<T>(now: multiset<T>, before: multiset<T>, part: multiset<T>, rest: multiset<T>)
    requires now + (rest + part) == before + rest
    ensures now == before - part
  {
    assert now + (rest + part) == (now + part) + rest;
    Cancel(now + part, before, rest);
  }

  lemma ReleaseLag(t: Session)
    requires (t.pc.RollbackLocked? || t.pc.DestroyLocked?) && MetaLag(t)
    ensures MetaLag(t.(pc := if t.pc.RollbackLocked? then RollbackCounted else DestroyCounted))
  {
  }

  lemma ReleaseEdit(s: State, i: nat)
    requires Inv(s) && i < |s.sessions|
    requires s.sessions[i].pc.RollbackLocked? || s.sessions[i].pc.DestroyLocked?
    ensures Inv(Edit(s, i))
  {
    ReleaseEditCounted(s, i);
    ReleaseCharge(s, i);
    ReleaseLag(s.sessions[i]);
    EditFrame(s, Edit(s, i), i);
    EditMetas(s, Edit(s, i), i);
  }

  // ---- Collection ----

  lemma SameMetasStored(s: State, s': State)
    requires MetasStored(s) && s'.sessions == s.sessions && s'.layers == s.layers
    ensures MetasStored(s')
  {
    forall i: nat, x | x in MetaIds(s', i) ensures x in s'.layers {
      assert x in MetaIds(s, i);
    }
  }

  lemma GcAcquireStep(s: State)
    requires Inv(s) && s.lock.None?
    ensures Inv(s.(lock := Some(ByGc), gc := Scanning(OnDisk(s), {})))
  {
    var s' := s.(lock := Some(ByGc), gc := Scanning(OnDisk(s), {}));
    SameMetasStored(s, s');
    assert forall i: nat :: i !in OnDisk(s) ==> MetaIds(s', i) == {};
  }

  lemma GcReadStep(s: State, i: nat)
    requires Inv(s) && s.gc.Scanning? && i in s.gc.toRead
    ensures Inv(s.(gc := Scanning(s.gc.toRead - {i}, s.gc.live + MetaIds(s, i))))
  {
    var s' := s.(gc := Scanning(s.gc.toRead - {i}, s.gc.live + MetaIds(s, i)));
    SameMetasStored(s, s');
    forall j: nat, x | j !in s'.gc.toRead && x in MetaIds(s', j)
      ensures x in s'.gc.live || x in Charge(s'.sessions[j])
    {
      assert x in MetaIds(s, j);
    }
  }

  lemma PeelCounted(s: State)
    requires Inv(s) && Enabled(s, GcPeel)
    ensures Counted(Apply(s, GcPeel))
  {
    var s' := Apply(s, GcPeel);
    PeelKeepsUsed(s.index, s.gc.live);
    PeelKeepsExact(s.index, s.gc.live);
    forall x ensures SessionCount(s'.index, x) == Charged(s'.sessions)[x] {
      assert SessionCount(s.index, x) == Charged(s.sessions)[x];
      assert SessionCount(s.index, x) > 0 ==> Used(s.index, s.gc.live, x);
    }
  }

  /** Every persisted id was read by the scan or is held by a positive count. */
  lemma PeelKeepsMetas(s: State)
    requires Inv(s) && Enabled(s, GcPeel)
    ensures MetasStored(Apply(s, GcPeel))
  {
    var s' := Apply(s, GcPeel);
    PeelKeepsUsed(s.index, s.gc.live);
    forall i: nat, x | x in MetaIds(s', i) ensures x in s'.layers {
      assert x in MetaIds(s, i);
      if x !in s.gc.live {
        ChargedIsStored(s, i, x);
      }
      assert Used(s.index, s.gc.live, x);
    }
  }

  lemma GcPeelStep(s: State)
    requires Inv(s) && Enabled(s, GcPeel)
    ensures Inv(Apply(s, GcPeel))
  {
    PeelCounted(s);
    PeelKeepsMetas(s);
  }

  lemma GcReleaseStep(s: State)
    requires Inv(s) && s.gc.Peeled?
    ensures Inv(s.(lock := None, gc := Off))
  {
    SameMetasStored(s, s.(lock := None, gc := Off));
  }

  // ---- Every run ----

  lemma {:induction false} StepKeepsInv(s: State, step: Step)
    requires Inv(s) && Enabled(s, step)
    ensures Inv(Apply(s, step))
  {
    match step
    case Create => CreateStep(s);
    case Run(i, upper) => UpperStep(s, i, upper);
    case Reset(i) => SeedsAcceptable(); UpperStep(s, i, Seeds());
    case BeginCommit(i) => BeginCommitStep(s, i);
    case BeginRollback(i, id) => BeginRollbackStep(s, i, id);
    case BeginDestroy(i) => BeginDestroyStep(s, i);
    case Acquire(i) => AcquireStep(s, i);
    case EditIndex(i) => if s.sessions[i].pc.CommitLocked? { CommitEdit(s, i); } else { ReleaseEdit(s, i); }
    case Release(i) => ReleaseStep(s, i);
    case Finish(i) => FinishStep(s, i);
    case GcAcquire => GcAcquireStep(s);
    case GcRead(i) => GcReadStep(s, i);
    case GcPeel => GcPeelStep(s);
    case GcRelease => GcReleaseStep(s);
  }

  /** Each step is taken in a state that allows it. */
  ghost predicate IsRun(s: State, steps: seq<Step>)
    decreases |steps|
  {
    steps == [] || (Enabled(s, steps[0]) && IsRun(Apply(s, steps[0]), steps[1..]))
  }

  ghost function After(s: State, steps: seq<Step>): State
    requires IsRun(s, steps)
    decreases |steps|
  {
    if steps == [] then s else After(Apply(s, steps[0]), steps[1..])
  }

  lemma {:induction false} RunKeepsInv(s: State, steps: seq<Step>)
    requires Inv(s) && IsRun(s, steps)
    ensures Inv(After(s, steps))
    decreases |steps|
  {
    if steps != [] {
      StepKeepsInv(s, steps[0]);
      RunKeepsInv(Apply(s, steps[0]), steps[1..]);
    }
  }

  /** Concurrent collection safety, over every interleaving from an empty store. */
  lemma {:induction false} NoReferencedLayerIsCollected(steps: seq<Step>)
    requires IsRun(Init(), steps)
    ensures Safe(After(Init(), steps))
  {
    assert Inv(Init());
    RunKeepsInv(Init(), steps);
    InvIsSafe(After(Init(), steps));
  }

  // ---- Between operations ----

  ghost predicate Quiescent(s: State) {
    s.lock.None? && forall i | 0 <= i < |s.sessions| :: s.sessions[i].pc.Idle? || s.sessions[i].pc.Gone?
  }

  /** Occurrences over all live session stacks, duplicates counted. */
  ghost function Occurrences(sessions: seq<Session>): multiset<CommitId> {
    if sessions == [] then multiset{}
    else
      var last := sessions[|sessions| - 1];
      Occurrences(sessions[..|sessions| - 1]) + (if last.pc.Gone? then multiset{} else multiset(last.stack))
  }

  lemma IdleCharge(t: Session)
    requires t.pc.Idle? || t.pc.Gone?
    ensures Charge(t) == if t.pc.Gone? then [] else t.stack
  {
  }

  lemma {:induction false} QuiescentCharges(sessions: seq<Session>)
    requires forall i | 0 <= i < |sessions| :: sessions[i].pc.Idle? || sessions[i].pc.Gone?
    ensures Charged(sessions) == Occurrences(sessions)
  {
    if sessions != [] {
      IdleCharge(sessions[|sessions| - 1]);
      QuiescentCharges(sessions[..|sessions| - 1]);
    }
  }

  /** Reference counts are conserved: between operations the session count of an id is
      its number of occurrences over all stacks, the layer count is the number of
      entries it is the parent of, and index keys and layer directories agree. */
  lemma {:induction false} CountsConserved(steps: seq<Step>)
    requires IsRun(Init(), steps) && Quiescent(After(Init(), steps))
    ensures var s := After(Init(), steps);
            (forall x :: SessionCount(s.index, x) == Occurrences(s.sessions)[x]) &&
            (forall x | x in s.index :: s.index[x].layers == |ChildrenOf(s.index, x)|) &&
            s.layers.Keys == s.index.Keys
  {
    assert Inv(Init());
    RunKeepsInv(Init(), steps);
    QuiescentCharges(After(Init(), steps).sessions);
  }

  lemma DroppedSplits(dropped: seq<CommitId>, k: nat)
    requires k < |dropped|
    ensures multiset(dropped) == multiset(dropped[..k]) + multiset{dropped[k]} + multiset(dropped[k + 1..])
  {
    assert dropped == dropped[..k] + [dropped[k]] + dropped[k + 1..];
  }

  lemma ReleaseHasToSpare(index: Index, charged: multiset<CommitId>, dropped: seq<CommitId>, k: nat)
    requires SessionsExact(index, charged) && multiset(dropped) <= charged && k < |dropped|
    ensures var now := LayerIndex.Release(index, dropped[..k]);
            dropped[k] in now && now[dropped[k]].sessions >= 1
  {
    DroppedSplits(dropped, k);
    ReleaseCountsSessions(index, dropped[..k], charged);
    ReleaseOneExact(LayerIndex.Release(index, dropped[..k]), dropped[k], charged - multiset(dropped[..k]));
  }

  /** While a rollback or a destroy edits the index, no guard is false and no clamp
      bites: each id it drops is in the index with a count to spare. */
  lemma NoClampBites(steps: seq<Step>, i: nat, k: nat)
    requires IsRun(Init(), steps) && i < |After(Init(), steps).sessions|
    requires var t := After(Init(), steps).sessions[i];
             (t.pc.RollbackLocked? || t.pc.DestroyLocked?) && k < |Dropped(t)|
    ensures var s := After(Init(), steps);
            var dropped := Dropped(s.sessions[i]);
            var now := LayerIndex.Release(s.index, dropped[..k]);
            dropped[k] in now && now[dropped[k]].sessions >= 1
  {
    assert Inv(Init());
    RunKeepsInv(Init(), steps);
    var s := After(Init(), steps);
    ReleaseCharge(s, i);
    ChargeIncluded(s.sessions, i);
    ReleaseHasToSpare(s.index, Charged(s.sessions), Dropped(s.sessions[i]), k);
  }

  /** While a commit edits the index, the tip it links to is there, and the directory
      check and the index lookup have the same answer. */
  lemma CommitFindsItsTip(steps: seq<Step>, i: nat)
    requires IsRun(Init(), steps) && i < |After(Init(), steps).sessions|
    requires After(Init(), steps).sessions[i].pc.CommitLocked?
    ensures var s := After(Init(), steps); var t := s.sessions[i];
      (t.stack != [] ==> t.stack[|t.stack| - 1] in s.index) && (t.pc.id in s.layers <==> t.pc.id in s.index)
  {
    assert Inv(Init());
    RunKeepsInv(Init(), steps);
    TipIsIndexed(After(Init(), steps), i);
  }

  /** While a collection edits the index, at every point of every pass: the parent of the
      next entry to go is in the index, is not that entry, and has a count to spare. */
  lemma CollectionHasToSpare(steps: seq<Step>, n: nat, gone: set<CommitId>, id: CommitId)
    requires IsRun(Init(), steps) && Enabled(After(Init(), steps), GcPeel)
    requires var s := After(Init(), steps); var index := Passed(s.index, s.gc.live, n);
      gone <= Candidates(index, s.gc.live) && id in Candidates(index, s.gc.live) - gone && index[id].parent.Some?
    ensures var s := After(Init(), steps); var index := Passed(s.index, s.gc.live, n);
      var p, now := index[id].parent.value, Drop(index, gone);
      id in now && p in now - {id} && now[p].layers >= 1
  {
    var s := After(Init(), steps);
    assert Inv(Init());
    RunKeepsInv(Init(), steps);
    PassesKeepExact(s.index, s.gc.live, n);
    RemovalHasToSpare(Passed(s.index, s.gc.live, n), s.gc.live, gone, id);
  }
}
