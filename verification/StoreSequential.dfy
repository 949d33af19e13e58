/** A whole operation is its protocol steps in a row: run without interference they have
    exactly the effect the in-place operations of `LayerStore` are proved to have. */
module StoreSequential {
  import opened Wrappers
  import opened FileTree
  import opened Overlay
  import opened Manifest
  import opened LayerIndex
  import opened LayerGc
  import opened StoreProtocol
  import opened StoreSafety

  /** `steps` can be taken in a row from `s` and lead to `s'`. */
  ghost predicate Leads(s: State, steps: seq<Step>, s': State) {
    IsRun(s, steps) && After(s, steps) == s'
  }

  lemma OneStep(s: State, a: Step)
    requires Enabled(s, a)
    ensures Leads(s, [a], Apply(s, a))
  {
    assert [a][1..] == [];
    assert IsRun(Apply(s, a), []);
  }

  lemma {:induction false} Joined(s: State, a: seq<Step>, mid: State, b: seq<Step>, s': State)
    requires Leads(s, a, mid) && Leads(mid, b, s')
    ensures Leads(s, a + b, s')
    decreases |a|
  {
    if a == [] {
      assert a + b == b;
    } else {
      assert (a + b)[1..] == a[1..] + b;
      Joined(Apply(s, a[0]), a[1..], mid, b, s');
    }
  }

  /** The state with session `i` replaced, and the store and the lock as given. */
  function With(s: State, i: nat, t: Session, lock: Option<Holder>, layers: map<CommitId, Tree>, index: Index): State
    requires i < |s.sessions|
  {
    s.(sessions := s.sessions[i := t], lock := lock, layers := layers, index := index)
  }

  /** From wanting the lock to having released it, the session's memory does not move. */
  lemma LockedPart(s: State, i: nat, layers: map<CommitId, Tree>, index: Index, pc: Pc)
    requires i < |s.sessions| && WantsLock(s.sessions[i].pc) && s.lock.None?
    requires var t := s.sessions[i];
             var e := Edit(With(s, i, t.(pc := LockedPc(t.pc)), Some(BySession(i)), s.layers, s.index), i);
             e.layers == layers && e.index == index && e.sessions[i] == t.(pc := e.sessions[i].pc) &&
             Edited(e.sessions[i].pc) && pc == UnlockedPc(e.sessions[i].pc)
    ensures Leads(s, [Acquire(i)] + [EditIndex(i)] + [Step.Release(i)],
                  With(s, i, s.sessions[i].(pc := pc), None, layers, index))
  {
    var t := s.sessions[i];
    var s1 := With(s, i, t.(pc := LockedPc(t.pc)), Some(BySession(i)), s.layers, s.index);
    var s2 := Edit(s1, i);
    OneStep(s, Acquire(i));
    OneStep(s1, EditIndex(i));
    Joined(s, [Acquire(i)], s1, [EditIndex(i)], s2);
    UnlockAfter(s, i, [Acquire(i)] + [EditIndex(i)], s2);
    EditedIs(s, s1, i, layers, index);
  }

  lemma UnlockAfter(s: State, i: nat, steps: seq<Step>, s2: State)
    requires Leads(s, steps, s2) && i < |s2.sessions| && Edited(s2.sessions[i].pc)
    ensures Leads(s, steps + [Step.Release(i)], Apply(s2, Step.Release(i)))
  {
    OneStep(s2, Step.Release(i));
    Joined(s, steps, s2, [Step.Release(i)], Apply(s2, Step.Release(i)));
  }

  /** An edit and the unlock after it change the store, the lock and the session's position. */
  lemma EditedIs(s: State, s1: State, i: nat, layers: map<CommitId, Tree>, index: Index)
    requires i < |s.sessions| && WantsLock(s.sessions[i].pc)
    requires s1 == With(s, i, s.sessions[i].(pc := LockedPc(s.sessions[i].pc)), Some(BySession(i)), s.layers, s.index)
    requires var e := Edit(s1, i); e.layers == layers && e.index == index && Edited(e.sessions[i].pc)
    ensures var e := Edit(s1, i);
      Apply(e, Step.Release(i)) == With(s, i, s.sessions[i].(pc := UnlockedPc(e.sessions[i].pc)), None, layers, index)
  {
  }

  lemma FinishOnce(s: State, i: nat)
    requires i < |s.sessions| && AfterUnlock(s.sessions[i].pc)
    ensures Leads(s, [Finish(i)], SetSession(s, i, Tail(s.sessions[i])))
  {
    OneStep(s, Finish(i));
  }

  lemma FinishTwice(s: State, i: nat)
    requires i < |s.sessions| && AfterUnlock(s.sessions[i].pc) && AfterUnlock(Tail(s.sessions[i]).pc)
    ensures Leads(s, [Finish(i)] + [Finish(i)], SetSession(s, i, Tail(Tail(s.sessions[i]))))
  {
    var mid := SetSession(s, i, Tail(s.sessions[i]));
    FinishOnce(s, i);
    FinishOnce(mid, i);
    assert SetSession(mid, i, Tail(mid.sessions[i])) == SetSession(s, i, Tail(mid.sessions[i]));
    Joined(s, [Finish(i)], mid, [Finish(i)], SetSession(s, i, Tail(mid.sessions[i])));
  }

  function CommitSteps(i: nat): seq<Step> {
    [BeginCommit(i)] + ([Acquire(i)] + [EditIndex(i)] + [Step.Release(i)]) +
    ([Finish(i)] + ([Finish(i)] + [Finish(i)]))
  }

  function RollbackSteps(i: nat, id: CommitId): seq<Step> {
    [BeginRollback(i, id)] + ([Acquire(i)] + [EditIndex(i)] + [Step.Release(i)]) + ([Finish(i)] + [Finish(i)])
  }

  function DestroySteps(i: nat): seq<Step> {
    [BeginDestroy(i)] + ([Acquire(i)] + [EditIndex(i)] + [Step.Release(i)]) + [Finish(i)]
  }

  lemma CommitTail(s: State, i: nat, t: Session, id: CommitId)
    requires i < |s.sessions| && s.sessions[i] == t.(pc := CommitUnlocked(id))
    ensures Leads(s, [Finish(i)] + ([Finish(i)] + [Finish(i)]),
                  SetSession(s, i, Session(t.stack + [id], Seeds(), t.stack + [id], Idle)))
  {
    var u := Tail(s.sessions[i]);
    var mid := SetSession(s, i, u);
    FinishOnce(s, i);
    FinishTwice(mid, i);
    assert SetSession(mid, i, Tail(Tail(u))) == SetSession(s, i, Tail(Tail(u)));
    Joined(s, [Finish(i)], mid, [Finish(i)] + [Finish(i)], SetSession(s, i, Tail(Tail(u))));
  }

  /** `commit` in a row: what `LayerStore.Store.Commit` promises, on the shared state. */
  lemma WholeCommit(s: State, i: nat)
    requires i < |s.sessions| && s.sessions[i].pc.Idle? && s.lock.None?
    ensures var t := s.sessions[i]; var id := CommitIdOf(t.upper);
            Leads(s, CommitSteps(i),
                  With(s, i, Session(t.stack + [id], Seeds(), t.stack + [id], Idle), None,
                       if id in s.layers then s.layers else s.layers[id := t.upper],
                       CommitIndex(s.index, id, Tip(t.stack))))
  {
    var t := s.sessions[i];
    var id := CommitIdOf(t.upper);
    var layers := if id in s.layers then s.layers else s.layers[id := t.upper];
    var index := CommitIndex(s.index, id, Tip(t.stack));
    var s1 := SetSession(s, i, t.(pc := CommitHashed(id)));
    var s2 := With(s1, i, t.(pc := CommitUnlocked(id)), None, layers, index);
    var t' := Session(t.stack + [id], Seeds(), t.stack + [id], Idle);
    OneStep(s, BeginCommit(i));
    LockedPart(s1, i, layers, index, CommitUnlocked(id));
    CommitTail(s2, i, t, id);
    Chain3(s, [BeginCommit(i)], s1, s2, [Finish(i)] + ([Finish(i)] + [Finish(i)]), SetSession(s2, i, t'), i);
    assert SetSession(s2, i, t') == With(s, i, t', None, layers, index);
  }

  lemma Chain3(s: State, first: seq<Step>, s1: State, s2: State, last: seq<Step>, s3: State, i: nat)
    requires Leads(s, first, s1) && Leads(s1, [Acquire(i)] + [EditIndex(i)] + [Step.Release(i)], s2)
    requires Leads(s2, last, s3)
    ensures Leads(s, first + ([Acquire(i)] + [EditIndex(i)] + [Step.Release(i)]) + last, s3)
  {
    Joined(s, first, s1, [Acquire(i)] + [EditIndex(i)] + [Step.Release(i)], s2);
    Joined(s, first + ([Acquire(i)] + [EditIndex(i)] + [Step.Release(i)]), s2, last, s3);
  }

  /** `rollback` to an id of the stack, in a row. */
  lemma WholeRollback(s: State, i: nat, id: CommitId)
    requires i < |s.sessions| && s.sessions[i].pc.Idle? && s.lock.None? && id in s.sessions[i].stack
    ensures var t := s.sessions[i]; var n := FirstIndex(t.stack, id) + 1;
            n <= |t.stack| &&
            Leads(s, RollbackSteps(i, id),
                  With(s, i, Session(t.stack[..n], Seeds(), t.stack[..n], Idle), None, s.layers,
                       LayerIndex.Release(s.index, t.stack[n..])))
  {
    var t := s.sessions[i];
    FirstIndexIs(t.stack, id);
    var n := FirstIndex(t.stack, id) + 1;
    var index := LayerIndex.Release(s.index, t.stack[n..]);
    var cut := t.(stack := t.stack[..n]);
    var s1 := SetSession(s, i, cut.(pc := RollbackCut(t.stack[n..])));
    var s2 := With(s1, i, cut.(pc := RollbackUnlocked), None, s.layers, index);
    var t' := Session(t.stack[..n], Seeds(), t.stack[..n], Idle);
    OneStep(s, BeginRollback(i, id));
    LockedPart(s1, i, s.layers, index, RollbackUnlocked);
    FinishTwice(s2, i);
    Chain3(s, [BeginRollback(i, id)], s1, s2, [Finish(i)] + [Finish(i)], SetSession(s2, i, t'), i);
    assert SetSession(s2, i, t') == With(s, i, t', None, s.layers, index);
  }

  /** `destroy` in a row. */
  lemma WholeDestroy(s: State, i: nat)
    requires i < |s.sessions| && s.sessions[i].pc.Idle? && s.lock.None?
    ensures var t := s.sessions[i];
            Leads(s, DestroySteps(i),
                  With(s, i, t.(pc := Gone), None, s.layers, LayerIndex.Release(s.index, t.stack)))
  {
    var t := s.sessions[i];
    var index := LayerIndex.Release(s.index, t.stack);
    var s1 := SetSession(s, i, t.(pc := DestroyWanted));
    var s2 := With(s1, i, t.(pc := DestroyUnlocked), None, s.layers, index);
    OneStep(s, BeginDestroy(i));
    LockedPart(s1, i, s.layers, index, DestroyUnlocked);
    FinishOnce(s2, i);
    Chain3(s, [BeginDestroy(i)], s1, s2, [Finish(i)], SetSession(s2, i, t.(pc := Gone)), i);
    assert SetSession(s2, i, t.(pc := Gone)) == With(s, i, t.(pc := Gone), None, s.layers, index);
  }

  // ---- A collection in a row ----

  /** The ids a collection reads from the persisted stacks. */
  ghost function Persisted(s: State): set<CommitId> {
    set i: nat, x | i < |s.sessions| && x in MetaIds(s, i) :: x
  }

  /** Every session directory once, in some order. */
  ghost predicate Lists(order: seq<nat>, dirs: set<nat>) {
    (forall i: nat :: i in order <==> i in dirs) && forall j, k | 0 <= j < k < |order| :: order[j] != order[k]
  }

  function Reads(order: seq<nat>): seq<Step> {
    if order == [] then [] else [GcRead(order[0])] + Reads(order[1..])
  }

  function GcSteps(order: seq<nat>): seq<Step> {
    [GcAcquire] + Reads(order) + ([GcPeel] + [GcRelease])
  }

  ghost function IdsOf(s: State, order: seq<nat>): set<CommitId> {
    if order == [] then {} else MetaIds(s, order[0]) + IdsOf(s, order[1..])
  }

  lemma {:induction false} IdsOfAll(s: State, order: seq<nat>, x: CommitId)
    ensures x in IdsOf(s, order) <==> exists i: nat :: i in order && x in MetaIds(s, i)
  {
    if order != [] {
      IdsOfAll(s, order[1..], x);
      assert forall i: nat :: i in order <==> i == order[0] || i in order[1..];
    }
  }

  lemma ListsRest(order: seq<nat>, dirs: set<nat>)
    requires Lists(order, dirs) && order != []
    ensures order[0] in dirs && Lists(order[1..], dirs - {order[0]})
  {
    assert forall i: nat :: i in order <==> i == order[0] || i in order[1..];
    assert order[0] !in order[1..];
  }

  lemma {:induction false} ReadAll(s: State, order: seq<nat>)
    requires s.gc.Scanning? && Lists(order, s.gc.toRead)
    ensures Leads(s, Reads(order), s.(gc := Scanning({}, s.gc.live + IdsOf(s, order))))
    decreases |order|
  {
    if order == [] {
      assert s.gc.toRead == {};
      assert s.gc.live + {} == s.gc.live;
    } else {
      ListsRest(order, s.gc.toRead);
      var s1 := Apply(s, GcRead(order[0]));
      OneStep(s, GcRead(order[0]));
      ReadAll(s1, order[1..]);
      SameIds(s, s1, order[1..]);
      assert s1.gc.live + IdsOf(s1, order[1..]) == s.gc.live + IdsOf(s, order);
      Joined(s, [GcRead(order[0])], s1, Reads(order[1..]), s.(gc := Scanning({}, s.gc.live + IdsOf(s, order))));
    }
  }

  lemma {:induction false} SameIds(s: State, s': State, order: seq<nat>)
    requires s'.sessions == s.sessions
    ensures IdsOf(s', order) == IdsOf(s, order)
  {
    if order != [] { SameIds(s, s', order[1..]); }
  }

  lemma ReadsAreAll(s: State, order: seq<nat>)
    requires Lists(order, OnDisk(s))
    ensures IdsOf(s, order) == Persisted(s)
  {
    forall x ensures x in IdsOf(s, order) <==> x in Persisted(s) { IdsOfAll(s, order, x); }
  }

  /** The state after the index has been peeled, and everything else as it was. */
  ghost function Collected(s: State): State {
    var kept := Peel(s.index, Persisted(s));
    s.(index := kept, layers := s.layers - (s.index.Keys - kept.Keys))
  }

  lemma PeelAndRelease(s: State, s2: State)
    requires s.lock.None? && s.gc.Off?
    requires s2 == s.(lock := Some(ByGc), gc := Scanning({}, Persisted(s)))
    ensures Leads(s2, [GcPeel] + [GcRelease], Collected(s))
  {
    OneStep(s2, GcPeel);
    OneStep(Apply(s2, GcPeel), GcRelease);
    Joined(s2, [GcPeel], Apply(s2, GcPeel), [GcRelease], Collected(s));
  }

  /** `gc` in a row, whatever order the directories are listed in: the index is peeled by
      the ids of all persisted stacks, the layers that left it are gone, no session moves. */
  lemma WholeGc(s: State, order: seq<nat>)
    requires s.lock.None? && s.gc.Off? && Lists(order, OnDisk(s))
    ensures Leads(s, GcSteps(order), Collected(s))
  {
    var s1 := Apply(s, GcAcquire);
    var s2 := s.(lock := Some(ByGc), gc := Scanning({}, Persisted(s)));
    OneStep(s, GcAcquire);
    ReadAll(s1, order);
    SameIds(s, s1, order);
    ReadsAreAll(s, order);
    assert {} + Persisted(s) == Persisted(s);
    Joined(s, [GcAcquire], s1, Reads(order), s2);
    PeelAndRelease(s, s2);
    Joined(s, [GcAcquire] + Reads(order), s2, [GcPeel] + [GcRelease], Collected(s));
  }
}
