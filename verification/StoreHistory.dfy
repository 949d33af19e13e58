/** What a rollback restores, in every interleaving of the shared store: the session as one
    of its own commits left it, with the very trees that were stored then. */
module StoreHistory {
  import opened FileTree
  import opened Overlay
  import opened Manifest
  import opened StoreProtocol
  import opened StoreSafety
  import opened StoreRefinement
  import opened StoreViews

  // ---- Runs by their last step ----

  lemma {:induction false} RunSplits(s: State, a: seq<Step>, b: seq<Step>)
    requires IsRun(s, a + b)
    ensures IsRun(s, a) && IsRun(After(s, a), b) && After(After(s, a), b) == After(s, a + b)
    decreases |a|
  {
    if a == [] {
      assert a + b == b;
    } else {
      assert (a + b)[1..] == a[1..] + b;
      RunSplits(Apply(s, a[0]), a[1..], b);
    }
  }

  lemma LastStep(steps: seq<Step>)
    requires IsRun(Init(), steps) && steps != []
    ensures var front, last := steps[..|steps| - 1], steps[|steps| - 1];
      IsRun(Init(), front) && Enabled(After(Init(), front), last)
      && After(Init(), steps) == Apply(After(Init(), front), last)
  {
    var front, last := steps[..|steps| - 1], steps[|steps| - 1];
    assert front + [last] == steps;
    RunSplits(Init(), front, [last]);
    assert [last][1..] == [];
  }

  lemma ReachableInv(steps: seq<Step>)
    requires IsRun(Init(), steps)
    ensures Inv(After(Init(), steps))
  {
    assert Inv(Init());
    RunKeepsInv(Init(), steps);
  }

  // ---- A commit that has returned ----

  /** The layers of a stack are stored in both states, and are the same trees. */
  ghost predicate SameTrees(s: State, s': State, stack: seq<CommitId>) {
    forall x | x in stack :: x in s.layers && x in s'.layers && s'.layers[x] == s.layers[x]
  }

  /** The `n`th step ended a commit of session `i`, with this stack and fresh seeds. */
  ghost predicate Returned(steps: seq<Step>, n: nat, i: nat, stack: seq<CommitId>) {
    0 < n <= |steps| && steps[n - 1] == Finish(i)
    && IsRun(Init(), steps[..n - 1]) && IsRun(Init(), steps[..n])
    && i < |After(Init(), steps[..n - 1]).sessions| && After(Init(), steps[..n - 1]).sessions[i].pc.CommitPersisted?
    && i < |After(Init(), steps[..n]).sessions|
    && After(Init(), steps[..n]).sessions[i] == Session(stack, Seeds(), stack, Idle)
  }

  /** The part of a session's stack whose commits have returned. */
  function Settled(t: Session): nat {
    if (t.pc.CommitAppended? || t.pc.CommitPersisted?) && t.stack != [] then |t.stack| - 1 else |t.stack|
  }

  /** What has returned is kept or cut, but for a commit that returns in this step. */
  ghost predicate Kept(t: Session, t': Session) {
    t'.stack[..Settled(t')] <= t.stack[..Settled(t)] && (t.pc.Gone? ==> t'.pc.Gone?)
  }

  ghost predicate Returns(t: Session, t': Session) {
    t.pc.CommitPersisted? && t.stack != [] && t' == Session(t.stack, Seeds(), t.stack, Idle)
  }

  lemma TailKeeps(t: Session)
    requires AfterUnlock(t.pc) && MetaLag(t)
    ensures Kept(t, Tail(t)) || Returns(t, Tail(t))
  {
  }

  lemma CutKeeps(t: Session, id: CommitId)
    requires t.pc.Idle?
    ensures Kept(t, CutStack(t, id))
  {
    if id in t.stack { FirstIndexIs(t.stack, id); }
  }

  lemma EditKeeps(s: State, i: nat)
    requires i < |s.sessions| && ReadyToEdit(s.sessions[i].pc)
    ensures Edit(s, i).sessions == s.sessions[i := s.sessions[i].(pc := Edit(s, i).sessions[i].pc)]
    ensures Kept(s.sessions[i], Edit(s, i).sessions[i])
  {
    if s.sessions[i].pc.CommitLocked? { CommitEditShape(s, i); } else { ReleaseCharge(s, i); }
  }

  lemma MoveKeeps(t: Session, pc: Pc)
    requires !t.pc.CommitAppended? && !t.pc.CommitPersisted? && !pc.CommitAppended? && !pc.CommitPersisted?
    requires !t.pc.Gone?
    ensures Kept(t, t.(pc := pc))
  {
  }

  /** Only session `i`'s own steps touch it. */
  lemma OthersLeave(s: State, step: Step, i: nat)
    requires Enabled(s, step) && i < |s.sessions|
    requires step.Create? || step.GcAcquire? || step.GcRead? || step.GcPeel? || step.GcRelease? || step.i != i
    ensures i < |Apply(s, step).sessions| && Apply(s, step).sessions[i] == s.sessions[i]
  {
    if step.EditIndex? { EditKeeps(s, step.i); }
  }

  lemma OwnStep(s: State, step: Step, i: nat)
    requires SessionsOk(s) && Enabled(s, step) && i < |s.sessions|
    requires !step.Create? && !step.GcAcquire? && !step.GcRead? && !step.GcPeel? && !step.GcRelease? && step.i == i
    ensures var t, t' := s.sessions[i], Apply(s, step).sessions[i];
      Kept(t, t') || (step == Finish(i) && Returns(t, t'))
  {
    var t := s.sessions[i];
    match step
    case EditIndex(_) => EditKeeps(s, i);
    case BeginRollback(_, id) => CutKeeps(t, id);
    case Finish(_) => TailKeeps(t);
    case Acquire(_) => MoveKeeps(t, LockedPc(t.pc));
    case Release(_) => MoveKeeps(t, UnlockedPc(t.pc));
    case BeginCommit(_) => MoveKeeps(t, CommitHashed(CommitIdOf(t.upper)));
    case BeginDestroy(_) => MoveKeeps(t, DestroyWanted);
    case Run(_, _) =>
    case Reset(_) =>
  }

  lemma StackGrows(s: State, step: Step, i: nat)
    requires SessionsOk(s) && Enabled(s, step) && i < |Apply(s, step).sessions|
    requires Apply(s, step).sessions[i].stack != []
    ensures i < |s.sessions|
    ensures var t, t' := s.sessions[i], Apply(s, step).sessions[i];
      Kept(t, t') || (step == Finish(i) && Returns(t, t'))
  {
    if step.Create? {
      assert i < |s.sessions|;
    } else if step.EditIndex? {
      EditKeeps(s, step.i);
    }
    if step.Create? || step.GcAcquire? || step.GcRead? || step.GcPeel? || step.GcRelease? || step.i != i {
      OthersLeave(s, step, i);
    } else {
      OwnStep(s, step, i);
    }
  }

  lemma TreesKept(s: State, step: Step, i: nat, stack: seq<CommitId>)
    requires Inv(s) && Enabled(s, step) && i < |s.sessions| && i < |Apply(s, step).sessions|
    requires !s.sessions[i].pc.Gone? && !Apply(s, step).sessions[i].pc.Gone?
    requires stack <= s.sessions[i].stack && stack <= Apply(s, step).sessions[i].stack
    ensures SameTrees(s, Apply(s, step), stack)
  {
    StepKeepsInv(s, step);
    forall x | x in stack
      ensures x in s.layers && x in Apply(s, step).layers && Apply(s, step).layers[x] == s.layers[x]
    {
      StackStored(s, i, x);
      StackStored(Apply(s, step), i, x);
      StoredTreesFixed(s, step, x);
    }
  }

  ghost predicate CutReturned(steps: seq<Step>, n: nat, i: nat, cut: seq<CommitId>)
    requires IsRun(Init(), steps)
  {
    Returned(steps, n, i, cut) && SameTrees(After(Init(), steps[..n]), After(Init(), steps), cut)
  }

  lemma EarlierReturn(steps: seq<Step>, n: nat, i: nat, cut: seq<CommitId>)
    requires IsRun(Init(), steps) && steps != [] && IsRun(Init(), steps[..|steps| - 1])
    requires CutReturned(steps[..|steps| - 1], n, i, cut)
    requires SameTrees(After(Init(), steps[..|steps| - 1]), After(Init(), steps), cut)
    ensures CutReturned(steps, n, i, cut)
  {
    var front := steps[..|steps| - 1];
    assert front[..n] == steps[..n] && front[..n - 1] == steps[..n - 1];
  }

  /** In every interleaving each part of a live session's stack is one the session had when
      a commit of its own returned, and the trees below are the ones stored then. */
  lemma {:induction false} EveryCutWasReturned(steps: seq<Step>, i: nat, k: nat) returns (n: nat)
    requires IsRun(Init(), steps) && i < |After(Init(), steps).sessions|
    requires var t := After(Init(), steps).sessions[i]; !t.pc.Gone? && k < Settled(t)
    ensures CutReturned(steps, n, i, After(Init(), steps).sessions[i].stack[..k + 1])
    decreases |steps|
  {
    var m := |steps| - 1;
    LastStep(steps);
    ReachableInv(steps[..m]);
    var before, s := After(Init(), steps[..m]), After(Init(), steps);
    StackGrows(before, steps[m], i);
    var t, t' := before.sessions[i], s.sessions[i];
    var cut := t'.stack[..k + 1];
    if Kept(t, t') {
      CutOfKept(t, t', k);
      n := EveryCutWasReturned(steps[..m], i, k);
      TreesKept(before, steps[m], i, cut);
      EarlierReturn(steps, n, i, cut);
    } else if k < |t.stack| - 1 {
      n := EveryCutWasReturned(steps[..m], i, k);
      TreesKept(before, steps[m], i, cut);
      EarlierReturn(steps, n, i, cut);
    } else {
      n := |steps|;
      ReturnsNow(steps, i);
      assert cut == t.stack;
    }
  }

  lemma CutOfKept(t: Session, t': Session, k: nat)
    requires Kept(t, t') && k < Settled(t')
    ensures k < Settled(t) && t.stack[..k + 1] == t'.stack[..k + 1]
  {
    var a, b := t.stack[..Settled(t)], t'.stack[..Settled(t')];
    assert a[..k + 1] == b[..k + 1];
    assert a[..k + 1] == t.stack[..k + 1] && b[..k + 1] == t'.stack[..k + 1];
  }

  lemma ReturnsNow(steps: seq<Step>, i: nat)
    requires IsRun(Init(), steps) && steps != [] && steps[|steps| - 1] == Finish(i)
    requires IsRun(Init(), steps[..|steps| - 1]) && i < |After(Init(), steps[..|steps| - 1]).sessions|
    requires i < |After(Init(), steps).sessions|
    requires Returns(After(Init(), steps[..|steps| - 1]).sessions[i], After(Init(), steps).sessions[i])
    ensures CutReturned(steps, |steps|, i, After(Init(), steps).sessions[i].stack)
  {
    var s := After(Init(), steps);
    assert steps[..|steps|] == steps;
    ReachableInv(steps);
    forall x | x in s.sessions[i].stack ensures x in s.layers { StackStored(s, i, x); }
  }

  // ---- A rollback, from its begin to its return ----

  /** Session `i` begins nothing new, though everyone else may. */
  ghost predicate NothingNew(more: seq<Step>, i: nat) {
    forall k | 0 <= k < |more| :: !(more[k].Run? || more[k].Reset? || more[k].BeginCommit? ||
                                    more[k].BeginRollback? || more[k].BeginDestroy?) || more[k].i != i
  }

  ghost predicate RollingBack(t: Session, cut: seq<CommitId>) {
    t.stack == cut &&
    match t.pc
    case RollbackCut(_) => true
    case RollbackLocked(_) => true
    case RollbackCounted => true
    case RollbackUnlocked => true
    case RollbackWiped => t.upper == Seeds()
    case Idle => t.upper == Seeds() && t.meta == cut
    case _ => false
  }

  lemma RollsOn(s: State, step: Step, i: nat, cut: seq<CommitId>)
    requires Enabled(s, step) && i < |s.sessions| && RollingBack(s.sessions[i], cut) && NothingNew([step], i)
    ensures i < |Apply(s, step).sessions| && RollingBack(Apply(s, step).sessions[i], cut)
  {
    assert [step][0] == step;
    if step.Create? || step.GcAcquire? || step.GcRead? || step.GcPeel? || step.GcRelease? || step.i != i {
      OthersLeave(s, step, i);
    } else if step.EditIndex? {
      EditKeeps(s, i);
    }
  }

  lemma {:induction false} RollsToTheEnd(s: State, more: seq<Step>, i: nat, cut: seq<CommitId>)
    requires Inv(s) && IsRun(s, more) && NothingNew(more, i)
    requires i < |s.sessions| && RollingBack(s.sessions[i], cut)
    ensures var s' := After(s, more);
      i < |s'.sessions| && RollingBack(s'.sessions[i], cut) && SameTrees(s, s', cut)
    decreases |more|
  {
    if more != [] {
      assert NothingNew([more[0]], i);
      RollsOn(s, more[0], i, cut);
      TreesKept(s, more[0], i, cut);
      StepKeepsInv(s, more[0]);
      RollsToTheEnd(Apply(s, more[0]), more[1..], i, cut);
    } else {
      forall x | x in cut ensures x in s.layers { StackStored(s, i, x); }
    }
  }

  lemma SameLowers(s: State, s': State, base: Tree, stack: seq<CommitId>)
    requires SameTrees(s, s', stack)
    ensures LowerTrees(s.layers, base, stack) == LowerTrees(s'.layers, base, stack)
  {
    assert forall k | 0 <= k < |stack| :: stack[k] in stack;
  }

  /** Whatever others do to the shared store, commits, rollbacks and collections included, a
      session's own view does not move. */
  lemma OthersKeepView(s: State, step: Step, i: nat, base: Tree)
    requires Inv(s) && Enabled(s, step) && i < |s.sessions| && !s.sessions[i].pc.Gone?
    requires i < |Apply(s, step).sessions| && Apply(s, step).sessions[i] == s.sessions[i]
    ensures SessionView(Apply(s, step), base, i) == SessionView(s, base, i)
  {
    TreesKept(s, step, i, s.sessions[i].stack);
    SameLowers(s, Apply(s, step), base, s.sessions[i].stack);
  }

  lemma CutAt(t: Session, id: CommitId) returns (k: nat)
    requires t.pc.Idle? && id in t.stack
    ensures k < |t.stack| && t.stack[k] == id && (forall j | 0 <= j < k :: t.stack[j] != id)
    ensures RollingBack(CutStack(t, id), t.stack[..k + 1])
  {
    FirstIndexIs(t.stack, id);
    k := FirstIndex(t.stack, id);
  }

  lemma RollbackRuns(steps: seq<Step>, i: nat, id: CommitId, more: seq<Step>)
    requires IsRun(Init(), steps + [BeginRollback(i, id)] + more)
    ensures IsRun(Init(), steps) && Enabled(After(Init(), steps), BeginRollback(i, id))
    ensures var s1 := Apply(After(Init(), steps), BeginRollback(i, id));
      IsRun(s1, more) && After(Init(), steps + [BeginRollback(i, id)] + more) == After(s1, more)
  {
    RunSplits(Init(), steps + [BeginRollback(i, id)], more);
    RunSplits(Init(), steps, [BeginRollback(i, id)]);
    assert [BeginRollback(i, id)][1..] == [];
  }

  lemma RollsBack(s: State, i: nat, id: CommitId, more: seq<Step>, k: nat)
    requires Inv(s) && Enabled(s, BeginRollback(i, id)) && IsRun(Apply(s, BeginRollback(i, id)), more)
    requires NothingNew(more, i) && k < |s.sessions[i].stack|
    requires RollingBack(CutStack(s.sessions[i], id), s.sessions[i].stack[..k + 1])
    ensures var cut, end := s.sessions[i].stack[..k + 1], After(Apply(s, BeginRollback(i, id)), more);
      i < |end.sessions| && RollingBack(end.sessions[i], cut) && SameTrees(s, end, cut)
  {
    var s1, cut := Apply(s, BeginRollback(i, id)), s.sessions[i].stack[..k + 1];
    StepKeepsInv(s, BeginRollback(i, id));
    TreesKept(s, BeginRollback(i, id), i, cut);
    RollsToTheEnd(s1, more, i, cut);
  }

  /** In every interleaving, a rollback that has returned leaves the session as the commit of
      that id's first occurrence in its stack left it, and its mount shows the same view as
      then: whiteouts and all, and whatever was committed, collected or rolled back since. */
  lemma {:induction false} RollbackReturnsTo(steps: seq<Step>, i: nat, id: CommitId, more: seq<Step>, base: Tree)
    returns (n: nat, k: nat)
    requires IsRun(Init(), steps + [BeginRollback(i, id)] + more) && NothingNew(more, i)
    requires IsRun(Init(), steps) && i < |After(Init(), steps).sessions| && id in After(Init(), steps).sessions[i].stack
    requires i < |After(Init(), steps + [BeginRollback(i, id)] + more).sessions|
    requires After(Init(), steps + [BeginRollback(i, id)] + more).sessions[i].pc.Idle?
    ensures var stack := After(Init(), steps).sessions[i].stack;
      k < |stack| && stack[k] == id && (forall j | 0 <= j < k :: stack[j] != id)
      && Returned(steps, n, i, stack[..k + 1])
    ensures var end, was := After(Init(), steps + [BeginRollback(i, id)] + more), After(Init(), steps[..n]);
      end.sessions[i] == was.sessions[i] && SessionView(end, base, i) == SessionView(was, base, i)
  {
    var s := After(Init(), steps);
    RollbackRuns(steps, i, id, more);
    k := CutAt(s.sessions[i], id);
    var cut := s.sessions[i].stack[..k + 1];
    n := EveryCutWasReturned(steps, i, k);
    ReachableInv(steps);
    RollsBack(s, i, id, more, k);
    var end := After(Init(), steps + [BeginRollback(i, id)] + more);
    assert SameTrees(After(Init(), steps[..n]), end, cut);
    SameLowers(After(Init(), steps[..n]), end, base, cut);
  }

  // ---- A commit, from its begin to its return ----

  /** On the way through a commit of `upper` on top of `stack`. */
  ghost predicate Committing(t: Session, stack: seq<CommitId>, upper: Tree) {
    var id := CommitIdOf(upper);
    match t.pc
    case CommitHashed(x) => x == id && t.stack == stack && t.upper == upper
    case CommitLocked(x) => x == id && t.stack == stack && t.upper == upper
    case CommitCounted(x) => x == id && t.stack == stack && t.upper == upper
    case CommitUnlocked(x) => x == id && t.stack == stack && t.upper == upper
    case CommitAppended => t.stack == stack + [id]
    case CommitPersisted => t.stack == stack + [id]
    case Idle => t.stack == stack + [id] && t.upper == Seeds()
    case _ => false
  }

  lemma CommitsOn(s: State, step: Step, i: nat, stack: seq<CommitId>, upper: Tree)
    requires Enabled(s, step) && i < |s.sessions| && Committing(s.sessions[i], stack, upper) && NothingNew([step], i)
    ensures i < |Apply(s, step).sessions| && Committing(Apply(s, step).sessions[i], stack, upper)
  {
    assert [step][0] == step;
    if step.Create? || step.GcAcquire? || step.GcRead? || step.GcPeel? || step.GcRelease? || step.i != i {
      OthersLeave(s, step, i);
    } else if step.EditIndex? {
      CommitEditShape(s, i);
    }
  }

  lemma {:induction false} CommitsToTheEnd(s: State, more: seq<Step>, i: nat, stack: seq<CommitId>, upper: Tree)
    requires Inv(s) && IsRun(s, more) && NothingNew(more, i)
    requires i < |s.sessions| && Committing(s.sessions[i], stack, upper)
    ensures var s' := After(s, more);
      i < |s'.sessions| && Committing(s'.sessions[i], stack, upper) && SameTrees(s, s', stack)
    decreases |more|
  {
    if more != [] {
      assert NothingNew([more[0]], i);
      CommitsOn(s, more[0], i, stack, upper);
      TreesKept(s, more[0], i, stack);
      StepKeepsInv(s, more[0]);
      CommitsToTheEnd(Apply(s, more[0]), more[1..], i, stack, upper);
    } else {
      forall x | x in stack ensures x in s.layers { StackStored(s, i, x); }
    }
  }

  /** A covered tree is found again under its own id. */
  lemma FiledAsItself(s: State, upper: Tree)
    requires Inv(s) && AllCovered(s) && AcceptableUpper(upper) && Covered(upper) && CommitIdOf(upper) in s.layers
    ensures s.layers[CommitIdOf(upper)] == upper
  {
    var t := s.layers[CommitIdOf(upper)];
    ManifestCanonical(t, upper);
    CoveredIsErased(t);
    CoveredIsErased(upper);
  }

  lemma LowersOnTop(s: State, s': State, base: Tree, stack: seq<CommitId>, upper: Tree)
    requires SameTrees(s, s', stack)
    requires CommitIdOf(upper) in s'.layers && s'.layers[CommitIdOf(upper)] == upper
    ensures LowerTrees(s'.layers, base, stack + [CommitIdOf(upper)]) == LowerTrees(s.layers, base, stack) + [upper]
  {
    SameLowers(s, s', base, stack);
    var top := stack + [CommitIdOf(upper)];
    assert forall k | 0 <= k < |stack| :: top[k] == stack[k];
  }

  lemma LowerTreesWellFormed(s: State, base: Tree, stack: seq<CommitId>)
    requires Addressed(s) && WellFormed(base)
    ensures forall k | 0 <= k < |LowerTrees(s.layers, base, stack)| :: WellFormed(LowerTrees(s.layers, base, stack)[k])
  {
    forall id | id in s.layers ensures WellFormed(s.layers[id]) { assert AcceptableUpper(s.layers[id]); }
  }

  /** A commit of the shared store, from its begin to its return and whatever the others do
      meanwhile, leaves what the session sees as it was if and only if the seed directories were
      intact in it, where the manifest covers the trees that commands leave behind. */
  lemma {:induction false} CommitKeepsViewIff(steps: seq<Step>, i: nat, more: seq<Step>, base: Tree)
    requires IsRun(Init(), steps) && Enabled(After(Init(), steps), BeginCommit(i)) && CoveredRun(steps)
    requires var s1 := Apply(After(Init(), steps), BeginCommit(i));
      IsRun(s1, more) && NothingNew(more, i) && CoveredRun(more)
      && i < |After(s1, more).sessions| && After(s1, more).sessions[i].pc.Idle?
    requires WellFormed(base)
    ensures var s := After(Init(), steps); var end := After(Apply(s, BeginCommit(i)), more);
      SessionView(end, base, i) == SessionView(s, base, i) <==> SeedsIntact(SessionView(s, base, i))
  {
    var s := After(Init(), steps);
    var s1 := Apply(s, BeginCommit(i));
    var end := After(s1, more);
    var stack, upper := s.sessions[i].stack, s.sessions[i].upper;
    ReachableInv(steps);
    StepKeepsInv(s, BeginCommit(i));
    RunKeepsInv(s1, more);
    CommitsToTheEnd(s1, more, i, stack, upper);
    CoveredAfter(Init(), steps);
    CoveredStep(s, BeginCommit(i));
    CoveredAfter(s1, more);
    StackStored(end, i, CommitIdOf(upper));
    assert AcceptableUpper(upper);
    FiledAsItself(end, upper);
    LowersOnTop(s, end, base, stack, upper);
    LowerTreesWellFormed(s, base, stack);
    CommitPreservesView(LowerTrees(s.layers, base, stack), upper);
  }
}
