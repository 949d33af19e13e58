/** What sessions see through the shared store, and what a rollback brings back. */
module StoreViews {
  import opened FileTree
  import opened Overlay
  import opened Manifest
  import opened StoreProtocol
  import opened StoreSafety
  import opened StoreRefinement

  // ---- Views in the simple model ----

  ghost function CopiedView(base: Tree, a: Copied): Tree {
    View([base] + a.copies + [a.upper])
  }

  ghost predicate WellFormedCopies(base: Tree, a: Copied) {
    WellFormed(base) && WellFormed(a.upper) && forall k | 0 <= k < |a.copies| :: WellFormed(a.copies[k])
  }

  lemma LowersWellFormed(base: Tree, a: Copied)
    requires WellFormedCopies(base, a)
    ensures forall i | 0 <= i < |[base] + a.copies| :: WellFormed(([base] + a.copies)[i])
  {
  }

  /** A commit keeps the session's view, if and only if the seed directories are intact
      in it. */
  lemma SnapshotView(base: Tree, a: Copied)
    requires WellFormedCopies(base, a) && Covered(a.upper)
    ensures CopiedView(base, Committed(a)) == CopiedView(base, a) <==> SeedsIntact(CopiedView(base, a))
  {
    CoveredIsErased(a.upper);
    LowersWellFormed(base, a);
    CommitPreservesView([base] + a.copies, a.upper);
    assert [base] + (a.copies + [a.upper]) + [Seeds()] == [base] + a.copies + [a.upper] + [Seeds()];
  }

  /** A reset shows the stack alone, under the same condition on it. */
  lemma DiscardView(base: Tree, a: Copied)
    requires WellFormedCopies(base, a)
    ensures CopiedView(base, a.(upper := Seeds())) == View([base] + a.copies) <==>
            SeedsIntact(View([base] + a.copies))
  {
    LowersWellFormed(base, a);
    ViewIsViewLike([base] + a.copies);
    ViewSnoc([base] + a.copies, Seeds());
    SeedsChangeNothing(View([base] + a.copies));
  }

  // ---- Rolling back, in the simple model ----

  /** After `n` of the steps, one of them a commit of session `i` that has just ended, the
      session was at `a`. */
  ghost predicate WasCommitted(steps: seq<SimpleStep>, n: nat, i: nat, a: Copied) {
    0 < n <= |steps| && steps[n - 1] == Snapshot(i) &&
    var before, after := SimpleAfter([], steps[..n - 1]), SimpleAfter([], steps[..n]);
    i < |before| && i < |after| && after[i] == a && a == Committed(before[i])
  }

  lemma {:induction false} SimpleSnoc(all: seq<Copied>, steps: seq<SimpleStep>, step: SimpleStep)
    ensures SimpleAfter(all, steps + [step]) == SimpleApply(SimpleAfter(all, steps), step)
    decreases |steps|
  {
    if steps != [] {
      assert (steps + [step])[1..] == steps[1..] + [step];
      SimpleSnoc(SimpleApply(all, steps[0]), steps[1..], step);
    } else {
      assert [step][1..] == [];
      assert steps + [step] == [step];
    }
  }

  /** A step that is no commit of session `i` leaves it, if alive, a prefix of its copies. */
  lemma OtherStepsCut(all: seq<Copied>, step: SimpleStep, i: nat)
    requires i < |SimpleApply(all, step)| && SimpleApply(all, step)[i].copies != [] && step != Snapshot(i)
    ensures i < |all| && SimpleApply(all, step)[i].copies <= all[i].copies
    ensures SimpleApply(all, step)[i].alive ==> all[i].alive
  {
  }

  lemma {:induction false} EarlierCommit(steps: seq<SimpleStep>, shorter: seq<SimpleStep>, n: nat, i: nat, a: Copied)
    requires shorter <= steps && WasCommitted(shorter, n, i, a)
    ensures WasCommitted(steps, n, i, a)
  {
    assert shorter[..n] == steps[..n] && shorter[..n - 1] == steps[..n - 1];
  }

  /** Whatever the run, each part of a live session's copies, with fresh seeds on top, is a
      state the session was really in: the one its commit of that last copy left. */
  lemma {:induction false} EveryCutWasThere(steps: seq<SimpleStep>, i: nat, k: nat) returns (n: nat)
    requires var all := SimpleAfter([], steps); i < |all| && all[i].alive && k < |all[i].copies|
    ensures WasCommitted(steps, n, i, Copied(SimpleAfter([], steps)[i].copies[..k + 1], Seeds(), true))
    decreases |steps|
  {
    var m := |steps| - 1;
    var before, all := SimpleAfter([], steps[..m]), SimpleAfter([], steps);
    assert steps[..m] + [steps[m]] == steps;
    SimpleSnoc([], steps[..m], steps[m]);
    if steps[m] == Snapshot(i) && k == |before[i].copies| {
      n := |steps|;
      assert steps[..n] == steps;
      assert all[i].copies[..k + 1] == all[i].copies;
    } else {
      if steps[m] != Snapshot(i) { OtherStepsCut(before, steps[m], i); }
      n := EveryCutWasThere(steps[..m], i, k);
      assert before[i].copies[..k + 1] == all[i].copies[..k + 1];
      EarlierCommit(steps, steps[..m], n, i, Copied(all[i].copies[..k + 1], Seeds(), true));
    }
  }

  lemma RolledBackIs(a: Copied, id: CommitId) returns (k: nat)
    requires HasCopy(a.copies, id) && a.alive
    ensures k < |a.copies| && RolledBack(a, id) == Copied(a.copies[..k + 1], Seeds(), true)
    ensures CommitIdOf(a.copies[k]) == id && forall j | 0 <= j < k :: CommitIdOf(a.copies[j]) != id
  {
    FirstCopyIs(a.copies, id);
    k := FirstCopy(a.copies, id);
  }

  /** In every run a rollback restores a state the session was really in, its view
      included: the one right after the commit of the first copy with that id. */
  lemma {:induction false} RollbackRestores(steps: seq<SimpleStep>, i: nat, id: CommitId, base: Tree)
    returns (n: nat, k: nat)
    requires var all := SimpleAfter([], steps); i < |all| && all[i].alive && HasCopy(all[i].copies, id)
    ensures var a := SimpleAfter([], steps)[i];
      k < |a.copies| && CommitIdOf(a.copies[k]) == id && (forall j | 0 <= j < k :: CommitIdOf(a.copies[j]) != id)
    ensures WasCommitted(steps, n, i, RolledBack(SimpleAfter([], steps)[i], id))
    ensures RolledBack(SimpleAfter([], steps)[i], id).copies == SimpleAfter([], steps)[i].copies[..k + 1]
    ensures CopiedView(base, RolledBack(SimpleAfter([], steps)[i], id))
            == CopiedView(base, SimpleAfter([], steps[..n])[i])
  {
    k := RolledBackIs(SimpleAfter([], steps)[i], id);
    n := EveryCutWasThere(steps, i, k);
  }

  // ---- Runs whose trees the manifest covers ----

  ghost predicate AllCovered(s: State) {
    (forall id | id in s.layers :: Covered(s.layers[id])) &&
    (forall i | 0 <= i < |s.sessions| :: Covered(s.sessions[i].upper))
  }

  ghost predicate CoveredRun(steps: seq<Step>) {
    forall k | 0 <= k < |steps| && steps[k].Run? :: Covered(steps[k].upper)
  }

  lemma SeedsCovered()
    ensures Covered(Seeds())
  {
  }

  lemma TailCovered(t: Session)
    requires AfterUnlock(t.pc) && Covered(t.upper)
    ensures Covered(Tail(t).upper)
  {
    SeedsCovered();
  }

  lemma EditCovered(s: State, i: nat)
    requires AllCovered(s) && i < |s.sessions| && ReadyToEdit(s.sessions[i].pc)
    ensures AllCovered(Edit(s, i))
  {
    if s.sessions[i].pc.CommitLocked? { CommitEditShape(s, i); } else { ReleaseCharge(s, i); }
  }

  lemma SetCovered(s: State, i: nat, t': Session)
    requires AllCovered(s) && i < |s.sessions| && Covered(t'.upper)
    ensures AllCovered(SetSession(s, i, t'))
  {
  }

  lemma CoveredStep(s: State, step: Step)
    requires AllCovered(s) && Enabled(s, step) && (step.Run? ==> Covered(step.upper))
    ensures AllCovered(Apply(s, step))
  {
    SeedsCovered();
    match step
    case EditIndex(i) => EditCovered(s, i);
    case Finish(i) => TailCovered(s.sessions[i]); SetCovered(s, i, Tail(s.sessions[i]));
    case Create => assert Session([], Seeds(), [], Idle).upper == Seeds();
    case BeginRollback(i, id) => SetCovered(s, i, CutStack(s.sessions[i], id));
    case _ =>
  }

  lemma {:induction false} CoveredAfter(s: State, steps: seq<Step>)
    requires AllCovered(s) && IsRun(s, steps) && CoveredRun(steps)
    ensures AllCovered(After(s, steps))
    decreases |steps|
  {
    if steps != [] {
      CoveredStep(s, steps[0]);
      CoveredAfter(Apply(s, steps[0]), steps[1..]);
    }
  }

  /** The trees a session's mount stacks, bottom first. */
  ghost function LowerTrees(layers: map<CommitId, Tree>, base: Tree, stack: seq<CommitId>): seq<Tree> {
    [base] + seq(|stack|, k requires 0 <= k < |stack| => if stack[k] in layers then layers[stack[k]] else map[])
  }

  ghost function SessionView(s: State, base: Tree, i: nat): Tree
    requires i < |s.sessions|
  {
    View(LowerTrees(s.layers, base, s.sessions[i].stack) + [s.sessions[i].upper])
  }

  lemma LowersAreCopies(layers: map<CommitId, Tree>, base: Tree, stack: seq<CommitId>)
    requires forall id | id in layers :: Covered(layers[id])
    ensures LowerTrees(layers, base, stack) == [base] + Copies(layers, stack)
  {
    forall k | 0 <= k < |stack|
      ensures Resolve(layers, stack[k]) == if stack[k] in layers then layers[stack[k]] else map[]
    {
      if stack[k] in layers { CoveredIsErased(layers[stack[k]]); }
    }
  }

  /** Where the manifest covers every tree a command leaves behind, what a session sees
      through the shared store is what it would see over its own full copies. */
  lemma {:induction false} SharedViewIsPrivateView(steps: seq<Step>, base: Tree, i: nat)
    requires IsRun(Init(), steps) && CoveredRun(steps)
    requires i < |After(Init(), steps).sessions| && After(Init(), steps).sessions[i].pc.Idle?
    ensures var simple := SimpleAfter([], SimpleRun(Init(), steps));
            i < |simple| && SessionView(After(Init(), steps), base, i) == CopiedView(base, simple[i])
  {
    var s := After(Init(), steps);
    RunRefines(steps);
    CoveredAfter(Init(), steps);
    LowersAreCopies(s.layers, base, s.sessions[i].stack);
    assert Abs(s)[i] == AbsSession(s.layers, s.sessions[i]);
  }
}
