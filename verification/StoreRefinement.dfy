/** The shared store refines a simple model in which every session keeps its own full
    copies of the trees it committed: deduplication, reference counts, the lock and
    collection are invisible to a session. */
module StoreRefinement {
  import opened FileTree
  import opened Overlay
  import opened Manifest
  import opened StoreProtocol
  import opened StoreSafety

  // ---- The simple model ----

  datatype Copied = Copied(copies: seq<Tree>, upper: Tree, alive: bool)

  datatype SimpleStep =
    | NewSession
    | Write(i: nat, upper: Tree)
    | Discard(i: nat)
    | Snapshot(i: nat)
    | Truncate(i: nat, id: CommitId)
    | Remove(i: nat)
    | Stutter

  ghost function Ids(copies: seq<Tree>): (ids: seq<CommitId>)
    ensures |ids| == |copies| && forall k | 0 <= k < |ids| :: ids[k] == CommitIdOf(copies[k])
  {
    seq(|copies|, k requires 0 <= k < |copies| => CommitIdOf(copies[k]))
  }

  ghost predicate HasCopy(copies: seq<Tree>, id: CommitId) {
    id in Ids(copies)
  }

  ghost function FirstCopy(copies: seq<Tree>, id: CommitId): (n: nat)
    requires HasCopy(copies, id)
    ensures n < |copies|
  {
    FirstIndexIs(Ids(copies), id);
    FirstIndex(Ids(copies), id)
  }

  /** Commit keeps a full copy of what the manifest sees of the upper. */
  ghost function Committed(a: Copied): Copied {
    a.(copies := a.copies + [Erase(a.upper)], upper := Seeds())
  }

  ghost function RolledBack(a: Copied, id: CommitId): Copied {
    if HasCopy(a.copies, id) then
      a.(copies := a.copies[..FirstCopy(a.copies, id) + 1], upper := Seeds())
    else a
  }

  lemma FirstCopyIs(copies: seq<Tree>, id: CommitId)
    requires HasCopy(copies, id)
    ensures CommitIdOf(copies[FirstCopy(copies, id)]) == id
    ensures forall k | 0 <= k < FirstCopy(copies, id) :: CommitIdOf(copies[k]) != id
  {
    FirstIndexIs(Ids(copies), id);
    forall k | 0 <= k < FirstCopy(copies, id) ensures CommitIdOf(copies[k]) != id {
      assert Ids(copies)[k] != id;
    }
  }

  ghost function SimpleApply(all: seq<Copied>, step: SimpleStep): seq<Copied> {
    match step
    case NewSession => all + [Copied([], Seeds(), true)]
    case Write(i, upper) => if i < |all| then all[i := all[i].(upper := upper)] else all
    case Discard(i) => if i < |all| then all[i := all[i].(upper := Seeds())] else all
    case Snapshot(i) => if i < |all| then all[i := Committed(all[i])] else all
    case Truncate(i, id) => if i < |all| then all[i := RolledBack(all[i], id)] else all
    case Remove(i) => if i < |all| then all[i := Copied([], map[], false)] else all
    case Stutter => all
  }

  ghost function SimpleAfter(all: seq<Copied>, steps: seq<SimpleStep>): seq<Copied>
    decreases |steps|
  {
    if steps == [] then all else SimpleAfter(SimpleApply(all, steps[0]), steps[1..])
  }

  // ---- The abstraction ----

  ghost function Resolve(layers: map<CommitId, Tree>, id: CommitId): Tree {
    if id in layers then Erase(layers[id]) else map[]
  }

  ghost function Copies(layers: map<CommitId, Tree>, stack: seq<CommitId>): seq<Tree> {
    seq(|stack|, k requires 0 <= k < |stack| => Resolve(layers, stack[k]))
  }

  /** The upper is about to be wiped: the operation has already taken effect. */
  ghost predicate UpperDoomed(pc: Pc) {
    pc.CommitAppended? || pc.CommitPersisted? ||
    pc.RollbackCut? || pc.RollbackLocked? || pc.RollbackCounted? || pc.RollbackUnlocked?
  }

  ghost function AbsSession(layers: map<CommitId, Tree>, t: Session): Copied {
    if t.pc.Gone? then Copied([], map[], false)
    else Copied(Copies(layers, t.stack), if UpperDoomed(t.pc) then Seeds() else t.upper, true)
  }

  ghost function Abs(s: State): seq<Copied> {
    seq(|s.sessions|, i requires 0 <= i < |s.sessions| => AbsSession(s.layers, s.sessions[i]))
  }

  /** Where each operation takes effect: commit at its stack append, rollback at its
      stack cut, destroy at the removal of its directory. */
  ghost function SimpleOf(s: State, step: Step): SimpleStep
    requires Enabled(s, step)
  {
    match step
    case Create => NewSession
    case Run(i, upper) => Write(i, upper)
    case Reset(i) => Discard(i)
    case BeginRollback(i, id) => Truncate(i, id)
    case Finish(i) =>
      if s.sessions[i].pc.CommitUnlocked? then Snapshot(i)
      else if s.sessions[i].pc.DestroyUnlocked? then Remove(i)
      else Stutter
    case _ => Stutter
  }

  ghost function SimpleRun(s: State, steps: seq<Step>): seq<SimpleStep>
    requires IsRun(s, steps)
    decreases |steps|
  {
    if steps == [] then [] else [SimpleOf(s, steps[0])] + SimpleRun(Apply(s, steps[0]), steps[1..])
  }

  // ---- Stored trees never change ----

  lemma StoredTreesFixed(s: State, step: Step, id: CommitId)
    requires Enabled(s, step) && id in s.layers && id in Apply(s, step).layers
    ensures Apply(s, step).layers[id] == s.layers[id]
  {
    if step.EditIndex? {
      EditFixes(s, step.i, id);
    }
  }

  lemma EditFixes(s: State, i: nat, id: CommitId)
    requires Enabled(s, EditIndex(i)) && id in s.layers
    ensures id in Edit(s, i).layers && Edit(s, i).layers[id] == s.layers[id]
  {
    if s.sessions[i].pc.CommitLocked? { CommitEditShape(s, i); }
  }

  /** A stack resolves to the same copies where stored trees are neither changed nor lost. */
  lemma SameCopies(layers: map<CommitId, Tree>, layers': map<CommitId, Tree>, stack: seq<CommitId>)
    requires forall x | x in stack :: x in layers && x in layers' && layers'[x] == layers[x]
    ensures Copies(layers', stack) == Copies(layers, stack)
  {
    assert forall k | 0 <= k < |stack| :: stack[k] in stack;
  }

  lemma ErasedId(t: Tree)
    ensures CommitIdOf(Erase(t)) == CommitIdOf(t)
  {
    WalkErased(t, []);
  }

  /** The copy found under an upper's commit id is that upper, as far as the manifest
      sees it: deduplication never swaps contents. */
  lemma {:induction false} DedupeIsInvisible(s: State, i: nat)
    requires Inv(s) && i < |s.sessions| && s.sessions[i].pc.CommitUnlocked?
    ensures var t := s.sessions[i];
            t.pc.id in s.layers && Resolve(s.layers, t.pc.id) == Erase(t.upper)
  {
    var t := s.sessions[i];
    InvIsSafe(s);
    assert MetaLag(t);
    ManifestCanonical(s.layers[t.pc.id], t.upper);
  }

  // ---- One session ----

  lemma AbsSet(s: State, s': State, i: nat, t': Session)
    requires i < |s.sessions| && s'.layers == s.layers && s'.sessions == s.sessions[i := t']
    ensures Abs(s') == Abs(s)[i := AbsSession(s.layers, t')]
  {
  }

  lemma AbsMoved(s: State, s': State, i: nat, t': Session)
    requires i < |s.sessions| && s'.layers == s.layers && s'.sessions == s.sessions[i := t']
    requires AbsSession(s.layers, t') == AbsSession(s.layers, s.sessions[i])
    ensures Abs(s') == Abs(s)
  {
    AbsSet(s, s', i, t');
  }

  lemma CopyIds(s: State, i: nat)
    requires Inv(s) && i < |s.sessions| && !s.sessions[i].pc.Gone?
    ensures var t := s.sessions[i];
            forall k | 0 <= k < |t.stack| :: CommitIdOf(Copies(s.layers, t.stack)[k]) == t.stack[k]
  {
    var t := s.sessions[i];
    forall k | 0 <= k < |t.stack| ensures CommitIdOf(Copies(s.layers, t.stack)[k]) == t.stack[k] {
      StackStored(s, i, t.stack[k]);
      ErasedId(s.layers[t.stack[k]]);
    }
  }

  lemma FirstsAgree(copies: seq<Tree>, stack: seq<CommitId>, id: CommitId)
    requires |copies| == |stack| && forall k | 0 <= k < |stack| :: CommitIdOf(copies[k]) == stack[k]
    ensures id in stack <==> HasCopy(copies, id)
    ensures id in stack ==> FirstIndex(stack, id) == FirstCopy(copies, id)
  {
    assert Ids(copies) == stack;
  }

  lemma CopiesPrefix(layers: map<CommitId, Tree>, stack: seq<CommitId>, n: nat)
    requires n <= |stack|
    ensures Copies(layers, stack[..n]) == Copies(layers, stack)[..n]
  {
  }

  lemma CopiesSnoc(layers: map<CommitId, Tree>, stack: seq<CommitId>, id: CommitId)
    ensures Copies(layers, stack + [id]) == Copies(layers, stack) + [Resolve(layers, id)]
  {
  }

  lemma CutStackIs(t: Session, id: CommitId)
    requires t.pc.Idle? && id in t.stack
    ensures FirstIndex(t.stack, id) < |t.stack|
    ensures CutStack(t, id).stack == t.stack[..FirstIndex(t.stack, id) + 1] &&
            CutStack(t, id).pc.RollbackCut?
  {
    FirstIndexIs(t.stack, id);
  }

  lemma CutRefines(s: State, i: nat, id: CommitId)
    requires Inv(s) && i < |s.sessions| && s.sessions[i].pc.Idle?
    ensures AbsSession(s.layers, CutStack(s.sessions[i], id)) ==
            RolledBack(AbsSession(s.layers, s.sessions[i]), id)
  {
    CopyIds(s, i);
    CutCopies(s.layers, s.sessions[i], id);
  }

  lemma CutSession(layers: map<CommitId, Tree>, t: Session, id: CommitId)
    requires t.pc.Idle? && id in t.stack
    ensures FirstIndex(t.stack, id) < |t.stack|
    ensures AbsSession(layers, CutStack(t, id)) ==
            Copied(Copies(layers, t.stack)[..FirstIndex(t.stack, id) + 1], Seeds(), true)
  {
    CutStackIs(t, id);
    CopiesPrefix(layers, t.stack, FirstIndex(t.stack, id) + 1);
  }

  lemma CutCopies(layers: map<CommitId, Tree>, t: Session, id: CommitId)
    requires t.pc.Idle?
    requires forall k | 0 <= k < |t.stack| :: CommitIdOf(Copies(layers, t.stack)[k]) == t.stack[k]
    ensures AbsSession(layers, CutStack(t, id)) == RolledBack(AbsSession(layers, t), id)
  {
    FirstsAgree(Copies(layers, t.stack), t.stack, id);
    if id in t.stack {
      CutSession(layers, t, id);
    }
  }

  lemma AppendRefines(s: State, i: nat)
    requires Inv(s) && i < |s.sessions| && s.sessions[i].pc.CommitUnlocked?
    ensures AbsSession(s.layers, Tail(s.sessions[i])) == Committed(AbsSession(s.layers, s.sessions[i]))
  {
    DedupeIsInvisible(s, i);
    AppendedCopies(s.layers, s.sessions[i]);
  }

  lemma AppendedCopies(layers: map<CommitId, Tree>, t: Session)
    requires t.pc.CommitUnlocked? && Resolve(layers, t.pc.id) == Erase(t.upper)
    ensures AbsSession(layers, Tail(t)) == Committed(AbsSession(layers, t))
  {
    CopiesSnoc(layers, t.stack, t.pc.id);
  }

  /** Every other unlocked step is invisible. */
  lemma TailRefines(layers: map<CommitId, Tree>, t: Session)
    requires AfterUnlock(t.pc) && !t.pc.CommitUnlocked? && !t.pc.DestroyUnlocked?
    ensures AbsSession(layers, Tail(t)) == AbsSession(layers, t)
  {
  }

  lemma PcRefines(layers: map<CommitId, Tree>, t: Session, pc: Pc)
    requires !t.pc.Gone? && !pc.Gone? && (UpperDoomed(pc) <==> UpperDoomed(t.pc))
    ensures AbsSession(layers, t.(pc := pc)) == AbsSession(layers, t)
  {
  }

  // ---- One step ----

  ghost predicate Refines(s: State, s': State, step: SimpleStep) {
    Abs(s') == SimpleApply(Abs(s), step)
  }

  lemma FinishRefines(s: State, i: nat)
    requires Inv(s) && Enabled(s, Finish(i))
    ensures Refines(s, SetSession(s, i, Tail(s.sessions[i])), SimpleOf(s, Finish(i)))
  {
    var t := s.sessions[i];
    if t.pc.CommitUnlocked? { FinishCommit(s, i); }
    else if t.pc.DestroyUnlocked? { FinishDestroy(s, i); }
    else { FinishQuietly(s, i); }
  }

  lemma FinishCommit(s: State, i: nat)
    requires Inv(s) && i < |s.sessions| && s.sessions[i].pc.CommitUnlocked?
    ensures Refines(s, SetSession(s, i, Tail(s.sessions[i])), Snapshot(i))
  {
    AppendRefines(s, i);
    SnapshotAt(s, i, Tail(s.sessions[i]));
  }

  lemma SnapshotAt(s: State, i: nat, t': Session)
    requires i < |s.sessions|
    requires AbsSession(s.layers, t') == Committed(AbsSession(s.layers, s.sessions[i]))
    ensures Refines(s, SetSession(s, i, t'), Snapshot(i))
  {
    AbsSet(s, SetSession(s, i, t'), i, t');
    assert Abs(s)[i] == AbsSession(s.layers, s.sessions[i]);
  }

  lemma FinishDestroy(s: State, i: nat)
    requires i < |s.sessions| && s.sessions[i].pc.DestroyUnlocked?
    ensures Refines(s, SetSession(s, i, Tail(s.sessions[i])), Remove(i))
  {
    AbsSet(s, SetSession(s, i, Tail(s.sessions[i])), i, Tail(s.sessions[i]));
  }

  lemma FinishQuietly(s: State, i: nat)
    requires i < |s.sessions| && AfterUnlock(s.sessions[i].pc)
    requires !s.sessions[i].pc.CommitUnlocked? && !s.sessions[i].pc.DestroyUnlocked?
    ensures Refines(s, SetSession(s, i, Tail(s.sessions[i])), Stutter)
  {
    TailRefines(s.layers, s.sessions[i]);
    AbsMoved(s, SetSession(s, i, Tail(s.sessions[i])), i, Tail(s.sessions[i]));
  }

  lemma WriteRefines(s: State, i: nat, upper: Tree)
    requires i < |s.sessions| && s.sessions[i].pc.Idle?
    ensures Refines(s, SetSession(s, i, s.sessions[i].(upper := upper)), Write(i, upper))
  {
    AbsSet(s, SetSession(s, i, s.sessions[i].(upper := upper)), i, s.sessions[i].(upper := upper));
  }

  lemma ResetRefines(s: State, i: nat)
    requires i < |s.sessions| && s.sessions[i].pc.Idle?
    ensures Refines(s, SetSession(s, i, s.sessions[i].(upper := Seeds())), Discard(i))
  {
    WriteRefines(s, i, Seeds());
  }

  lemma TruncateAt(s: State, i: nat, t': Session, id: CommitId)
    requires i < |s.sessions|
    requires AbsSession(s.layers, t') == RolledBack(AbsSession(s.layers, s.sessions[i]), id)
    ensures Refines(s, SetSession(s, i, t'), Truncate(i, id))
  {
    AbsSet(s, SetSession(s, i, t'), i, t');
    assert Abs(s)[i] == AbsSession(s.layers, s.sessions[i]);
  }

  lemma RollbackRefines(s: State, i: nat, id: CommitId)
    requires Inv(s) && i < |s.sessions| && s.sessions[i].pc.Idle?
    ensures Refines(s, SetSession(s, i, CutStack(s.sessions[i], id)), Truncate(i, id))
  {
    CutRefines(s, i, id);
    TruncateAt(s, i, CutStack(s.sessions[i], id), id);
  }

  lemma CreateRefines(s: State)
    ensures Refines(s, s.(sessions := s.sessions + [Session([], Seeds(), [], Idle)]), NewSession)
  {
    assert AbsSession(s.layers, Session([], Seeds(), [], Idle)) == Copied([], Seeds(), true);
  }

  /** No stored tree changes, and sessions change nothing but their position. */
  ghost predicate OnlyMoves(s: State, s': State) {
    |s'.sessions| == |s.sessions| &&
    (forall x | x in s.layers && x in s'.layers :: s'.layers[x] == s.layers[x]) &&
    forall j | 0 <= j < |s.sessions| ::
      s'.sessions[j] == s.sessions[j].(pc := s'.sessions[j].pc) &&
      (s'.sessions[j].pc.Gone? <==> s.sessions[j].pc.Gone?) &&
      (UpperDoomed(s'.sessions[j].pc) <==> UpperDoomed(s.sessions[j].pc))
  }

  /** Every stack resolves to the same trees, so an edit of the store is invisible. */
  lemma StoreEditInvisible(s: State, s': State)
    requires Inv(s) && Inv(s') && OnlyMoves(s, s')
    ensures Refines(s, s', Stutter)
  {
    SameAbs(s, s');
    StutterIntro(s, s');
  }

  lemma StutterIntro(s: State, s': State)
    requires Abs(s') == Abs(s)
    ensures Refines(s, s', Stutter)
  {
  }

  lemma SameAbs(s: State, s': State)
    requires Inv(s) && Inv(s') && OnlyMoves(s, s')
    ensures Abs(s') == Abs(s)
  {
    forall j | 0 <= j < |s.sessions| ensures Abs(s')[j] == Abs(s)[j] {
      var t := s.sessions[j];
      if !t.pc.Gone? {
        forall x | x in t.stack ensures x in s.layers && x in s'.layers {
          StackStored(s, j, x);
          StackStored(s', j, x);
        }
        SameCopies(s.layers, s'.layers, t.stack);
        PcRefines(s.layers, t, s'.sessions[j].pc);
      }
    }
  }

  lemma EditInv(s: State, i: nat)
    requires Inv(s) && i < |s.sessions| && ReadyToEdit(s.sessions[i].pc)
    ensures Inv(Edit(s, i))
  {
    if s.sessions[i].pc.CommitLocked? { CommitEdit(s, i); } else { ReleaseEdit(s, i); }
  }

  lemma EditRefines(s: State, i: nat)
    requires Inv(s) && i < |s.sessions| && ReadyToEdit(s.sessions[i].pc)
    ensures Refines(s, Edit(s, i), Stutter)
  {
    EditInv(s, i);
    EditOnlyMoves(s, i);
    StoreEditInvisible(s, Edit(s, i));
  }

  lemma EditOnlyMoves(s: State, i: nat)
    requires i < |s.sessions| && ReadyToEdit(s.sessions[i].pc)
    ensures OnlyMoves(s, Edit(s, i))
  {
    if s.sessions[i].pc.CommitLocked? { CommitEditShape(s, i); } else { ReleaseCharge(s, i); }
  }

  lemma PeelRefines(s: State)
    requires Inv(s) && Enabled(s, GcPeel)
    ensures Refines(s, Apply(s, GcPeel), Stutter)
  {
    GcPeelStep(s);
    PeelOnlyMoves(s);
    StoreEditInvisible(s, Apply(s, GcPeel));
  }

  lemma PeelOnlyMoves(s: State)
    requires Enabled(s, GcPeel)
    ensures OnlyMoves(s, Apply(s, GcPeel))
  {
  }

  lemma MoveRefines(s: State, s': State, i: nat, pc: Pc)
    requires i < |s.sessions| && s'.layers == s.layers
    requires s'.sessions == s.sessions[i := s.sessions[i].(pc := pc)]
    requires !s.sessions[i].pc.Gone? && !pc.Gone? && (UpperDoomed(pc) <==> UpperDoomed(s.sessions[i].pc))
    ensures Refines(s, s', Stutter)
  {
    PcRefines(s.layers, s.sessions[i], pc);
    AbsMoved(s, s', i, s.sessions[i].(pc := pc));
  }

  lemma LockRefines(s: State, step: Step)
    requires Enabled(s, step) && (step.Acquire? || step.Release?)
    ensures Refines(s, Apply(s, step), Stutter)
  {
    var pc := s.sessions[step.i].pc;
    MoveRefines(s, Apply(s, step), step.i, if step.Acquire? then LockedPc(pc) else UnlockedPc(pc));
  }

  lemma BeginCommitRefines(s: State, i: nat)
    requires Enabled(s, BeginCommit(i))
    ensures Refines(s, Apply(s, BeginCommit(i)), Stutter)
  {
    MoveRefines(s, Apply(s, BeginCommit(i)), i, CommitHashed(CommitIdOf(s.sessions[i].upper)));
  }

  lemma BeginDestroyRefines(s: State, i: nat)
    requires Enabled(s, BeginDestroy(i))
    ensures Refines(s, Apply(s, BeginDestroy(i)), Stutter)
  {
    MoveRefines(s, Apply(s, BeginDestroy(i)), i, DestroyWanted);
  }

  lemma ScanRefines(s: State, step: Step)
    requires Enabled(s, step) && (step.GcAcquire? || step.GcRead? || step.GcRelease?)
    ensures Refines(s, Apply(s, step), Stutter)
  {
  }

  /** Each step of the concurrent store is a step of the simple model or invisible. */
  lemma {:induction false} StepRefines(s: State, step: Step)
    requires Inv(s) && Enabled(s, step)
    ensures Refines(s, Apply(s, step), SimpleOf(s, step))
  {
    match step
    case Create => CreateRefines(s);
    case Run(i, upper) => WriteRefines(s, i, upper);
    case Reset(i) => ResetRefines(s, i);
    case BeginCommit(i) => BeginCommitRefines(s, i);
    case BeginRollback(i, id) => RollbackRefines(s, i, id);
    case BeginDestroy(i) => BeginDestroyRefines(s, i);
    case Acquire(_) => LockRefines(s, step);
    case EditIndex(i) => EditRefines(s, i);
    case Release(_) => LockRefines(s, step);
    case Finish(i) => FinishRefines(s, i);
    case GcAcquire => ScanRefines(s, step);
    case GcRead(_) => ScanRefines(s, step);
    case GcPeel => PeelRefines(s);
    case GcRelease => ScanRefines(s, step);
  }

  // ---- Every run ----

  lemma {:induction false} RunRefinesFrom(s: State, steps: seq<Step>)
    requires Inv(s) && IsRun(s, steps)
    ensures Abs(After(s, steps)) == SimpleAfter(Abs(s), SimpleRun(s, steps))
    decreases |steps|
  {
    if steps != [] {
      StepRefines(s, steps[0]);
      StepKeepsInv(s, steps[0]);
      RunRefinesFrom(Apply(s, steps[0]), steps[1..]);
    }
  }

  /** Refinement, over any number of sessions and every interleaving: resolving each
      stack through the shared store gives exactly the copies of the simple model. */
  lemma {:induction false} RunRefines(steps: seq<Step>)
    requires IsRun(Init(), steps)
    ensures Abs(After(Init(), steps)) == SimpleAfter([], SimpleRun(Init(), steps))
  {
    assert Inv(Init());
    assert Abs(Init()) == [];
    RunRefinesFrom(Init(), steps);
  }
}
