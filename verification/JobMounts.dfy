/** What a background job is mounted on, over whole histories: exactly which steps take a layer or
    the snapshot away from under it, and what it sees as long as none does. */
module JobMounts {
  import opened FileTree
  import opened OverlayWrites
  import opened SessionDisk
  import opened Manifest
  import opened LayerGc
  import opened StoreProtocol
  import opened StoreSafety
  import opened StoreRefinement
  import opened StoreHistory
  import opened JobIsolation
  import opened JobHistories

  // ---- One step of the store ----

  /** The owner is not gone, and every layer is stored. */
  ghost predicate Holds(s: State, owner: nat, lowers: seq<CommitId>) {
    owner < |s.sessions| && !s.sessions[owner].pc.Gone? && forall x | x in lowers :: x in s.layers
  }

  /** The step removes one of the layers, or ends the owner's destruction. */
  ghost predicate Takes(s: State, step: Step, owner: nat, lowers: seq<CommitId>) {
    match step
    case GcPeel => s.gc.Scanning? && exists x | x in lowers :: x !in Peel(s.index, s.gc.live)
    case Finish(i) => i == owner && owner < |s.sessions| && s.sessions[owner].pc.DestroyUnlocked?
    case _ => false
  }

  /** A collection takes a stored layer exactly when nothing holds it: it is not in use, on no
      parent cycle, and no ancestor of a layer that is. */
  lemma PeelTakesIff(s: State, owner: nat, lowers: seq<CommitId>)
    requires Counted(s) && s.gc.Scanning? && Holds(s, owner, lowers)
    ensures Takes(s, GcPeel, owner, lowers) <==> exists x | x in lowers :: !Held(s.index, s.gc.live, x)
  {
    forall x | x in lowers ensures x in Peel(s.index, s.gc.live) <==> Held(s.index, s.gc.live, x) {
      PeelKeepsHeld(s.index, s.gc.live, x);
    }
  }

  lemma PeelHolds(s: State, owner: nat, lowers: seq<CommitId>)
    requires Inv(s) && Enabled(s, GcPeel) && Holds(s, owner, lowers)
    ensures Holds(Apply(s, GcPeel), owner, lowers) <==> !Takes(s, GcPeel, owner, lowers)
  {
    var kept := Peel(s.index, s.gc.live);
    PeelKeepsUsed(s.index, s.gc.live);
    forall x | x in lowers ensures x in Apply(s, GcPeel).layers <==> x in kept {
      assert x in s.index;
    }
  }

  lemma EditHolds(s: State, i: nat, owner: nat, lowers: seq<CommitId>)
    requires i < |s.sessions| && ReadyToEdit(s.sessions[i].pc) && Holds(s, owner, lowers)
    ensures Holds(Edit(s, i), owner, lowers)
  {
    EditOnlyMoves(s, i);
    forall x | x in lowers ensures x in Edit(s, i).layers {
      EditFixes(s, i, x);
    }
  }

  lemma FinishHolds(s: State, i: nat, owner: nat, lowers: seq<CommitId>)
    requires Enabled(s, Finish(i)) && Holds(s, owner, lowers)
    ensures Holds(Apply(s, Finish(i)), owner, lowers) <==> !Takes(s, Finish(i), owner, lowers)
  {
  }

  lemma OthersHold(s: State, step: Step, owner: nat, lowers: seq<CommitId>)
    requires Enabled(s, step) && Holds(s, owner, lowers) && !step.GcPeel? && !step.EditIndex? && !step.Finish?
    ensures Holds(Apply(s, step), owner, lowers)
  {
  }

  /** What a job stands on is still there after a step if and only if the step does not take it. */
  lemma {:induction false} HoldsIff(s: State, step: Step, owner: nat, lowers: seq<CommitId>)
    requires Inv(s) && Enabled(s, step) && Holds(s, owner, lowers)
    ensures Holds(Apply(s, step), owner, lowers) <==> !Takes(s, step, owner, lowers)
  {
    match step
    case GcPeel => PeelHolds(s, owner, lowers);
    case EditIndex(i) => EditHolds(s, i, owner, lowers);
    case Finish(i) => FinishHolds(s, i, owner, lowers);
    case _ => OthersHold(s, step, owner, lowers);
  }

  // ---- Over histories ----

  /** The job's mount is whole: its owner's directory and its layers are there. */
  ghost predicate Mounted(m: Machine, job: Job) {
    Holds(m.store, job.owner, job.lowers)
  }

  ghost predicate TakesFrom(m: Machine, move: Move, job: Job) {
    move.Store? && Takes(m.store, move.step, job.owner, job.lowers)
  }

  ghost predicate NeverTaken(m: Machine, moves: seq<Move>, job: Job, base: Tree)
    requires IsHistory(m, moves, base)
    decreases |moves|
  {
    moves == [] || (!TakesFrom(m, moves[0], job) && NeverTaken(Make(m, moves[0], base), moves[1..], job, base))
  }

  ghost predicate AlwaysMounted(m: Machine, moves: seq<Move>, job: Job, base: Tree)
    requires IsHistory(m, moves, base)
    decreases |moves|
  {
    Mounted(m, job) && (moves == [] || AlwaysMounted(Make(m, moves[0], base), moves[1..], job, base))
  }

  lemma HoldsSeen(m: Machine, owner: nat, lowers: seq<CommitId>)
    ensures Holds(Seen(m), owner, lowers) <==> Holds(m.store, owner, lowers)
  {
    if owner < |m.store.sessions| { assert Seen(m).sessions[owner] == SeenSession(m, owner); }
  }

  lemma TakesSeen(m: Machine, step: Step, owner: nat, lowers: seq<CommitId>)
    ensures Takes(Seen(m), step, owner, lowers) <==> Takes(m.store, step, owner, lowers)
  {
    if owner < |m.store.sessions| { assert Seen(m).sessions[owner] == SeenSession(m, owner); }
  }

  /** A job is mounted where it is launched. */
  lemma LaunchMounts(m: Machine, i: nat, name: string, base: Tree)
    requires Sound(m) && Possible(m, Launch(i, name), base)
    ensures Mounted(Make(m, Launch(i, name), base), Job(i, name, m.store.sessions[i].stack))
    ensures Make(m, Launch(i, name), base).jobs[|m.jobs|..] == [Job(i, name, m.store.sessions[i].stack)]
  {
    StackHolds(m, i);
    LaunchShape(m, i, name);
    var disk := LaunchIs(m, i, name);
  }

  lemma StackHolds(m: Machine, i: nat)
    requires Inv(Seen(m)) && i < |m.store.sessions| && !m.store.sessions[i].pc.Gone?
    ensures Holds(m.store, i, m.store.sessions[i].stack)
  {
    assert Seen(m).sessions[i] == SeenSession(m, i);
    forall x | x in m.store.sessions[i].stack ensures x in m.store.layers { StackStored(Seen(m), i, x); }
  }

  lemma MountedStep(m: Machine, step: Step, job: Job)
    requires Inv(Seen(m)) && Enabled(Seen(m), step) && Mounted(m, job)
    ensures Mounted(Stepped(m, step), job) <==> !Takes(m.store, step, job.owner, job.lowers)
  {
    HoldsSeen(m, job.owner, job.lowers);
    TakesSeen(m, step, job.owner, job.lowers);
    HoldsIff(Seen(m), step, job.owner, job.lowers);
  }

  lemma MoveMounted(m: Machine, move: Move, base: Tree, job: Job)
    requires Sound(m) && Possible(m, move, base) && Mounted(m, job)
    ensures Mounted(Make(m, move, base), job) <==> !TakesFrom(m, move, job)
  {
    match move
    case Store(step) => MountedStep(m, step, job);
    case Launch(i, name) => var disk := LaunchIs(m, i, name);
    case JobWrite(_, _) =>
  }

  /** Over a whole history, a job's mount is whole at every point if and only if no step takes
      anything of it. */
  lemma {:induction false} MountedIff(m: Machine, moves: seq<Move>, base: Tree, job: Job)
    requires Sound(m) && WellFormed(base) && IsHistory(m, moves, base) && Mounted(m, job)
    ensures AlwaysMounted(m, moves, job, base) <==> NeverTaken(m, moves, job, base)
    decreases |moves|
  {
    if moves != [] {
      var m1 := Make(m, moves[0], base);
      MakeKeepsSound(m, moves[0], base);
      MoveMounted(m, moves[0], base, job);
      if Mounted(m1, job) { MountedIff(m1, moves[1..], base, job); }
    }
  }

  // ---- What is mounted stays the same ----

  lemma SameLowersFrom(m: Machine, m': Machine, base: Tree, job: Job)
    requires m'.store == m.store && SnapshotOf(m', job) == SnapshotOf(m, job)
    ensures JobLowers(m', base, job) == JobLowers(m, base, job)
  {
  }

  lemma LowersFrom(m: Machine, m': Machine, base: Tree, job: Job)
    requires SameTrees(m.store, m'.store, job.lowers) && SnapshotOf(m', job) == SnapshotOf(m, job)
    ensures JobLowers(m', base, job) == JobLowers(m, base, job)
  {
    StoreHistory.SameLowers(m.store, m'.store, base, job.lowers);
  }

  lemma HeldTreesSame(s: State, step: Step, owner: nat, lowers: seq<CommitId>)
    requires Enabled(s, step) && Holds(s, owner, lowers) && Holds(Apply(s, step), owner, lowers)
    ensures SameTrees(s, Apply(s, step), lowers)
  {
    forall x | x in lowers ensures Apply(s, step).layers[x] == s.layers[x] {
      StoredTreesFixed(s, step, x);
    }
  }

  lemma StepKeepsLowers(m: Machine, step: Step, base: Tree, job: Job, m': Machine)
    requires Sound(m) && Enabled(Seen(m), step) && m' == Stepped(m, step)
    requires Mounted(m, job) && Mounted(m', job)
    ensures JobLowers(m', base, job) == JobLowers(m, base, job)
  {
    var s' := Apply(Seen(m), step);
    StepKeepsInv(Seen(m), step);
    SnapshotAfterStep(m, step, job, s');
    HoldsSeen(m, job.owner, job.lowers);
    HeldTreesSame(Seen(m), step, job.owner, job.lowers);
    LowersFrom(m, m', base, job);
  }

  lemma LaunchKeepsLowers(m: Machine, i: nat, name: string, base: Tree, job: Job, m': Machine)
    requires Sound(m) && Possible(m, Launch(i, name), base) && m' == WithLaunch(m, i, name)
    requires job.owner == i ==> job.name != name
    ensures JobLowers(m', base, job) == JobLowers(m, base, job)
  {
    UpperIsWellFormed(m, i);
    SnapshotAfterLaunch(m, i, name, job);
    var disk := LaunchIs(m, i, name);
    SameLowersFrom(m, m', base, job);
  }

  lemma MoveKeepsLowers(m: Machine, move: Move, base: Tree, j: nat, m': Machine)
    requires Sound(m) && WellFormed(base) && Possible(m, move, base) && m' == Make(m, move, base) && j < |m.jobs|
    requires Mounted(m, m.jobs[j]) && Mounted(m', m.jobs[j])
    ensures j < |m'.jobs| && m'.jobs[j] == m.jobs[j]
    ensures JobLowers(m', base, m.jobs[j]) == JobLowers(m, base, m.jobs[j])
  {
    match move
    case Store(step) => StepKeepsLowers(m, step, base, m.jobs[j], m');
    case Launch(i, name) =>
      LaunchKeepsLowers(m, i, name, base, m.jobs[j], m');
      var disk := LaunchIs(m, i, name);
    case JobWrite(k, op) =>
      assert JobTrees(m, m.jobs[k]);
      JobWriteSeen(m, base, m.jobs[k], op);
      LowersAfterWrite(m, m.jobs[k], WrittenUpper(m, base, m.jobs[k], op), base, m.jobs[j]);
  }

  /** Whatever sessions, jobs and collections do, rollbacks of the owner included: as long as no
      step takes a layer or the owner's directory away, the job is mounted on the same trees. */
  lemma {:induction false} UntakenLowersStay(m: Machine, moves: seq<Move>, base: Tree, j: nat)
    requires Sound(m) && WellFormed(base) && IsHistory(m, moves, base) && j < |m.jobs|
    requires Mounted(m, m.jobs[j]) && NeverTaken(m, moves, m.jobs[j], base)
    ensures var m' := Final(m, moves, base);
            j < |m'.jobs| && m'.jobs[j] == m.jobs[j] && Mounted(m', m.jobs[j]) &&
            JobLowers(m', base, m.jobs[j]) == JobLowers(m, base, m.jobs[j])
    decreases |moves|
  {
    if moves != [] {
      var m1 := Make(m, moves[0], base);
      MakeKeepsSound(m, moves[0], base);
      MoveMounted(m, moves[0], base, m.jobs[j]);
      MoveKeepsLowers(m, moves[0], base, j, m1);
      UntakenLowersStay(m1, moves[1..], base, j);
    }
  }

  // ---- What the job sees ----

  lemma UpperAfterStep(m: Machine, step: Step, job: Job, s': State)
    requires Enabled(Seen(m), step) && s' == Apply(Seen(m), step) && SessionsOk(s')
    requires job.owner < |s'.sessions| && !s'.sessions[job.owner].pc.Gone?
    ensures UpperOf(Stepped(m, step), job) == UpperOf(m, job)
  {
    assert AcceptableUpper(s'.sessions[job.owner].upper);
    SteppedDisk(m, step, job.owner, s');
    JobAfterStep(DiskOf(m, job.owner), s'.sessions[job.owner], job.name);
    JobDirsFrom(Stepped(m, step), job, DiskOf(Stepped(m, step), job.owner));
    JobDirsFrom(m, job, DiskOf(m, job.owner));
  }

  lemma UpperAfterLaunch(m: Machine, i: nat, name: string, job: Job)
    requires i < |m.disks| && i < |m.store.sessions| && WellFormed(TreeAt(DiskOf(m, i), UPPER))
    requires job.owner == i ==> job.name != name
    ensures UpperOf(WithLaunch(m, i, name), job) == UpperOf(m, job)
  {
    var m' := WithLaunch(m, i, name);
    LaunchDisk(m, i, name, job.owner);
    if job.owner == i {
      LaunchedTrees(DiskOf(m, i), name, job.name);
      JobDirsFrom(m', job, Launched(DiskOf(m, i), name));
    } else {
      JobDirsFrom(m', job, DiskOf(m, job.owner));
    }
    JobDirsFrom(m, job, DiskOf(m, job.owner));
  }

  lemma ViewOfParts(m: Machine, m': Machine, base: Tree, job: Job)
    requires JobLowers(m', base, job) == JobLowers(m, base, job) && UpperOf(m', job) == UpperOf(m, job)
    ensures JobView(m', base, job) == JobView(m, base, job)
  {
  }

  /** What a move does to the view of job `j`: its own write has its effect, anything else none. */
  function Felt(v: Tree, move: Move, j: nat): Tree {
    if move.JobWrite? && move.j == j then Effect(v, move.op) else v
  }

  lemma StepView(m: Machine, step: Step, base: Tree, job: Job, m': Machine)
    requires Sound(m) && Enabled(Seen(m), step) && m' == Stepped(m, step)
    requires Mounted(m, job) && Mounted(m', job)
    ensures JobView(m', base, job) == JobView(m, base, job)
  {
    StepKeepsInv(Seen(m), step);
    UpperAfterStep(m, step, job, Apply(Seen(m), step));
    StepKeepsLowers(m, step, base, job, m');
    ViewOfParts(m, m', base, job);
  }

  lemma LaunchLeavesView(m: Machine, i: nat, name: string, base: Tree, job: Job, m': Machine)
    requires Sound(m) && Possible(m, Launch(i, name), base) && m' == WithLaunch(m, i, name)
    requires job.owner == i ==> job.name != name
    ensures JobView(m', base, job) == JobView(m, base, job)
  {
    UpperIsWellFormed(m, i);
    UpperAfterLaunch(m, i, name, job);
    LaunchKeepsLowers(m, i, name, base, job, m');
    ViewOfParts(m, m', base, job);
  }

  lemma StoreView(m: Machine, move: Move, base: Tree, j: nat)
    requires Sound(m) && move.Store? && Possible(m, move, base) && j < |m.jobs|
    requires Mounted(m, m.jobs[j]) && Mounted(Stepped(m, move.step), m.jobs[j])
    ensures JobView(Make(m, move, base), base, m.jobs[j]) == Felt(JobView(m, base, m.jobs[j]), move, j)
  {
    StepView(m, move.step, base, m.jobs[j], Stepped(m, move.step));
  }

  lemma NewName(m: Machine, i: nat, name: string, base: Tree, j: nat)
    requires Possible(m, Launch(i, name), base) && j < |m.jobs|
    ensures m.jobs[j].owner == i ==> m.jobs[j].name != name
  {
  }

  lemma LaunchedView(m: Machine, move: Move, base: Tree, j: nat, m': Machine)
    requires Sound(m) && move.Launch? && Possible(m, move, base) && j < |m.jobs| && m' == Make(m, move, base)
    ensures JobView(m', base, m.jobs[j]) == Felt(JobView(m, base, m.jobs[j]), move, j)
  {
    NewName(m, move.i, move.name, base, j);
    LaunchLeavesView(m, move.i, move.name, base, m.jobs[j], m');
  }

  lemma WriteView(m: Machine, move: Move, base: Tree, j: nat)
    requires Tidy(m) && WellFormed(base) && move.JobWrite? && Possible(m, move, base) && j < |m.jobs|
    ensures JobView(Make(m, move, base), base, m.jobs[j]) == Felt(JobView(m, base, m.jobs[j]), move, j)
  {
    JobWriteIsPrivate(m, move.j, move.op, base);
  }

  /** The effects of a job's own writes, in order. */
  function OwnEffects(v: Tree, moves: seq<Move>, j: nat): Tree
    decreases |moves|
  {
    if moves == [] then v else OwnEffects(Felt(v, moves[0], j), moves[1..], j)
  }

  /** As long as nothing of its mount is taken, a job sees what it saw, changed by its own writes
      in their order and by nothing that anyone else does. */
  lemma {:induction false} JobSeesOwnWrites(m: Machine, moves: seq<Move>, base: Tree, j: nat)
    requires Sound(m) && WellFormed(base) && IsHistory(m, moves, base) && j < |m.jobs|
    requires Mounted(m, m.jobs[j]) && NeverTaken(m, moves, m.jobs[j], base)
    ensures JobView(Final(m, moves, base), base, m.jobs[j]) == OwnEffects(JobView(m, base, m.jobs[j]), moves, j)
    decreases |moves|
  {
    if moves != [] {
      var m1 := Make(m, moves[0], base);
      MakeKeepsSound(m, moves[0], base);
      MoveMounted(m, moves[0], base, m.jobs[j]);
      MoveKeepsLowers(m, moves[0], base, j, m1);
      if moves[0].Store? {
        StoreView(m, moves[0], base, j);
      } else if moves[0].Launch? {
        LaunchedView(m, moves[0], base, j, m1);
      } else {
        WriteView(m, moves[0], base, j);
      }
      JobSeesOwnWrites(m1, moves[1..], base, j);
    }
  }

  // ---- A common case: the owner keeps the stack ----

  /** The owner is there, and the job's lowers are a prefix of its stack. */
  ghost predicate OwnerHas(m: Machine, job: Job) {
    job.owner < |m.store.sessions| && !m.store.sessions[job.owner].pc.Gone? &&
    job.lowers <= m.store.sessions[job.owner].stack
  }

  /** The owner never rolls back below the stack the job was launched on: at every point
      of the history the job's lowers are still a prefix of its stack. */
  ghost predicate OwnerKeepsStack(m: Machine, moves: seq<Move>, job: Job, base: Tree)
    requires IsHistory(m, moves, base)
    decreases |moves|
  {
    OwnerHas(m, job) &&
    (moves == [] || OwnerKeepsStack(Make(m, moves[0], base), moves[1..], job, base))
  }

  lemma OwnerMounts(m: Machine, job: Job)
    requires Inv(Seen(m)) && OwnerHas(m, job)
    ensures Mounted(m, job)
  {
    StackHolds(m, job.owner);
  }

  /** An owner that keeps the stack its job was launched on protects it from every collection. */
  lemma {:induction false} OwnerProtects(m: Machine, moves: seq<Move>, base: Tree, job: Job)
    requires Sound(m) && WellFormed(base) && IsHistory(m, moves, base) && OwnerKeepsStack(m, moves, job, base)
    ensures Mounted(m, job) && NeverTaken(m, moves, job, base)
    decreases |moves|
  {
    OwnerMounts(m, job);
    if moves != [] {
      var m1 := Make(m, moves[0], base);
      MakeKeepsSound(m, moves[0], base);
      OwnerProtects(m1, moves[1..], base, job);
      MoveMounted(m, moves[0], base, job);
    }
  }

  /** Session writes, commits, resets and collections never change what a job is mounted on,
      layers and snapshot, as long as its owner does not roll back below it or go away. */
  lemma {:induction false} LowersStayFixed(m: Machine, moves: seq<Move>, base: Tree, j: nat)
    requires Sound(m) && WellFormed(base) && IsHistory(m, moves, base) && j < |m.jobs|
    requires OwnerKeepsStack(m, moves, m.jobs[j], base)
    ensures var m' := Final(m, moves, base);
            j < |m'.jobs| && m'.jobs[j] == m.jobs[j] &&
            JobLowers(m', base, m.jobs[j]) == JobLowers(m, base, m.jobs[j])
  {
    OwnerProtects(m, moves, base, m.jobs[j]);
    UntakenLowersStay(m, moves, base, j);
  }
}
