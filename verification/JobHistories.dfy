/** Background jobs over whole histories: what their writes never reach, what never reaches
    them, and what the destruction of their session takes away. */
module JobHistories {
  import opened FileTree
  import opened Overlay
  import opened OverlayWrites
  import opened SessionDisk
  import opened StoreProtocol
  import opened StoreSafety
  import opened StoreViews
  import opened JobIsolation

  ghost predicate IsHistory(m: Machine, moves: seq<Move>, base: Tree)
    decreases |moves|
  {
    moves == [] || (Possible(m, moves[0], base) && IsHistory(Make(m, moves[0], base), moves[1..], base))
  }

  ghost function Final(m: Machine, moves: seq<Move>, base: Tree): Machine
    requires IsHistory(m, moves, base)
    decreases |moves|
  {
    if moves == [] then m else Final(Make(m, moves[0], base), moves[1..], base)
  }

  /** Every history from an empty store keeps all that the results below ask for. */
  lemma {:induction false} HistoriesAreSound(m: Machine, moves: seq<Move>, base: Tree)
    requires Sound(m) && WellFormed(base) && IsHistory(m, moves, base)
    ensures Sound(Final(m, moves, base))
    decreases |moves|
  {
    if moves != [] {
      MakeKeepsSound(m, moves[0], base);
      HistoriesAreSound(Make(m, moves[0], base), moves[1..], base);
    }
  }

  lemma StartIsSound()
    ensures Sound(Machine(Init(), [], []))
  {
    assert Seen(Machine(Init(), [], [])) == Init();
  }

  /** From an empty store on: whatever sessions and jobs do, and in whatever order. */
  lemma {:induction false} AllHistoriesAreSound(moves: seq<Move>, base: Tree)
    requires WellFormed(base) && IsHistory(Machine(Init(), [], []), moves, base)
    ensures Sound(Final(Machine(Init(), [], []), moves, base))
  {
    StartIsSound();
    HistoriesAreSound(Machine(Init(), [], []), moves, base);
  }

  // ---- Job writes never reach the store ----

  function WithoutWrites(moves: seq<Move>): seq<Move> {
    if moves == [] then []
    else (if moves[0].JobWrite? then [] else [moves[0]]) + WithoutWrites(moves[1..])
  }

  function SnapshotOf(m: Machine, job: Job): Tree {
    TreeAt(DiskOf(m, job.owner), JobSnapshot(job.name))
  }

  /** Two machines whose disks differ at most in the uppers of jobs. */
  ghost predicate SameUpToWrites(a: Machine, b: Machine) {
    Seen(a) == Seen(b) && a.jobs == b.jobs && |a.disks| == |b.disks| &&
    forall j | 0 <= j < |a.jobs| :: SnapshotOf(a, a.jobs[j]) == SnapshotOf(b, a.jobs[j])
  }

  lemma SameSessions(a: Machine, b: Machine, i: nat)
    requires Seen(a) == Seen(b) && i < |a.store.sessions|
    ensures i < |b.store.sessions|
    ensures Reading(a.store.sessions[i], DiskOf(a, i)) == Reading(b.store.sessions[i], DiskOf(b, i))
  {
    assert Seen(a).sessions[i] == SeenSession(a, i);
    assert Seen(b).sessions[i] == SeenSession(b, i);
  }

  lemma SamePossible(a: Machine, b: Machine, move: Move, base: Tree)
    requires SameUpToWrites(a, b) && Possible(a, move, base) && !move.JobWrite?
    ensures Possible(b, move, base)
  {
    if move.Launch? {
      SameSessions(a, b, move.i);
      assert DiskOf(a, move.i) == a.disks[move.i] && DiskOf(b, move.i) == b.disks[move.i];
    }
  }

  lemma SnapshotAfterStep(m: Machine, step: Step, job: Job, s': State)
    requires Enabled(Seen(m), step) && s' == Apply(Seen(m), step) && SessionsOk(s')
    requires job.owner < |s'.sessions|
    ensures SnapshotOf(Stepped(m, step), job) == if s'.sessions[job.owner].pc.Gone? then map[] else SnapshotOf(m, job)
  {
    assert AcceptableUpper(s'.sessions[job.owner].upper);
    SteppedDisk(m, step, job.owner, s');
    JobAfterStep(DiskOf(m, job.owner), s'.sessions[job.owner], job.name);
    JobDirsFrom(Stepped(m, step), job, DiskOf(Stepped(m, step), job.owner));
  }

  lemma SteppedDisk(m: Machine, step: Step, i: nat, s': State)
    requires Enabled(Seen(m), step) && s' == Apply(Seen(m), step) && i < |s'.sessions|
    ensures DiskOf(Stepped(m, step), i) == DiskAfter(DiskOf(m, i), s'.sessions[i])
  {
  }

  lemma JobDirsFrom(m: Machine, job: Job, disk: Tree)
    requires DiskOf(m, job.owner) == disk
    ensures SnapshotOf(m, job) == TreeAt(disk, JobSnapshot(job.name))
    ensures UpperOf(m, job) == TreeAt(disk, JobUpper(job.name))
  {
  }

  lemma StepsAgree(a: Machine, b: Machine, step: Step)
    requires Sound(a) && SameUpToWrites(a, b) && Enabled(Seen(a), step)
    ensures SameUpToWrites(Stepped(a, step), Stepped(b, step))
  {
    var s' := Apply(Seen(a), step);
    StepKeepsInv(Seen(a), step);
    SessionsStay(Seen(a), step);
    SeenAfterStep(a, step);
    SeenAfterStep(b, step);
    var a', b' := Stepped(a, step), Stepped(b, step);
    forall j | 0 <= j < |a'.jobs| ensures SnapshotOf(a', a'.jobs[j]) == SnapshotOf(b', a'.jobs[j]) {
      assert JobTrees(a, a.jobs[j]);
      SnapshotAfterStep(a, step, a.jobs[j], s');
      SnapshotAfterStep(b, step, a.jobs[j], s');
    }
  }

  lemma SnapshotAfterLaunch(m: Machine, i: nat, name: string, job: Job)
    requires i < |m.disks| && i < |m.store.sessions| && WellFormed(TreeAt(DiskOf(m, i), UPPER))
    ensures SnapshotOf(WithLaunch(m, i, name), job) ==
            if job.owner == i && job.name == name then Provisioned(TreeAt(DiskOf(m, i), UPPER)) else SnapshotOf(m, job)
  {
    var m' := WithLaunch(m, i, name);
    LaunchDisk(m, i, name, job.owner);
    if job.owner == i {
      LaunchedTrees(DiskOf(m, i), name, job.name);
      JobDirsFrom(m', job, Launched(DiskOf(m, i), name));
    } else {
      JobDirsFrom(m', job, DiskOf(m, job.owner));
    }
  }

  lemma LaunchesAgree(a: Machine, b: Machine, i: nat, name: string, job: Job)
    requires SameUpToWrites(a, b) && i < |a.disks| && i < |a.store.sessions| && i < |b.store.sessions|
    requires WellFormed(TreeAt(DiskOf(a, i), UPPER)) && TreeAt(DiskOf(b, i), UPPER) == TreeAt(DiskOf(a, i), UPPER)
    requires SnapshotOf(a, job) == SnapshotOf(b, job) || (job.owner == i && job.name == name)
    ensures SnapshotOf(WithLaunch(a, i, name), job) == SnapshotOf(WithLaunch(b, i, name), job)
  {
    SnapshotAfterLaunch(a, i, name, job);
    SnapshotAfterLaunch(b, i, name, job);
  }

  lemma LaunchesSeen(a: Machine, b: Machine, i: nat, name: string)
    requires SameUpToWrites(a, b) && i < |a.disks| && i < |a.store.sessions| && i < |b.store.sessions|
    requires a.store.sessions[i].pc.Idle? && b.store.sessions[i].pc.Idle?
    requires WellFormed(TreeAt(DiskOf(a, i), UPPER)) && TreeAt(DiskOf(b, i), UPPER) == TreeAt(DiskOf(a, i), UPPER)
    ensures Seen(WithLaunch(a, i, name)) == Seen(WithLaunch(b, i, name))
  {
    SameSessions(a, b, i);
    SeenAfterLaunch(a, i, name);
    SeenAfterLaunch(b, i, name);
  }

  lemma AgreeIntro(jobs: seq<Job>, job: Job, a': Machine, b': Machine)
    requires Seen(a') == Seen(b') && |a'.disks| == |b'.disks|
    requires a'.jobs == jobs + [job] && b'.jobs == jobs + [job]
    requires forall j | 0 <= j < |jobs| :: SnapshotOf(a', jobs[j]) == SnapshotOf(b', jobs[j])
    requires SnapshotOf(a', job) == SnapshotOf(b', job)
    ensures SameUpToWrites(a', b')
  {
    forall j | 0 <= j < |a'.jobs| ensures SnapshotOf(a', a'.jobs[j]) == SnapshotOf(b', a'.jobs[j]) {
      assert a'.jobs[j] == if j < |jobs| then jobs[j] else job;
    }
  }

  lemma LaunchShape(m: Machine, i: nat, name: string)
    requires i < |m.disks| && i < |m.store.sessions|
    ensures WithLaunch(m, i, name).jobs == m.jobs + [Job(i, name, m.store.sessions[i].stack)]
    ensures |WithLaunch(m, i, name).disks| == |m.disks|
  {
  }

  lemma UpperIsWellFormed(m: Machine, i: nat)
    requires Tidy(m) && i < |m.disks|
    ensures WellFormed(TreeAt(DiskOf(m, i), UPPER))
  {
    assert DiskOf(m, i) == m.disks[i];
  }

  lemma SnapshotsAgree(a: Machine, b: Machine, i: nat, name: string)
    requires SameUpToWrites(a, b) && i < |a.disks| && i < |a.store.sessions| && i < |b.store.sessions|
    requires WellFormed(TreeAt(DiskOf(a, i), UPPER)) && TreeAt(DiskOf(b, i), UPPER) == TreeAt(DiskOf(a, i), UPPER)
    ensures forall j | 0 <= j < |a.jobs| ::
      SnapshotOf(WithLaunch(a, i, name), a.jobs[j]) == SnapshotOf(WithLaunch(b, i, name), a.jobs[j])
  {
    forall j | 0 <= j < |a.jobs|
      ensures SnapshotOf(WithLaunch(a, i, name), a.jobs[j]) == SnapshotOf(WithLaunch(b, i, name), a.jobs[j])
    {
      LaunchesAgree(a, b, i, name, a.jobs[j]);
    }
  }

  lemma SameAtLaunch(a: Machine, b: Machine, i: nat)
    requires Sound(a) && SameUpToWrites(a, b) && i < |a.disks| && i < |a.store.sessions|
    requires a.store.sessions[i].pc.Idle?
    ensures i < |b.store.sessions| && b.store.sessions[i].pc.Idle?
    ensures b.store.sessions[i].stack == a.store.sessions[i].stack
    ensures WellFormed(TreeAt(DiskOf(a, i), UPPER)) && TreeAt(DiskOf(b, i), UPPER) == TreeAt(DiskOf(a, i), UPPER)
  {
    SameSessions(a, b, i);
    UpperIsWellFormed(a, i);
  }

  lemma LaunchKeepsSame(a: Machine, b: Machine, i: nat, name: string)
    requires Sound(a) && SameUpToWrites(a, b) && i < |a.disks| && i < |a.store.sessions| && i < |b.store.sessions|
    requires a.store.sessions[i].pc.Idle?
    ensures SameUpToWrites(WithLaunch(a, i, name), WithLaunch(b, i, name))
  {
    SameAtLaunch(a, b, i);
    var job := Job(i, name, a.store.sessions[i].stack);
    LaunchesSeen(a, b, i, name);
    SnapshotsAgree(a, b, i, name);
    LaunchesAgree(a, b, i, name, job);
    LaunchShape(a, i, name);
    LaunchShape(b, i, name);
    AgreeIntro(a.jobs, job, WithLaunch(a, i, name), WithLaunch(b, i, name));
  }

  lemma WriteKeepsSame(a: Machine, b: Machine, j: nat, op: FileOp, base: Tree, a': Machine)
    requires Sound(a) && WellFormed(base) && SameUpToWrites(a, b) && Possible(a, JobWrite(j, op), base)
    requires a' == Make(a, JobWrite(j, op), base)
    ensures SameUpToWrites(a', b)
  {
    var job := a.jobs[j];
    var upper := WrittenUpper(a, base, job, op);
    assert JobTrees(a, job);
    JobWriteSeen(a, base, job, op);
    WithUpperKeepsSame(a, b, job, upper);
  }

  lemma WithUpperKeepsSame(a: Machine, b: Machine, job: Job, upper: Tree)
    requires SameUpToWrites(a, b) && job.owner < |a.disks| && [] !in upper
    ensures SameUpToWrites(WithUpper(a, job, upper), b)
  {
    var a' := WithUpper(a, job, upper);
    SeenAfterWrite(a, job, upper);
    forall k | 0 <= k < |a.jobs| ensures SnapshotOf(a', a.jobs[k]) == SnapshotOf(a, a.jobs[k]) {
      SnapshotAfterWrite(a, job, upper, a.jobs[k]);
    }
  }

  lemma SnapshotAfterWrite(m: Machine, job: Job, upper: Tree, other: Job)
    requires job.owner < |m.disks| && [] !in upper
    ensures SnapshotOf(WithUpper(m, job, upper), other) == SnapshotOf(m, other)
  {
    DiskWith(m, job, upper, other.owner);
    PutJobUpper(DiskOf(m, job.owner), job.name, upper, other.name);
  }

  lemma WriteMove(a: Machine, b: Machine, move: Move, base: Tree)
    requires Sound(a) && WellFormed(base) && SameUpToWrites(a, b) && Possible(a, move, base) && move.JobWrite?
    ensures Sound(Make(a, move, base)) && SameUpToWrites(Make(a, move, base), b)
  {
    MakeKeepsSound(a, move, base);
    WriteKeepsSame(a, b, move.j, move.op, base, Make(a, move, base));
  }

  lemma SameMove(a: Machine, b: Machine, move: Move, base: Tree)
    requires Sound(a) && Sound(b) && WellFormed(base) && SameUpToWrites(a, b)
    requires Possible(a, move, base) && !move.JobWrite?
    ensures Possible(b, move, base) && Sound(Make(a, move, base)) && Sound(Make(b, move, base))
    ensures SameUpToWrites(Make(a, move, base), Make(b, move, base))
  {
    SamePossible(a, b, move, base);
    MakeKeepsSound(a, move, base);
    MakeKeepsSound(b, move, base);
    if move.Store? { StepsAgree(a, b, move.step); } else { LaunchKeepsSame(a, b, move.i, move.name); }
  }

  lemma WriteDropped(moves: seq<Move>)
    requires moves != [] && moves[0].JobWrite?
    ensures WithoutWrites(moves) == WithoutWrites(moves[1..])
  {
    assert [] + WithoutWrites(moves[1..]) == WithoutWrites(moves[1..]);
  }

  lemma MoveKept(b: Machine, moves: seq<Move>, base: Tree)
    requires moves != [] && !moves[0].JobWrite? && Possible(b, moves[0], base)
    requires IsHistory(Make(b, moves[0], base), WithoutWrites(moves[1..]), base)
    ensures IsHistory(b, WithoutWrites(moves), base)
    ensures Final(b, WithoutWrites(moves), base) == Final(Make(b, moves[0], base), WithoutWrites(moves[1..]), base)
  {
    var rest := WithoutWrites(moves[1..]);
    assert WithoutWrites(moves) == [moves[0]] + rest;
    assert ([moves[0]] + rest)[1..] == rest;
  }

  /** A job's writes never reach the session: leaving all of them out of a history leaves what
      the store reads from disk as it was, at every live session's upper, stack and commit id,
      and leaves the snapshot of every job. */
  lemma {:induction false} WritesStayPrivate(a: Machine, b: Machine, moves: seq<Move>, base: Tree)
    requires Sound(a) && Sound(b) && WellFormed(base) && IsHistory(a, moves, base) && SameUpToWrites(a, b)
    ensures IsHistory(b, WithoutWrites(moves), base)
    ensures SameUpToWrites(Final(a, moves, base), Final(b, WithoutWrites(moves), base))
    decreases |moves|
  {
    if moves != [] {
      var move := moves[0];
      if move.JobWrite? {
        WriteMove(a, b, move, base);
        WritesStayPrivate(Make(a, move, base), b, moves[1..], base);
        WriteDropped(moves);
      } else {
        SameMove(a, b, move, base);
        WritesStayPrivate(Make(a, move, base), Make(b, move, base), moves[1..], base);
        MoveKept(b, moves, base);
      }
    }
  }

  // ---- Destruction ----

  lemma MergeNothing(v: Tree)
    requires ViewLike(v)
    ensures Merge(v, map[]) == v
  {
  }

  lemma StrippedView(m: Machine, base: Tree, job: Job)
    requires LayersWellFormed(m.store.layers) && WellFormed(base)
    requires SnapshotOf(m, job) == map[] && UpperOf(m, job) == map[]
    ensures JobView(m, base, job) == View(LowerTrees(m.store.layers, base, job.lowers))
  {
    var lowers := LowerTrees(m.store.layers, base, job.lowers);
    StackWellFormed(m.store.layers, base, job.lowers);
    ViewIsViewLike(lowers);
    ViewSnoc(lowers, map[]);
    MergeNothing(View(lowers));
  }

  lemma GoneTakesJobs(m: Machine, job: Job)
    requires Inv(Seen(m)) && Enabled(Seen(m), Finish(job.owner)) && m.store.sessions[job.owner].pc.DestroyUnlocked?
    ensures var m' := Stepped(m, Finish(job.owner));
      job.owner < |m'.store.sessions| && m'.store.sessions[job.owner].pc.Gone? && m'.store.layers == m.store.layers
    ensures SnapshotOf(Stepped(m, Finish(job.owner)), job) == map[]
    ensures UpperOf(Stepped(m, Finish(job.owner)), job) == map[]
  {
    var t := Tail(Seen(m).sessions[job.owner]);
    assert Seen(m).sessions[job.owner] == SeenSession(m, job.owner);
    assert AcceptableUpper(Seen(m).sessions[job.owner].upper);
    JobAfterStep(DiskOf(m, job.owner), t, job.name);
    JobDirsFrom(Stepped(m, Finish(job.owner)), job, DiskAfter(DiskOf(m, job.owner), t));
  }

  /** Destroying a session takes the snapshots and uppers of its jobs with it: a job that still
      runs is left with the committed layers alone, and those with no more than other sessions'
      references to hold them. */
  lemma DestroyStripsJobs(m: Machine, i: nat, base: Tree, j: nat)
    requires Sound(m) && WellFormed(base) && j < |m.jobs| && m.jobs[j].owner == i
    requires i < |m.store.sessions| && m.store.sessions[i].pc.DestroyUnlocked? && Enabled(Seen(m), Finish(i))
    ensures var m', job := Make(m, Store(Finish(i)), base), m.jobs[j];
      m'.store.sessions[i].pc.Gone? && SnapshotOf(m', job) == map[] && UpperOf(m', job) == map[]
      && JobView(m', base, job) == View(LowerTrees(m.store.layers, base, job.lowers))
  {
    GoneTakesJobs(m, m.jobs[j]);
    StrippedView(Stepped(m, Finish(i)), base, m.jobs[j]);
  }
}
