/** Background jobs. A session's directory holds its upper and, for each job, a private upper
    and a snapshot; a job writes through an overlay mount over the committed stack and that
    snapshot. Steps of the store and writes of jobs interleave freely. */
module JobIsolation {
  import opened FileTree
  import opened Overlay
  import opened OverlayWrites
  import opened SessionDisk
  import opened Manifest
  import opened StoreProtocol
  import opened StoreSafety
  import opened StoreViews

  datatype Job = Job(owner: nat, name: string, lowers: seq<CommitId>)

  /** What is in an upper directory is read from the disk, whatever `store` says of it. */
  datatype Machine = Machine(store: State, disks: seq<Tree>, jobs: seq<Job>)

  datatype Move =
    | Store(step: Step)
    | Launch(i: nat, name: string)
    | JobWrite(j: nat, op: FileOp)

  /** A job's upper starts with a workspace directory only. */
  function JobSeed(): Tree {
    map[WORKSPACE := Dir(SEED_PERM, false)]
  }

  /** `provision` raises where something is in the workspace's place that is neither a directory
      nor a link that the host resolves to one. */
  predicate CanProvision(upper: Tree) {
    WORKSPACE in upper ==> upper[WORKSPACE].Dir? || (upper[WORKSPACE].Link? && upper[WORKSPACE].toDir)
  }

  /** It makes the workspace of the session's upper where it is missing. */
  function Provisioned(upper: Tree): Tree {
    if WORKSPACE in upper then upper else upper[WORKSPACE := Dir(SEED_PERM, false)]
  }

  // ---- The store as it reads the disk ----

  function DiskOf(m: Machine, i: nat): Tree {
    if i < |m.disks| then m.disks[i] else map[]
  }

  function SeenSession(m: Machine, i: nat): Session
    requires i < |m.store.sessions|
  {
    Reading(m.store.sessions[i], DiskOf(m, i))
  }

  /** A live session's upper is what is on its disk. */
  function Reading(t: Session, disk: Tree): Session {
    if t.pc.Gone? then t else t.(upper := TreeAt(disk, UPPER))
  }

  function Seen(m: Machine): State {
    m.store.(sessions := seq(|m.store.sessions|, i requires 0 <= i < |m.store.sessions| => SeenSession(m, i)))
  }

  /** A session's directory after a step: gone with the session, or with its upper written. */
  function DiskAfter(disk: Tree, t: Session): Tree {
    if t.pc.Gone? then map[] else PutTree(disk, UPPER, t.upper)
  }

  // ---- A job's mount ----

  /** The trees under a job's upper: base, committed layers and the snapshot. */
  ghost function JobLowers(m: Machine, base: Tree, job: Job): seq<Tree> {
    LowerTrees(m.store.layers, base, job.lowers) + [TreeAt(DiskOf(m, job.owner), JobSnapshot(job.name))]
  }

  function UpperOf(m: Machine, job: Job): Tree {
    TreeAt(DiskOf(m, job.owner), JobUpper(job.name))
  }

  ghost function JobView(m: Machine, base: Tree, job: Job): Tree {
    Merge(View(JobLowers(m, base, job)), UpperOf(m, job))
  }

  ghost predicate Possible(m: Machine, move: Move, base: Tree) {
    match move
    case Store(step) => Enabled(Seen(m), step)
    case Launch(i, name) =>
      i < |m.store.sessions| && i < |m.disks| && m.store.sessions[i].pc.Idle? && ValidName(name)
      && (forall j | 0 <= j < |m.jobs| :: m.jobs[j].owner == i ==> m.jobs[j].name != name)
      && CanProvision(TreeAt(m.disks[i], UPPER))
    case JobWrite(j, op) =>
      j < |m.jobs| && m.jobs[j].owner < |m.disks| && m.jobs[j].owner < |m.store.sessions|
      && !m.store.sessions[m.jobs[j].owner].pc.Gone? && Allowed(JobView(m, base, m.jobs[j]), op)
  }

  /** `_job_dirs` and `_snapshot_upper`: the new job's directories on the session's disk. */
  function Launched(disk: Tree, name: string): Tree {
    var upper := Provisioned(TreeAt(disk, UPPER));
    PutTree(PutTree(PutTree(disk, UPPER, upper), JobUpper(name), JobSeed()), JobSnapshot(name), upper)
  }

  ghost function Make(m: Machine, move: Move, base: Tree): Machine
    requires Possible(m, move, base)
  {
    match move
    case Store(step) =>
      Stepped(m, step)
    case Launch(i, name) =>
      WithLaunch(m, i, name)
    case JobWrite(j, op) =>
      WithUpper(m, m.jobs[j], Written(View(JobLowers(m, base, m.jobs[j])), UpperOf(m, m.jobs[j]), op))
  }

  function WithDisk(m: Machine, i: nat, disk: Tree): Machine
    requires i < |m.disks|
  {
    m.(disks := m.disks[i := disk])
  }

  lemma DiskSet(m: Machine, i: nat, disk: Tree, k: nat)
    requires i < |m.disks|
    ensures DiskOf(WithDisk(m, i, disk), k) == if k == i then disk else DiskOf(m, k)
  {
  }

  function WithLaunch(m: Machine, i: nat, name: string): Machine
    requires i < |m.disks| && i < |m.store.sessions|
  {
    WithDisk(m, i, Launched(m.disks[i], name)).(jobs := m.jobs + [Job(i, name, m.store.sessions[i].stack)])
  }

  function WithUpper(m: Machine, job: Job, upper: Tree): Machine
    requires job.owner < |m.disks|
  {
    WithDisk(m, job.owner, PutTree(m.disks[job.owner], JobUpper(job.name), upper))
  }

  // ---- At launch ----

  lemma JobSeedChangesNothing(v: Tree)
    requires ViewLike(v) && WORKSPACE in v && (v[WORKSPACE].Dir? || v[WORKSPACE].Link?)
    ensures Merge(v, JobSeed()) == v <==> v[WORKSPACE] == Dir(SEED_PERM, false)
  {
    var m := Merge(v, JobSeed());
    assert WORKSPACE in JobSeed() && m[WORKSPACE] == Dir(SEED_PERM, false);
    assert Shown(v[WORKSPACE]) == v[WORKSPACE];
    forall p | p in v && p != WORKSPACE ensures p in m && m[p] == v[p] {
      assert ShowsThrough(JobSeed(), p);
    }
  }

  lemma ProvisionedIsWellFormed(upper: Tree)
    requires WellFormed(upper)
    ensures WellFormed(Provisioned(upper)) && (PlainTargets(upper) ==> PlainTargets(Provisioned(upper)))
  {
    assert ValidName("workspace");
  }

  /** A launch fills the job's own directories, provisions the session's upper, and leaves
      every other job's directories. */
  lemma LaunchedTrees(disk: Tree, name: string, other: string)
    requires WellFormed(TreeAt(disk, UPPER))
    ensures var upper, disk' := Provisioned(TreeAt(disk, UPPER)), Launched(disk, name);
      TreeAt(disk', UPPER) == upper
      && TreeAt(disk', JobSnapshot(other)) == (if other == name then upper else TreeAt(disk, JobSnapshot(other)))
      && TreeAt(disk', JobUpper(other)) == if other == name then JobSeed() else TreeAt(disk, JobUpper(other))
  {
    var upper := Provisioned(TreeAt(disk, UPPER));
    ProvisionedIsWellFormed(TreeAt(disk, UPPER));
    var d1 := PutTree(disk, UPPER, upper);
    PutUpper(disk, upper, other);
    PutJobUpper(d1, name, JobSeed(), other);
    PutJobSnapshot(PutTree(d1, JobUpper(name), JobSeed()), name, upper, other);
  }

  /** The views on both sides of a launch, over the same lowers. */
  lemma LaunchViews(lowers: seq<Tree>, upper: Tree)
    requires (forall k | 0 <= k < |lowers| :: WellFormed(lowers[k])) && WellFormed(upper)
    requires WORKSPACE in upper && (upper[WORKSPACE].Dir? || upper[WORKSPACE].Link?)
    ensures var v := View(lowers + [upper]);
      WORKSPACE in v && (Merge(v, JobSeed()) == v <==> v[WORKSPACE] == Dir(SEED_PERM, false))
  {
    ViewIsViewLike(lowers + [upper]);
    ViewSnoc(lowers, upper);
    JobSeedChangesNothing(View(lowers + [upper]));
  }

  ghost predicate LayersWellFormed(layers: map<CommitId, Tree>) {
    forall id | id in layers :: WellFormed(layers[id])
  }

  lemma StackWellFormed(layers: map<CommitId, Tree>, base: Tree, stack: seq<CommitId>)
    requires WellFormed(base) && LayersWellFormed(layers)
    ensures forall k | 0 <= k < |LowerTrees(layers, base, stack)| :: WellFormed(LowerTrees(layers, base, stack)[k])
  {
  }

  lemma LaunchDisk(m: Machine, i: nat, name: string, k: nat)
    requires i < |m.disks| && i < |m.store.sessions|
    ensures DiskOf(WithLaunch(m, i, name), k) == if k == i then Launched(DiskOf(m, k), name) else DiskOf(m, k)
  {
    DiskSet(m, i, Launched(m.disks[i], name), k);
  }

  lemma LaunchUpper(m: Machine, i: nat, name: string, base: Tree)
    requires i < |m.disks| && i < |m.store.sessions| && WellFormed(TreeAt(DiskOf(m, i), UPPER))
    requires !m.store.sessions[i].pc.Gone?
    ensures var upper := Provisioned(TreeAt(DiskOf(m, i), UPPER));
      SessionView(Seen(WithLaunch(m, i, name)), base, i)
      == View(LowerTrees(m.store.layers, base, m.store.sessions[i].stack) + [upper])
  {
    LaunchDisk(m, i, name, i);
    LaunchedTrees(DiskOf(m, i), name, name);
    ViewFrom(WithLaunch(m, i, name), base, i, DiskOf(WithLaunch(m, i, name), i));
  }

  lemma ViewFrom(m: Machine, base: Tree, i: nat, disk: Tree)
    requires i < |m.store.sessions| && DiskOf(m, i) == disk && !m.store.sessions[i].pc.Gone?
    ensures SessionView(Seen(m), base, i)
            == View(LowerTrees(m.store.layers, base, m.store.sessions[i].stack) + [TreeAt(disk, UPPER)])
  {
  }

  lemma JobViewFrom(m: Machine, base: Tree, job: Job, disk: Tree)
    requires DiskOf(m, job.owner) == disk
    ensures JobView(m, base, job)
            == Merge(View(LowerTrees(m.store.layers, base, job.lowers) + [TreeAt(disk, JobSnapshot(job.name))]),
                     TreeAt(disk, JobUpper(job.name)))
  {
  }

  lemma LaunchJob(m: Machine, i: nat, name: string, base: Tree)
    requires i < |m.disks| && i < |m.store.sessions| && WellFormed(TreeAt(DiskOf(m, i), UPPER))
    ensures var upper := Provisioned(TreeAt(DiskOf(m, i), UPPER));
      JobView(WithLaunch(m, i, name), base, Job(i, name, m.store.sessions[i].stack))
      == Merge(View(LowerTrees(m.store.layers, base, m.store.sessions[i].stack) + [upper]), JobSeed())
  {
    var m' := WithLaunch(m, i, name);
    LaunchDisk(m, i, name, i);
    LaunchedTrees(DiskOf(m, i), name, name);
    JobViewFrom(m', base, Job(i, name, m.store.sessions[i].stack), DiskOf(m', i));
  }

  /** At launch a job sees what the session sees, if and only if the workspace is a directory
      that still has the permissions it was made with; the seed hides anything else. */
  lemma {:induction false} LaunchView(m: Machine, i: nat, name: string, base: Tree)
    requires Possible(m, Launch(i, name), base) && WellFormed(base)
    requires LayersWellFormed(m.store.layers) && WellFormed(TreeAt(m.disks[i], UPPER))
    ensures var m' := Make(m, Launch(i, name), base);
            var v := SessionView(Seen(m'), base, i);
            WORKSPACE in v && (JobView(m', base, m'.jobs[|m.jobs|]) == v <==> v[WORKSPACE] == Dir(SEED_PERM, false))
  {
    var upper := Provisioned(TreeAt(m.disks[i], UPPER));
    LaunchUpper(m, i, name, base);
    LaunchJob(m, i, name, base);
    ProvisionedIsWellFormed(TreeAt(m.disks[i], UPPER));
    StackWellFormed(m.store.layers, base, m.store.sessions[i].stack);
    assert WORKSPACE in upper && (upper[WORKSPACE].Dir? || upper[WORKSPACE].Link?);
    LaunchViews(LowerTrees(m.store.layers, base, m.store.sessions[i].stack), upper);
  }

  /** And provisioning for a launch adds at most a missing workspace to what the session has. */
  lemma LaunchLeavesUpper(m: Machine, i: nat, name: string, base: Tree)
    requires Possible(m, Launch(i, name), base) && WellFormed(TreeAt(m.disks[i], UPPER))
    ensures var was := TreeAt(m.disks[i], UPPER);
      TreeAt(DiskOf(Make(m, Launch(i, name), base), i), UPPER)
      == if WORKSPACE in was then was else was[WORKSPACE := Dir(0x1ED, false)]
  {
    assert DiskOf(m, i) == m.disks[i];
    LaunchDisk(m, i, name, i);
    LaunchedTrees(DiskOf(m, i), name, name);
  }

  // ---- One write ----

  ghost predicate JobTrees(m: Machine, job: Job) {
    job.owner < |m.disks| && WellFormed(UpperOf(m, job))
    && WellFormed(TreeAt(DiskOf(m, job.owner), JobSnapshot(job.name)))
  }

  ghost predicate NamesDiffer(jobs: seq<Job>) {
    forall j, k | 0 <= j < k < |jobs| :: jobs[j].owner == jobs[k].owner ==> jobs[j].name != jobs[k].name
  }

  /** Trees are well formed, and no two jobs of one session share a name. */
  ghost predicate Tidy(m: Machine) {
    LayersWellFormed(m.store.layers) && |m.disks| == |m.store.sessions| && NamesDiffer(m.jobs)
    && (forall i | 0 <= i < |m.disks| :: WellFormed(TreeAt(m.disks[i], UPPER)))
    && forall j | 0 <= j < |m.jobs| :: JobTrees(m, m.jobs[j])
  }

  lemma BelowIsViewLike(m: Machine, base: Tree, job: Job)
    requires LayersWellFormed(m.store.layers) && WellFormed(base) && JobTrees(m, job)
    ensures ViewLike(View(JobLowers(m, base, job)))
  {
    StackWellFormed(m.store.layers, base, job.lowers);
    ViewIsViewLike(JobLowers(m, base, job));
  }

  ghost function WrittenUpper(m: Machine, base: Tree, job: Job, op: FileOp): Tree {
    Written(View(JobLowers(m, base, job)), UpperOf(m, job), op)
  }

  /** What the mount promises for this job. */
  lemma JobWriteSeen(m: Machine, base: Tree, job: Job, op: FileOp)
    requires LayersWellFormed(m.store.layers) && WellFormed(base) && JobTrees(m, job)
    requires Allowed(JobView(m, base, job), op)
    ensures WellFormed(WrittenUpper(m, base, job, op)) && [] !in WrittenUpper(m, base, job, op)
    ensures Merge(View(JobLowers(m, base, job)), WrittenUpper(m, base, job, op)) == Effect(JobView(m, base, job), op)
  {
    BelowIsViewLike(m, base, job);
    WriteSeen(View(JobLowers(m, base, job)), UpperOf(m, job), op);
  }

  lemma DiskWith(m: Machine, job: Job, upper: Tree, i: nat)
    requires job.owner < |m.disks|
    ensures DiskOf(WithUpper(m, job, upper), i) ==
            if i == job.owner then PutTree(DiskOf(m, i), JobUpper(job.name), upper) else DiskOf(m, i)
  {
    DiskSet(m, job.owner, PutTree(m.disks[job.owner], JobUpper(job.name), upper), i);
  }

  lemma OwnUpper(m: Machine, job: Job, upper: Tree)
    requires job.owner < |m.disks| && [] !in upper
    ensures UpperOf(WithUpper(m, job, upper), job) == upper
  {
    DiskWith(m, job, upper, job.owner);
    PutJobUpper(DiskOf(m, job.owner), job.name, upper, job.name);
  }

  lemma OtherUpper(m: Machine, job: Job, upper: Tree, other: Job)
    requires job.owner < |m.disks| && [] !in upper && (other.owner == job.owner ==> other.name != job.name)
    ensures UpperOf(WithUpper(m, job, upper), other) == UpperOf(m, other)
  {
    DiskWith(m, job, upper, other.owner);
    PutJobUpper(DiskOf(m, job.owner), job.name, upper, other.name);
  }

  /** No job's lowers move, not even those of the job that writes. */
  lemma LowersAfterWrite(m: Machine, job: Job, upper: Tree, base: Tree, other: Job)
    requires job.owner < |m.disks| && [] !in upper
    ensures JobLowers(WithUpper(m, job, upper), base, other) == JobLowers(m, base, other)
  {
    DiskWith(m, job, upper, other.owner);
    PutJobUpper(DiskOf(m, job.owner), job.name, upper, other.name);
  }

  lemma UpperAfterWrite(m: Machine, job: Job, upper: Tree, i: nat)
    requires job.owner < |m.disks| && [] !in upper
    ensures TreeAt(DiskOf(WithUpper(m, job, upper), i), UPPER) == TreeAt(DiskOf(m, i), UPPER)
  {
    DiskWith(m, job, upper, i);
    PutJobUpper(DiskOf(m, job.owner), job.name, upper, job.name);
  }

  /** The store reads the same: uppers, and with them commit ids and views. */
  lemma SeenAfterWrite(m: Machine, job: Job, upper: Tree)
    requires job.owner < |m.disks| && [] !in upper
    ensures Seen(WithUpper(m, job, upper)) == Seen(m)
  {
    var m' := WithUpper(m, job, upper);
    forall i | 0 <= i < |m.store.sessions| ensures SeenSession(m', i) == SeenSession(m, i) {
      UpperAfterWrite(m, job, upper, i);
    }
  }

  lemma OtherViewAfterWrite(m: Machine, base: Tree, j: nat, k: nat, upper: Tree)
    requires NamesDiffer(m.jobs) && j < |m.jobs| && k < |m.jobs| && j != k
    requires m.jobs[j].owner < |m.disks| && [] !in upper
    ensures JobView(WithUpper(m, m.jobs[j], upper), base, m.jobs[k]) == JobView(m, base, m.jobs[k])
  {
    LowersAfterWrite(m, m.jobs[j], upper, base, m.jobs[k]);
    OtherUpper(m, m.jobs[j], upper, m.jobs[k]);
  }

  lemma OwnViewAfterWrite(m: Machine, base: Tree, job: Job, op: FileOp)
    requires LayersWellFormed(m.store.layers) && WellFormed(base) && JobTrees(m, job)
    requires Allowed(JobView(m, base, job), op)
    ensures JobView(WithUpper(m, job, WrittenUpper(m, base, job, op)), base, job) == Effect(JobView(m, base, job), op)
  {
    JobWriteSeen(m, base, job, op);
    LowersAfterWrite(m, job, WrittenUpper(m, base, job, op), base, job);
    OwnUpper(m, job, WrittenUpper(m, base, job, op));
  }

  /** A job's write shows in its own view exactly as it asked, and nowhere else: no session's
      upper, next commit id or view moves, and no other job's view. */
  lemma {:induction false} JobWriteIsPrivate(m: Machine, j: nat, op: FileOp, base: Tree)
    requires Tidy(m) && WellFormed(base) && Possible(m, JobWrite(j, op), base)
    ensures var m' := Make(m, JobWrite(j, op), base);
      JobView(m', base, m.jobs[j]) == Effect(JobView(m, base, m.jobs[j]), op)
      && (forall k | 0 <= k < |m.jobs| && k != j :: JobView(m', base, m.jobs[k]) == JobView(m, base, m.jobs[k]))
      && Seen(m') == Seen(m)
  {
    var job := m.jobs[j];
    var upper := WrittenUpper(m, base, job, op);
    assert JobTrees(m, job);
    JobWriteSeen(m, base, job, op);
    OwnViewAfterWrite(m, base, job, op);
    SeenAfterWrite(m, job, upper);
    forall k | 0 <= k < |m.jobs| && k != j
      ensures JobView(WithUpper(m, job, upper), base, m.jobs[k]) == JobView(m, base, m.jobs[k])
    {
      OtherViewAfterWrite(m, base, j, k, upper);
    }
  }

  /** What the store reads is all that a session's next commit id and view depend on. */
  lemma SeenIsEnough(m: Machine, m': Machine, base: Tree, i: nat)
    requires Seen(m') == Seen(m) && i < |m.store.sessions| && !m.store.sessions[i].pc.Gone?
    ensures CommitIdOf(TreeAt(DiskOf(m', i), UPPER)) == CommitIdOf(TreeAt(DiskOf(m, i), UPPER))
    ensures SessionView(Seen(m'), base, i) == SessionView(Seen(m), base, i)
  {
    assert SeenSession(m', i) == Seen(m').sessions[i] == SeenSession(m, i) == Seen(m).sessions[i];
  }

  // ---- Store steps and launches, on the disks ----

  ghost function Stepped(m: Machine, step: Step): Machine
    requires Enabled(Seen(m), step)
  {
    var s' := Apply(Seen(m), step);
    Machine(s', seq(|s'.sessions|, i requires 0 <= i < |s'.sessions| => DiskAfter(DiskOf(m, i), s'.sessions[i])),
            m.jobs)
  }

  lemma ReadsWhatIsWritten(disk: Tree, t: Session)
    requires WellFormed(t.upper)
    ensures Reading(t, DiskAfter(disk, t)) == t
  {
    if !t.pc.Gone? { PutGet(disk, UPPER, t.upper); }
  }

  /** What a step of the store wrote is what the store reads next. */
  lemma SeenAfterStep(m: Machine, step: Step)
    requires Enabled(Seen(m), step) && SessionsOk(Apply(Seen(m), step))
    ensures Seen(Stepped(m, step)) == Apply(Seen(m), step)
  {
    var m', s' := Stepped(m, step), Apply(Seen(m), step);
    forall i | 0 <= i < |s'.sessions| ensures SeenSession(m', i) == s'.sessions[i] {
      assert AcceptableUpper(s'.sessions[i].upper);
      ReadsWhatIsWritten(DiskOf(m, i), s'.sessions[i]);
    }
    assert Seen(m').sessions == s'.sessions;
  }

  /** A step of the store leaves a job's directories alone, or takes them with the session. */
  lemma JobAfterStep(disk: Tree, t: Session, name: string)
    requires WellFormed(t.upper)
    ensures TreeAt(DiskAfter(disk, t), JobSnapshot(name))
            == if t.pc.Gone? then map[] else TreeAt(disk, JobSnapshot(name))
    ensures TreeAt(DiskAfter(disk, t), JobUpper(name)) == if t.pc.Gone? then map[] else TreeAt(disk, JobUpper(name))
  {
    if !t.pc.Gone? { PutUpper(disk, t.upper, name); }
  }

  lemma SeenWith(m: Machine, i: nat, disk: Tree, jobs: seq<Job>)
    requires i < |m.disks| && i < |m.store.sessions|
    ensures Seen(WithDisk(m, i, disk).(jobs := jobs))
            == SetSession(Seen(m), i, Reading(m.store.sessions[i], disk))
  {
    var m' := WithDisk(m, i, disk).(jobs := jobs);
    forall k | 0 <= k < |m.store.sessions| && k != i ensures SeenSession(m', k) == SeenSession(m, k) {
      DiskSet(m, i, disk, k);
    }
    assert Seen(m').sessions == SetSession(Seen(m), i, Reading(m.store.sessions[i], disk)).sessions;
  }

  lemma SeenAfterLaunch(m: Machine, i: nat, name: string)
    requires i < |m.disks| && i < |m.store.sessions| && WellFormed(TreeAt(DiskOf(m, i), UPPER))
    requires !m.store.sessions[i].pc.Gone?
    ensures Seen(WithLaunch(m, i, name)) ==
            SetSession(Seen(m), i, m.store.sessions[i].(upper := Provisioned(TreeAt(DiskOf(m, i), UPPER))))
  {
    LaunchedTrees(DiskOf(m, i), name, name);
    SeenWith(m, i, Launched(m.disks[i], name), m.jobs + [Job(i, name, m.store.sessions[i].stack)]);
  }

  // ---- The invariant ----

  /** The store's own invariant on what it reads, and tidy directories. */
  ghost predicate Sound(m: Machine) {
    Inv(Seen(m)) && Tidy(m)
  }

  lemma StoredWellFormed(s: State)
    requires Addressed(s)
    ensures LayersWellFormed(s.layers)
  {
  }

  lemma JobTreesFrom(m: Machine, job: Job, disk: Tree)
    requires job.owner < |m.disks| && DiskOf(m, job.owner) == disk
    requires WellFormed(TreeAt(disk, JobUpper(job.name))) && WellFormed(TreeAt(disk, JobSnapshot(job.name)))
    ensures JobTrees(m, job)
  {
  }

  lemma StepKeepsJob(m: Machine, step: Step, job: Job, s': State)
    requires Enabled(Seen(m), step) && s' == Apply(Seen(m), step) && SessionsOk(s')
    requires JobTrees(m, job) && |m.disks| <= |s'.sessions|
    ensures JobTrees(Stepped(m, step), job)
  {
    assert AcceptableUpper(s'.sessions[job.owner].upper);
    JobStaysWellFormed(DiskOf(m, job.owner), s'.sessions[job.owner], job.name);
    JobTreesFrom(Stepped(m, step), job, DiskAfter(DiskOf(m, job.owner), s'.sessions[job.owner]));
  }

  lemma JobStaysWellFormed(disk: Tree, t: Session, name: string)
    requires WellFormed(t.upper)
    requires WellFormed(TreeAt(disk, JobUpper(name))) && WellFormed(TreeAt(disk, JobSnapshot(name)))
    ensures WellFormed(TreeAt(DiskAfter(disk, t), JobUpper(name)))
    ensures WellFormed(TreeAt(DiskAfter(disk, t), JobSnapshot(name)))
  {
    JobAfterStep(disk, t, name);
  }

  /** Sessions are never dropped from the state, and stay gone. */
  lemma SessionsStay(s: State, step: Step)
    requires Enabled(s, step)
    ensures |Apply(s, step).sessions| >= |s.sessions|
  {
    if step.EditIndex? {
      if s.sessions[step.i].pc.CommitLocked? { CommitEditShape(s, step.i); } else { ReleaseCharge(s, step.i); }
    }
  }

  lemma EmptyDiskIsTidy()
    ensures forall dir :: TreeAt(map[], dir) == map[]
  {
    forall dir ensures TreeAt(map[], dir) == map[] {
      assert Rels(map[], dir) == {};
    }
  }

  lemma StepKeepsTidy(m: Machine, step: Step)
    requires Sound(m) && Enabled(Seen(m), step)
    ensures Sound(Stepped(m, step))
  {
    var m', s' := Stepped(m, step), Apply(Seen(m), step);
    StepKeepsInv(Seen(m), step);
    SessionsStay(Seen(m), step);
    SeenAfterStep(m, step);
    StoredWellFormed(s');
    EmptyDiskIsTidy();
    forall i | 0 <= i < |m'.disks| ensures WellFormed(TreeAt(m'.disks[i], UPPER)) {
      assert AcceptableUpper(s'.sessions[i].upper);
      if !s'.sessions[i].pc.Gone? { PutGet(DiskOf(m, i), UPPER, s'.sessions[i].upper); }
    }
    forall j | 0 <= j < |m'.jobs| ensures JobTrees(m', m'.jobs[j]) {
      StepKeepsJob(m, step, m.jobs[j], s');
    }
  }

  lemma LaunchKeepsJob(m: Machine, i: nat, name: string, job: Job)
    requires i < |m.disks| && i < |m.store.sessions| && WellFormed(TreeAt(DiskOf(m, i), UPPER))
    requires JobTrees(m, job)
    ensures JobTrees(WithLaunch(m, i, name), job)
  {
    var disk := DiskOf(m, job.owner);
    LaunchDisk(m, i, name, job.owner);
    if job.owner == i {
      LaunchedTrees(disk, name, job.name);
      SeedsAreWellFormed(TreeAt(disk, UPPER));
      JobTreesFrom(WithLaunch(m, i, name), job, Launched(disk, name));
    } else {
      JobTreesFrom(WithLaunch(m, i, name), job, disk);
    }
  }

  lemma SeedsAreWellFormed(upper: Tree)
    requires WellFormed(upper)
    ensures WellFormed(JobSeed()) && WellFormed(Provisioned(upper))
  {
    ProvisionedIsWellFormed(upper);
    assert ValidName("workspace");
  }

  lemma LaunchMakesJob(m: Machine, i: nat, name: string)
    requires i < |m.disks| && i < |m.store.sessions| && WellFormed(TreeAt(DiskOf(m, i), UPPER))
    ensures JobTrees(WithLaunch(m, i, name), Job(i, name, m.store.sessions[i].stack))
  {
    LaunchDisk(m, i, name, i);
    LaunchedTrees(DiskOf(m, i), name, name);
    SeedsAreWellFormed(TreeAt(DiskOf(m, i), UPPER));
    JobTreesFrom(WithLaunch(m, i, name), Job(i, name, m.store.sessions[i].stack), Launched(DiskOf(m, i), name));
  }

  lemma LaunchKeepsUppers(m: Machine, i: nat, name: string, k: nat)
    requires i < |m.disks| && i < |m.store.sessions| && k < |m.disks|
    requires WellFormed(TreeAt(DiskOf(m, i), UPPER)) && WellFormed(TreeAt(DiskOf(m, k), UPPER))
    ensures WellFormed(TreeAt(DiskOf(WithLaunch(m, i, name), k), UPPER))
  {
    LaunchDisk(m, i, name, k);
    LaunchedTrees(DiskOf(m, i), name, name);
    ProvisionedIsWellFormed(TreeAt(DiskOf(m, i), UPPER));
  }

  lemma LaunchKeepsInv(m: Machine, i: nat, name: string)
    requires Inv(Seen(m)) && i < |m.disks| && i < |m.store.sessions| && m.store.sessions[i].pc.Idle?
    ensures Inv(Seen(WithLaunch(m, i, name)))
  {
    var upper := TreeAt(DiskOf(m, i), UPPER);
    assert Seen(m).sessions[i] == SeenSession(m, i);
    assert AcceptableUpper(Seen(m).sessions[i].upper);
    SeenAfterLaunch(m, i, name);
    ProvisionedIsWellFormed(upper);
    UpperStep(Seen(m), i, Provisioned(upper));
    assert Seen(m).sessions[i].(upper := Provisioned(upper)) == m.store.sessions[i].(upper := Provisioned(upper));
  }

  lemma OneMoreName(jobs: seq<Job>, job: Job)
    requires NamesDiffer(jobs) && forall j | 0 <= j < |jobs| :: jobs[j].owner == job.owner ==> jobs[j].name != job.name
    ensures NamesDiffer(jobs + [job])
  {
  }

  lemma TidyIntro(m: Machine, m': Machine, i: nat, disk: Tree, job: Job)
    requires Sound(m) && i < |m.disks| && m' == WithDisk(m, i, disk).(jobs := m.jobs + [job])
    requires Inv(Seen(m')) && JobTrees(m', job)
    requires forall j | 0 <= j < |m.jobs| :: m.jobs[j].owner == job.owner ==> m.jobs[j].name != job.name
    requires forall k | 0 <= k < |m.disks| :: WellFormed(TreeAt(DiskOf(m', k), UPPER))
    requires forall j | 0 <= j < |m.jobs| :: JobTrees(m', m.jobs[j])
    ensures Sound(m')
  {
    OneMoreName(m.jobs, job);
    forall k | 0 <= k < |m'.disks| ensures WellFormed(TreeAt(m'.disks[k], UPPER)) {
      assert DiskOf(m', k) == m'.disks[k];
    }
  }

  lemma LaunchTidies(m: Machine, i: nat, name: string, m': Machine)
    requires Sound(m) && i < |m.disks| && m.store.sessions[i].pc.Idle? && m' == WithLaunch(m, i, name)
    ensures Inv(Seen(m')) && JobTrees(m', Job(i, name, m.store.sessions[i].stack))
    ensures forall k | 0 <= k < |m.disks| :: WellFormed(TreeAt(DiskOf(m', k), UPPER))
    ensures forall j | 0 <= j < |m.jobs| :: JobTrees(m', m.jobs[j])
  {
    assert WellFormed(TreeAt(m.disks[i], UPPER));
    LaunchKeepsInv(m, i, name);
    LaunchMakesJob(m, i, name);
    forall k | 0 <= k < |m.disks| ensures WellFormed(TreeAt(DiskOf(m', k), UPPER)) {
      assert WellFormed(TreeAt(m.disks[k], UPPER));
      LaunchKeepsUppers(m, i, name, k);
    }
    forall j | 0 <= j < |m.jobs| ensures JobTrees(m', m.jobs[j]) {
      LaunchKeepsJob(m, i, name, m.jobs[j]);
    }
  }

  lemma LaunchIs(m: Machine, i: nat, name: string) returns (disk: Tree)
    requires i < |m.disks| && i < |m.store.sessions|
    ensures WithLaunch(m, i, name) == WithDisk(m, i, disk).(jobs := m.jobs + [Job(i, name, m.store.sessions[i].stack)])
  {
    disk := Launched(m.disks[i], name);
  }

  lemma LaunchKeepsTidy(m: Machine, i: nat, name: string, base: Tree, m': Machine)
    requires Sound(m) && Possible(m, Launch(i, name), base) && m' == WithLaunch(m, i, name)
    ensures Sound(m')
  {
    var job := Job(i, name, m.store.sessions[i].stack);
    LaunchTidies(m, i, name, m');
    var disk := LaunchIs(m, i, name);
    TidyIntro(m, m', i, disk, job);
  }

  lemma WriteKeepsTidy(m: Machine, j: nat, op: FileOp, base: Tree)
    requires Sound(m) && WellFormed(base) && Possible(m, JobWrite(j, op), base)
    ensures Sound(Make(m, JobWrite(j, op), base))
  {
    var job := m.jobs[j];
    var upper := WrittenUpper(m, base, job, op);
    var m' := WithUpper(m, job, upper);
    assert JobTrees(m, job);
    JobWriteSeen(m, base, job, op);
    SeenAfterWrite(m, job, upper);
    forall i | 0 <= i < |m'.disks| ensures WellFormed(TreeAt(m'.disks[i], UPPER)) {
      assert WellFormed(TreeAt(m.disks[i], UPPER));
      UpperAfterWrite(m, job, upper, i);
    }
    forall k | 0 <= k < |m'.jobs| ensures JobTrees(m', m'.jobs[k]) {
      WriteKeepsJob(m, job, upper, m.jobs[k], k == j);
    }
  }

  lemma WriteKeepsJob(m: Machine, job: Job, upper: Tree, other: Job, same: bool)
    requires job.owner < |m.disks| && WellFormed(upper) && JobTrees(m, other)
    requires if same then other == job else other.owner == job.owner ==> other.name != job.name
    ensures JobTrees(WithUpper(m, job, upper), other)
  {
    DiskWith(m, job, upper, other.owner);
    PutJobUpper(DiskOf(m, job.owner), job.name, upper, other.name);
    JobTreesFrom(WithUpper(m, job, upper), other, DiskOf(WithUpper(m, job, upper), other.owner));
  }

  /** Every step of the store, every launch and every write of a job keeps the store's
      invariant on what is on disk, and every directory well formed. */
  lemma {:induction false} MakeKeepsSound(m: Machine, move: Move, base: Tree)
    requires Sound(m) && WellFormed(base) && Possible(m, move, base)
    ensures Sound(Make(m, move, base))
  {
    match move
    case Store(step) => StepKeepsTidy(m, step);
    case Launch(i, name) => LaunchKeepsTidy(m, i, name, base, WithLaunch(m, i, name));
    case JobWrite(j, op) => WriteKeepsTidy(m, j, op, base);
  }
}
