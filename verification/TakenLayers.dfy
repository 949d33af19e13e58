/** A run in which a job loses a layer: its owner rolls back below the stack the job was launched
    on, and a collection follows. */
module TakenLayers {
  import opened Wrappers
  import opened FileTree
  import opened Overlay
  import opened Manifest
  import opened LayerIndex
  import opened LayerGc
  import opened StoreProtocol
  import opened StoreSafety
  import opened StoreSequential
  import opened SessionDisk
  import opened JobIsolation
  import opened JobHistories
  import opened JobMounts

  // ---- Steps of the store as moves ----

  function StoreMoves(steps: seq<Step>): seq<Move> {
    if steps == [] then [] else [Store(steps[0])] + StoreMoves(steps[1..])
  }

  lemma StepLifts(m: Machine, step: Step)
    requires Sound(m) && Enabled(Seen(m), step)
    ensures Sound(Stepped(m, step)) && Seen(Stepped(m, step)) == Apply(Seen(m), step)
  {
    StepKeepsInv(Seen(m), step);
    SeenAfterStep(m, step);
    StepKeepsTidy(m, step);
  }

  /** A run of the store on what the machine reads is a history that ends where the run ends. */
  lemma {:induction false} RunLifts(m: Machine, steps: seq<Step>, base: Tree)
    requires Sound(m) && IsRun(Seen(m), steps)
    ensures IsHistory(m, StoreMoves(steps), base)
    ensures ReadsAs(Final(m, StoreMoves(steps), base), After(Seen(m), steps), m.jobs)
    decreases |steps|
  {
    if steps != [] {
      StepLifts(m, steps[0]);
      var m1 := Stepped(m, steps[0]);
      RunLifts(m1, steps[1..], base);
      EndsCons(m, steps, m1, base);
    }
  }

  /** What the store reads, and the jobs, of a sound machine. */
  ghost predicate ReadsAs(m: Machine, s: State, jobs: seq<Job>) {
    Sound(m) && Seen(m) == s && m.jobs == jobs
  }

  lemma MovesCons(steps: seq<Step>)
    requires steps != []
    ensures StoreMoves(steps)[0] == Store(steps[0]) && StoreMoves(steps)[1..] == StoreMoves(steps[1..])
  {
  }

  lemma EndsCons(m: Machine, steps: seq<Step>, m1: Machine, base: Tree)
    requires steps != [] && Possible(m, Store(steps[0]), base) && m1 == Make(m, Store(steps[0]), base)
    requires IsHistory(m1, StoreMoves(steps[1..]), base)
    ensures IsHistory(m, StoreMoves(steps), base)
    ensures Final(m, StoreMoves(steps), base) == Final(m1, StoreMoves(steps[1..]), base)
  {
    MovesCons(steps);
  }

  // ---- Two commits, a rollback to the first, a collection ----

  function TwoLayers(t: Tree, u: Tree, id: CommitId, id2: CommitId): State {
    State(map[id := t][id2 := u], map[id := IndexEntry(1, 1, None)][id2 := IndexEntry(1, 0, Some(id))], None,
          [Session([id, id2], Seeds(), [id, id2], Idle)], Off)
  }

  function OneLayer(t: Tree, id: CommitId): State {
    State(map[id := t], map[id := IndexEntry(1, 0, None)], None, [Session([id], Seeds(), [id], Idle)], Off)
  }

  function Started(upper: Tree): State {
    State(map[], map[], None, [Session([], upper, [], Idle)], Off)
  }

  function WithUpperTree(s: State, upper: Tree): State
    requires s.sessions != []
  {
    SetSession(s, 0, s.sessions[0].(upper := upper))
  }

  lemma RunIn(s: State, upper: Tree)
    requires s.sessions != [] && s.sessions[0].pc.Idle? && AcceptableUpper(upper)
    ensures Leads(s, [Run(0, upper)], WithUpperTree(s, upper))
  {
    OneStep(s, Run(0, upper));
  }

  lemma CommitFirst(t: Tree)
    ensures Leads(Started(t), CommitSteps(0), OneLayer(t, CommitIdOf(t)))
  {
    var id := CommitIdOf(t);
    WholeCommit(Started(t), 0);
    assert CommitIndex(map[], id, None) == map[id := IndexEntry(1, 0, None)];
    assert [] + [id] == [id];
  }

  lemma SecondIndex(id: CommitId, id2: CommitId)
    requires id != id2
    ensures CommitIndex(map[id := IndexEntry(1, 0, None)], id2, Some(id))
            == map[id := IndexEntry(1, 1, None)][id2 := IndexEntry(1, 0, Some(id))]
  {
  }

  lemma CommitSecond(t: Tree, u: Tree, id: CommitId)
    requires id != CommitIdOf(u)
    ensures Leads(WithUpperTree(OneLayer(t, id), u), CommitSteps(0), TwoLayers(t, u, id, CommitIdOf(u)))
  {
    var id2 := CommitIdOf(u);
    WholeCommit(WithUpperTree(OneLayer(t, id), u), 0);
    SecondIndex(id, id2);
    SecondState(t, u, id, id2);
  }

  lemma SecondState(t: Tree, u: Tree, id: CommitId, id2: CommitId)
    requires id != id2
    ensures var s := WithUpperTree(OneLayer(t, id), u); var stack := [id] + [id2];
      With(s, 0, Session(stack, Seeds(), stack, Idle), None, s.layers[id2 := u], TwoLayers(t, u, id, id2).index)
      == TwoLayers(t, u, id, id2)
  {
    assert [id] + [id2] == [id, id2];
  }

  function TwoCommits(t: Tree, u: Tree): seq<Step> {
    [Create] + ([Run(0, t)] + (CommitSteps(0) + ([Run(0, u)] + CommitSteps(0))))
  }

  lemma TwoCommitsLead(t: Tree, u: Tree)
    requires AcceptableUpper(t) && AcceptableUpper(u) && CommitIdOf(t) != CommitIdOf(u)
    ensures Leads(Init(), TwoCommits(t, u), TwoLayers(t, u, CommitIdOf(t), CommitIdOf(u)))
  {
    var id := CommitIdOf(t);
    var last := TwoLayers(t, u, id, CommitIdOf(u));
    var one := OneLayer(t, id);
    OneStep(Init(), Create);
    assert Apply(Init(), Create) == Started(Seeds());
    RunIn(Started(Seeds()), t);
    assert WithUpperTree(Started(Seeds()), t) == Started(t);
    CommitFirst(t);
    RunIn(one, u);
    CommitSecond(t, u, id);
    Joined(one, [Run(0, u)], WithUpperTree(one, u), CommitSteps(0), last);
    Joined(Started(t), CommitSteps(0), one, [Run(0, u)] + CommitSteps(0), last);
    Joined(Started(Seeds()), [Run(0, t)], Started(t), CommitSteps(0) + ([Run(0, u)] + CommitSteps(0)), last);
    Joined(Init(), [Create], Started(Seeds()), [Run(0, t)] + (CommitSteps(0) + ([Run(0, u)] + CommitSteps(0))), last);
  }

  /** A layer without references and children is a candidate, and goes. */
  lemma CandidateGoes(index: Index, live: set<CommitId>, id: CommitId)
    requires id in Candidates(index, live)
    ensures id !in Peel(index, live)
  {
    var doomed := Candidates(index, live);
    DropShrinks(index, doomed);
    PeelKeepsUsed(Drop(index, doomed), live);
  }

  function CutBack(t: Tree, u: Tree, id: CommitId, id2: CommitId): State {
    State(map[id := t][id2 := u], map[id := IndexEntry(1, 1, None)][id2 := IndexEntry(0, 0, Some(id))], None,
          [Session([id], Seeds(), [id], Idle)], Off)
  }

  lemma RollbackLeads(t: Tree, u: Tree, id: CommitId, id2: CommitId)
    requires id != id2
    ensures Leads(TwoLayers(t, u, id, id2), RollbackSteps(0, id), CutBack(t, u, id, id2))
  {
    var s := TwoLayers(t, u, id, id2);
    var stack := [id, id2];
    WholeRollback(s, 0, id);
    assert FirstIndex(stack, id) == 0;
    assert stack[..1] == [id] && stack[1..] == [id2];
    assert [id2][1..] == [];
    assert LayerIndex.Release(s.index, [id2]) == ReleaseOne(s.index, id2);
    assert ReleaseOne(s.index, id2) == CutBack(t, u, id, id2).index;
  }

  lemma CollectionTakes(t: Tree, u: Tree, id: CommitId, id2: CommitId)
    requires id != id2
    ensures var s := CutBack(t, u, id, id2);
      Leads(s, GcSteps([0]), Collected(s)) && id2 !in Collected(s).layers && Collected(s).sessions == s.sessions
      && id in Collected(s).layers && Collected(s).layers[id] == t
  {
    var s := CutBack(t, u, id, id2);
    assert Lists([0], OnDisk(s)) by { assert OnDisk(s) == {0}; }
    WholeGc(s, [0]);
    assert Persisted(s) == {id} by { assert MetaIds(s, 0) == {id}; }
    CandidateGoes(s.index, {id}, id2);
    PeelKeepsUsed(s.index, {id});
    assert Used(s.index, {id}, id);
  }

  function RollbackAndCollect(id: CommitId): seq<Step> {
    RollbackSteps(0, id) + GcSteps([0])
  }

  lemma RollbackAndCollectLead(t: Tree, u: Tree, id: CommitId, id2: CommitId)
    requires id != id2
    ensures Leads(TwoLayers(t, u, id, id2), RollbackAndCollect(id), Collected(CutBack(t, u, id, id2)))
  {
    RollbackLeads(t, u, id, id2);
    CollectionTakes(t, u, id, id2);
    Joined(TwoLayers(t, u, id, id2), RollbackSteps(0, id), CutBack(t, u, id, id2), GcSteps([0]),
           Collected(CutBack(t, u, id, id2)));
  }

  // ---- The job in between ----

  lemma UpperRead(m: Machine, i: nat)
    requires i < |m.store.sessions| && !m.store.sessions[i].pc.Gone?
    ensures Seen(m).sessions[i] == m.store.sessions[i].(upper := TreeAt(DiskOf(m, i), UPPER))
  {
    assert Seen(m).sessions[i] == SeenSession(m, i);
  }

  lemma FirstSession(m: Machine, stack: seq<CommitId>)
    requires Sound(m) && |Seen(m).sessions| == 1 && Seen(m).sessions[0] == Session(stack, Seeds(), stack, Idle)
    ensures |m.store.sessions| == 1 && |m.disks| == 1
    ensures m.store.sessions[0].stack == stack && m.store.sessions[0].pc.Idle?
    ensures TreeAt(m.disks[0], UPPER) == Seeds()
  {
    assert Seen(m).sessions[0] == SeenSession(m, 0);
    UpperRead(m, 0);
  }

  /** A launch where the seeds are in place changes nothing that the store reads. */
  lemma LaunchQuietly(m: Machine, stack: seq<CommitId>, name: string, base: Tree)
    requires Sound(m) && m.jobs == [] && WellFormed(base) && ValidName(name)
    requires |Seen(m).sessions| == 1 && Seen(m).sessions[0] == Session(stack, Seeds(), stack, Idle)
    ensures Possible(m, Launch(0, name), base)
    ensures ReadsAs(Make(m, Launch(0, name), base), Seen(m), [Job(0, name, stack)])
    ensures Mounted(Make(m, Launch(0, name), base), Job(0, name, stack))
  {
    FirstSession(m, stack);
    LaunchIsPossible(m, name, base);
    MakeKeepsSound(m, Launch(0, name), base);
    LaunchMounts(m, 0, name, base);
    LaunchUnread(m, stack, name);
  }

  lemma LaunchIsPossible(m: Machine, name: string, base: Tree)
    requires |m.store.sessions| == 1 && |m.disks| == 1 && m.store.sessions[0].pc.Idle?
    requires m.jobs == [] && ValidName(name)
    requires TreeAt(m.disks[0], UPPER) == Seeds()
    ensures Possible(m, Launch(0, name), base)
  {
  }

  lemma LaunchUnread(m: Machine, stack: seq<CommitId>, name: string)
    requires Sound(m) && m.jobs == [] && |m.store.sessions| == 1 && |m.disks| == 1
    requires m.store.sessions[0].stack == stack && m.store.sessions[0].pc.Idle? && TreeAt(m.disks[0], UPPER) == Seeds()
    ensures Seen(WithLaunch(m, 0, name)) == Seen(m) && WithLaunch(m, 0, name).jobs == [Job(0, name, stack)]
  {
    assert DiskOf(m, 0) == m.disks[0];
    UpperIsWellFormed(m, 0);
    SeenAfterLaunch(m, 0, name);
    LaunchShape(m, 0, name);
    UpperRead(m, 0);
    SeedsStay();
    SetAsIs(Seen(m));
  }

  lemma SeedsStay()
    ensures Provisioned(Seeds()) == Seeds()
  {
  }

  lemma SetAsIs(s: State)
    requires s.sessions != []
    ensures SetSession(s, 0, s.sessions[0]) == s
  {
    assert s.sessions[0 := s.sessions[0]] == s.sessions;
  }

  /** A session that is about to launch a job on two commits. */
  lemma TwoCommitsMade(t: Tree, u: Tree, base: Tree) returns (before: seq<Move>)
    requires AcceptableUpper(t) && AcceptableUpper(u) && CommitIdOf(t) != CommitIdOf(u)
    ensures IsHistory(Machine(Init(), [], []), before, base)
    ensures ReadsAs(Final(Machine(Init(), [], []), before, base), TwoLayers(t, u, CommitIdOf(t), CommitIdOf(u)), [])
  {
    var start := Machine(Init(), [], []);
    StartIsSound();
    assert Seen(start) == Init();
    TwoCommitsLead(t, u);
    RunLifts(start, TwoCommits(t, u), base);
    before := StoreMoves(TwoCommits(t, u));
  }

  lemma OneLayerLess(m: Machine, m': Machine, t: Tree, u: Tree, base: Tree, job: Job)
    requires |job.lowers| == 2 && u != map[]
    requires job.lowers[1] in m.store.layers && m.store.layers[job.lowers[1]] == u
    requires job.lowers[1] !in m'.store.layers
    ensures JobLowers(m', base, job) != JobLowers(m, base, job)
  {
    assert JobLowers(m, base, job)[2] == u && JobLowers(m', base, job)[2] == map[];
  }

  lemma RollbackAndCollectRun(m: Machine, t: Tree, u: Tree, id: CommitId, id2: CommitId, base: Tree)
    returns (after: seq<Move>)
    requires id != id2 && Sound(m) && Seen(m) == TwoLayers(t, u, id, id2)
    ensures IsHistory(m, after, base)
    ensures ReadsAs(Final(m, after, base), Collected(CutBack(t, u, id, id2)), m.jobs)
  {
    RollbackAndCollectLead(t, u, id, id2);
    after := StoreMoves(RollbackAndCollect(id));
    RunLifts(m, RollbackAndCollect(id), base);
  }

  /** The owner of a job commits twice, launches it, rolls back to the first commit, and a
      collection runs: the second layer is gone from under the job, whose owner is still there. */
  lemma {:induction false} RollbackTakesLayer(t: Tree, u: Tree, name: string, base: Tree)
    returns (before: seq<Move>, m: Machine, after: seq<Move>)
    requires AcceptableUpper(t) && AcceptableUpper(u) && CommitIdOf(t) != CommitIdOf(u) && u != map[]
    requires ValidName(name) && WellFormed(base)
    ensures IsHistory(Machine(Init(), [], []), before, base)
    ensures Possible(Final(Machine(Init(), [], []), before, base), Launch(0, name), base)
    ensures m == Make(Final(Machine(Init(), [], []), before, base), Launch(0, name), base)
    ensures IsHistory(m, after, base)
    ensures var job, m' := Job(0, name, [CommitIdOf(t), CommitIdOf(u)]), Final(m, after, base);
      m.jobs == [job] && Mounted(m, job) && !NeverTaken(m, after, job, base)
      && 0 < |m'.store.sessions| && m'.store.sessions[0].pc.Idle?
      && JobLowers(m', base, job) != JobLowers(m, base, job)
  {
    var id, id2 := CommitIdOf(t), CommitIdOf(u);
    before := TwoCommitsMade(t, u, base);
    var start := Final(Machine(Init(), [], []), before, base);
    LaunchQuietly(start, [id, id2], name, base);
    m := Make(start, Launch(0, name), base);
    after := RollbackAndCollectRun(m, t, u, id, id2, base);
    LayerLost(m, after, t, u, Job(0, name, [id, id2]), base);
  }

  lemma LayerLost(m: Machine, after: seq<Move>, t: Tree, u: Tree, job: Job, base: Tree)
    requires |job.lowers| == 2 && job.lowers[0] != job.lowers[1] && u != map[] && WellFormed(base)
    requires ReadsAs(m, TwoLayers(t, u, job.lowers[0], job.lowers[1]), [job]) && Mounted(m, job)
    requires IsHistory(m, after, base)
    requires ReadsAs(Final(m, after, base), Collected(CutBack(t, u, job.lowers[0], job.lowers[1])), [job])
    ensures var m' := Final(m, after, base);
      !NeverTaken(m, after, job, base) && 0 < |m'.store.sessions| && m'.store.sessions[0].pc.Idle?
      && JobLowers(m', base, job) != JobLowers(m, base, job)
  {
    var m' := Final(m, after, base);
    CollectionTakes(t, u, job.lowers[0], job.lowers[1]);
    SameStored(m, TwoLayers(t, u, job.lowers[0], job.lowers[1]));
    SameStored(m', Collected(CutBack(t, u, job.lowers[0], job.lowers[1])));
    OneLayerLess(m, m', t, u, base, job);
    if NeverTaken(m, after, job, base) { UntakenLowersStay(m, after, base, 0); }
  }

  lemma SameStored(m: Machine, s: State)
    requires Seen(m) == s
    ensures m.store.layers == s.layers && |m.store.sessions| == |s.sessions|
    ensures forall i | 0 <= i < |s.sessions| :: m.store.sessions[i].pc == s.sessions[i].pc
  {
    forall i | 0 <= i < |s.sessions| ensures m.store.sessions[i].pc == s.sessions[i].pc {
      assert Seen(m).sessions[i] == SeenSession(m, i);
    }
  }
}
