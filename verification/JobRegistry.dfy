/**
 * The background job registry: reaper, waits, outputs, kills, starts and prunes, interleaved field
 * by field, because records are written outside the registry's lock.
 */
module JobRegistry {
  import opened Wrappers

  type Thread = nat
  type JobId = nat

  const SIGTERM: int := 15

  datatype Status = Running | Done | Failed | Canceled

  datatype Record = Record(status: Status, exitCode: Option<int>, finishedAt: Option<nat>)

  const NEW_RECORD := Record(Running, None, None)

  /** The status a reaped exit code stands for. */
  function Verdict(rc: int): Status {
    if rc == 0 then Done else Failed
  }

  /** Where a thread is; the stages of a poll and of a kill are single field writes. */
  datatype Pc =
    | Idle
    | Starting(id: JobId)
    | Checked(id: JobId)
    | Coded(id: JobId, rc: int)
    | Stamped(id: JobId, rc: int)
    | Found(id: JobId)
    | Killing(id: JobId)
    | MarkedCanceled(id: JobId)
    | CodedCanceled(id: JobId)

  /** `exits` holds the processes that have ended; records outlive their place in the registry. */
  datatype State = State(records: map<JobId, Record>, registry: set<JobId>, counter: nat,
                         exits: map<JobId, int>, threads: map<Thread, Pc>, now: nat)

  datatype Step =
    | Allocate(t: Thread)
    | Register(t: Thread)
    | CheckRunning(t: Thread, id: JobId)
    | PollProcess(t: Thread)
    | StampFinish(t: Thread)
    | WriteVerdict(t: Thread)
    | FindForKill(t: Thread, id: JobId)
    | CheckKill(t: Thread)
    | WriteCanceled(t: Thread)
    | WriteKillCode(t: Thread)
    | StampKill(t: Thread)
    | Prune
    | ProcessExits(id: JobId, rc: int)
    | Tick

  function PcOf(s: State, t: Thread): Pc {
    if t in s.threads then s.threads[t] else Idle
  }

  predicate Enabled(s: State, step: Step) {
    match step
    case Prune => true
    case Tick => true
    case ProcessExits(id, _) => 0 < id <= s.counter && id !in s.exits
    case Allocate(t) => PcOf(s, t).Idle?
    case Register(t) => PcOf(s, t).Starting?
    case CheckRunning(t, _) => PcOf(s, t).Idle?
    case PollProcess(t) => PcOf(s, t).Checked?
    case StampFinish(t) => PcOf(s, t).Coded?
    case WriteVerdict(t) => PcOf(s, t).Stamped?
    case FindForKill(t, _) => PcOf(s, t).Idle?
    case CheckKill(t) => PcOf(s, t).Found?
    case WriteCanceled(t) => PcOf(s, t).Killing?
    case WriteKillCode(t) => PcOf(s, t).MarkedCanceled?
    case StampKill(t) => PcOf(s, t).CodedCanceled?
  }

  function Move(s: State, t: Thread, pc: Pc): State {
    s.(threads := s.threads[t := pc])
  }

  function RecordOf(s: State, id: JobId): Record {
    if id in s.records then s.records[id] else NEW_RECORD
  }

  function Put(s: State, id: JobId, r: Record): State {
    s.(records := s.records[id := r])
  }

  function Apply(s: State, step: Step): State
    requires Enabled(s, step)
  {
    match step
    case Prune => s.(registry := set id | id in s.registry && RecordOf(s, id).status == Running)
    case Tick => s.(now := s.now + 1)
    case ProcessExits(id, rc) => s.(exits := s.exits[id := rc])
    case Allocate(t) => Move(s.(counter := s.counter + 1), t, Starting(s.counter + 1))
    case Register(t) =>
      var id := PcOf(s, t).id;
      Move(Put(s, id, NEW_RECORD).(registry := s.registry + {id}), t, Idle)
    case CheckRunning(t, id) =>
      if id in s.registry && RecordOf(s, id).status == Running then Move(s, t, Checked(id)) else s
    case PollProcess(t) =>
      var id := PcOf(s, t).id;
      if id !in s.exits then Move(s, t, Idle)
      else Move(Put(s, id, RecordOf(s, id).(exitCode := Some(s.exits[id]))), t, Coded(id, s.exits[id]))
    case StampFinish(t) =>
      var pc := PcOf(s, t);
      Move(Put(s, pc.id, RecordOf(s, pc.id).(finishedAt := Some(s.now))), t, Stamped(pc.id, pc.rc))
    case WriteVerdict(t) =>
      var pc := PcOf(s, t);
      Move(Put(s, pc.id, RecordOf(s, pc.id).(status := Verdict(pc.rc))), t, Idle)
    case FindForKill(t, id) => if id in s.registry then Move(s, t, Found(id)) else s
    case CheckKill(t) =>
      var id := PcOf(s, t).id;
      if RecordOf(s, id).status == Running then Move(s, t, Killing(id)) else Move(s, t, Idle)
    case WriteCanceled(t) =>
      var id := PcOf(s, t).id;
      Move(Put(s, id, RecordOf(s, id).(status := Canceled)), t, MarkedCanceled(id))
    case WriteKillCode(t) =>
      var id := PcOf(s, t).id;
      Move(Put(s, id, RecordOf(s, id).(exitCode := Some(-SIGTERM))), t, CodedCanceled(id))
    case StampKill(t) =>
      var id := PcOf(s, t).id;
      Move(Put(s, id, RecordOf(s, id).(finishedAt := Some(s.now))), t, Idle)
  }

  predicate Init(s: State) {
    s.records == map[] && s.registry == {} && s.counter == 0 && s.exits == map[] && s.threads == map[]
  }

  /** Ids come from the counter, each is given once, and only to a record that does not exist yet. */
  predicate IdsOk(s: State) {
    && s.registry <= s.records.Keys
    && (forall id :: id in s.records ==> 0 < id <= s.counter)
    && (forall t :: t in s.threads && s.threads[t].Starting? ==>
          0 < s.threads[t].id <= s.counter && s.threads[t].id !in s.records)
    && (forall t, u :: t in s.threads && u in s.threads && t != u && s.threads[t].Starting? && s.threads[u].Starting?
          ==> s.threads[t].id != s.threads[u].id)
  }

  /** What a thread in the middle of a poll or a kill has already written. */
  predicate PcOk(s: State, pc: Pc) {
    && (!pc.Idle? && !pc.Starting? ==> pc.id in s.records)
    && (pc.Coded? || pc.Stamped? ==> pc.id in s.exits && s.exits[pc.id] == pc.rc && s.records[pc.id].exitCode.Some?)
    && (pc.Stamped? ==> s.records[pc.id].finishedAt.Some?)
  }

  /** DONE and FAILED come with an exit code and a time, and tell how the process really ended. */
  predicate RecordOk(s: State, id: JobId)
    requires id in s.records
  {
    var r := s.records[id];
    r.status == Done || r.status == Failed ==>
      r.exitCode.Some? && r.finishedAt.Some? && id in s.exits && r.status == Verdict(s.exits[id])
  }

  predicate Inv(s: State) {
    && IdsOk(s)
    && (forall t :: t in s.threads ==> PcOk(s, s.threads[t]))
    && (forall id :: id in s.records ==> RecordOk(s, id))
  }

  predicate Registers(step: Step) {
    step.Register? || step.Allocate?
  }

  lemma StartKeepsIds(s: State, step: Step)
    requires Inv(s) && Enabled(s, step) && Registers(step)
    ensures IdsOk(Apply(s, step))
  {
  }

  lemma StartKeepsRest(s: State, step: Step)
    requires Inv(s) && Enabled(s, step) && Registers(step)
    ensures var n := Apply(s, step);
      (forall t :: t in n.threads ==> PcOk(n, n.threads[t])) && forall id :: id in n.records ==> RecordOk(n, id)
  {
  }

  lemma OtherShape(s: State, step: Step)
    requires Inv(s) && Enabled(s, step) && !Registers(step)
    ensures var n := Apply(s, step);
      n.records.Keys == s.records.Keys && n.registry <= s.registry && n.counter == s.counter
    ensures forall t :: t in Apply(s, step).threads && Apply(s, step).threads[t].Starting? ==>
      t in s.threads && s.threads[t] == Apply(s, step).threads[t]
  {
  }

  lemma OtherKeepsIds(s: State, step: Step)
    requires Inv(s) && Enabled(s, step) && !Registers(step)
    ensures IdsOk(Apply(s, step))
  {
    OtherShape(s, step);
  }

  lemma OtherKeepsPcs(s: State, step: Step)
    requires Inv(s) && Enabled(s, step) && !Registers(step)
    ensures var n := Apply(s, step); forall t :: t in n.threads ==> PcOk(n, n.threads[t])
  {
  }

  lemma OtherKeepsRecords(s: State, step: Step)
    requires Inv(s) && Enabled(s, step) && !Registers(step)
    ensures var n := Apply(s, step); forall id :: id in n.records ==> RecordOk(n, id)
  {
  }

  lemma {:induction false} StepKeepsInv(s: State, step: Step)
    requires Inv(s) && Enabled(s, step)
    ensures Inv(Apply(s, step))
  {
    if Registers(step) {
      StartKeepsIds(s, step);
      StartKeepsRest(s, step);
    } else {
      OtherKeepsIds(s, step);
      OtherKeepsPcs(s, step);
      OtherKeepsRecords(s, step);
    }
  }

  predicate IsRun(s: State, steps: seq<Step>)
    decreases |steps|
  {
    steps == [] || (Enabled(s, steps[0]) && IsRun(Apply(s, steps[0]), steps[1..]))
  }

  function After(s: State, steps: seq<Step>): State
    requires IsRun(s, steps)
    decreases |steps|
  {
    if steps == [] then s else After(Apply(s, steps[0]), steps[1..])
  }

  lemma {:induction false} RunKeepsInv(s: State, steps: seq<Step>)
    requires Inv(s) && IsRun(s, steps)
    ensures Inv(After(s, steps))
    decreases |steps|
  {
    if steps != [] {
      StepKeepsInv(s, steps[0]);
      RunKeepsInv(Apply(s, steps[0]), steps[1..]);
    }
  }

  /** Ids are fresh and increasing: a new one is above every id of a record or of another start. */
  lemma IdsAreFresh(s: State, steps: seq<Step>, t: Thread)
    requires Init(s) && IsRun(s, steps) && Enabled(After(s, steps), Allocate(t))
    ensures var end := After(s, steps);
      var id := PcOf(Apply(end, Allocate(t)), t).id;
      (forall other :: other in end.records ==> other < id)
      && forall u :: u in end.threads && end.threads[u].Starting? ==> end.threads[u].id < id
  {
    RunKeepsInv(s, steps);
  }

  lemma StepNeverRestarts(s: State, step: Step, id: JobId)
    requires Inv(s) && Enabled(s, step) && id in s.records && s.records[id].status != Running
    ensures id in Apply(s, step).records && Apply(s, step).records[id].status != Running
  {
  }

  /** A job that has left RUNNING never shows RUNNING again. */
  lemma {:induction false} NeverRunningAgain(s: State, steps: seq<Step>, id: JobId)
    requires Inv(s) && IsRun(s, steps) && id in s.records && s.records[id].status != Running
    ensures id in After(s, steps).records && After(s, steps).records[id].status != Running
    decreases |steps|
  {
    if steps != [] {
      StepNeverRestarts(s, steps[0], id);
      StepKeepsInv(s, steps[0]);
      NeverRunningAgain(Apply(s, steps[0]), steps[1..], id);
    }
  }

  lemma StepPrunesFinished(s: State, step: Step, id: JobId)
    requires Inv(s) && Enabled(s, step) && id in s.registry && id !in Apply(s, step).registry
    ensures step == Prune && s.records[id].status != Running
  {
  }

  /** A job leaves the registry only after it has finished, and stays finished. */
  lemma {:induction false} OnlyFinishedArePruned(s: State, steps: seq<Step>, id: JobId)
    requires Inv(s) && IsRun(s, steps) && id in s.registry && id !in After(s, steps).registry
    ensures id in After(s, steps).records && After(s, steps).records[id].status != Running
    decreases |steps|
  {
    if steps != [] {
      var next := Apply(s, steps[0]);
      StepKeepsInv(s, steps[0]);
      if id in next.registry {
        OnlyFinishedArePruned(next, steps[1..], id);
      } else {
        StepPrunesFinished(s, steps[0], id);
        StepNeverRestarts(s, steps[0], id);
        NeverRunningAgain(next, steps[1..], id);
      }
    }
  }

  /** After a prune exactly the jobs that run are registered: every finished one is gone from the registry,
      and no running one. */
  lemma PruneLeavesRunning(s: State, id: JobId)
    requires Inv(s)
    ensures var n := Apply(s, Prune);
      (id in n.registry <==> id in s.registry && n.records[id].status == Running)
      && n.records == s.records && n.threads == s.threads && n.exits == s.exits && n.counter == s.counter
  {
    assert s.registry <= s.records.Keys;
  }

  /** Whoever sees DONE or FAILED sees an exit code and a finish time, and the process's true fate. */
  lemma FinishedIsComplete(s: State, steps: seq<Step>, id: JobId)
    requires Init(s) && IsRun(s, steps) && id in After(s, steps).records
    ensures var r := After(s, steps).records[id];
      r.status == Done || r.status == Failed ==>
        r.exitCode.Some? && r.finishedAt.Some? && id in After(s, steps).exits
        && (r.status == Done <==> After(s, steps).exits[id] == 0)
  {
    RunKeepsInv(s, steps);
    assert RecordOk(After(s, steps), id);
  }

  lemma Longer(s: State, step: Step, steps: seq<Step>) returns (longer: seq<Step>)
    requires Enabled(s, step) && IsRun(Apply(s, step), steps)
    ensures IsRun(s, longer) && After(s, longer) == After(Apply(s, step), steps)
  {
    longer := [step] + steps;
    assert longer[1..] == steps;
  }

  /** A job that runs on, while one poll has already seen its process end well. */
  function Straddled(): State {
    State(map[1 := Record(Running, Some(0), Some(0))], {1}, 1, map[1 := 0], map[0 := Stamped(1, 0)], 0)
  }

  lemma CancelInTheMiddle() returns (steps: seq<Step>)
    ensures IsRun(Straddled(), steps)
    ensures After(Straddled(), steps) == State(map[1 := Record(Canceled, Some(0), Some(0))], {1}, 1, map[1 := 0],
                                               map[0 := Stamped(1, 0), 1 := MarkedCanceled(1)], 0)
  {
    var s := Straddled();
    var s1 := Apply(s, FindForKill(1, 1));
    var s2 := Apply(s1, CheckKill(1));
    var s3 := Apply(s2, WriteCanceled(1));
    assert IsRun(s3, []) && After(s3, []) == s3;
    var r2 := Longer(s2, WriteCanceled(1), []);
    var r1 := Longer(s1, CheckKill(1), r2);
    steps := Longer(s, FindForKill(1, 1), r1);
  }

  lemma PollHalfWay(more: seq<Step>) returns (s: State, steps: seq<Step>)
    requires IsRun(Straddled(), more)
    ensures Init(s) && IsRun(s, steps) && After(s, steps) == After(Straddled(), more)
  {
    s := State(map[], {}, 0, map[], map[], 0);
    var s1 := Apply(s, Allocate(0));
    var s2 := Apply(s1, Register(0));
    var s3 := Apply(s2, ProcessExits(1, 0));
    var s4 := Apply(s3, CheckRunning(0, 1));
    var s5 := Apply(s4, PollProcess(0));
    assert Apply(s5, StampFinish(0)) == Straddled();
    var r5 := Longer(s5, StampFinish(0), more);
    var r4 := Longer(s4, PollProcess(0), r5);
    var r3 := Longer(s3, CheckRunning(0, 1), r4);
    var r2 := Longer(s2, ProcessExits(1, 0), r3);
    var r1 := Longer(s1, Register(0), r2);
    steps := Longer(s, Allocate(0), r1);
  }

  /** A poll that is past its check wins over a cancellation: one such run, from the start. */
  lemma LatePollOverwritesCancel() returns (s: State, steps: seq<Step>)
    ensures Init(s) && IsRun(s, steps) && 1 in After(s, steps).records
    ensures After(s, steps).records[1].status == Canceled
    ensures LateWriter(After(s, steps), 1) && Enabled(After(s, steps), WriteVerdict(0))
    ensures Apply(After(s, steps), WriteVerdict(0)).records[1].status == Done
  {
    var more := CancelInTheMiddle();
    s, steps := PollHalfWay(more);
    assert After(s, steps).threads[0] == Stamped(1, 0);
  }

  // ---- When a terminal status is final ----

  predicate Terminal(s: State, id: JobId) {
    id in s.records && s.records[id].status != Running
  }

  /** This thread is past its check: a poll of a canceled job, or a kill of an ended one. */
  predicate Late(status: Status, pc: Pc, id: JobId) {
    || (status == Canceled && (pc.Checked? || pc.Coded? || pc.Stamped?) && pc.id == id)
    || ((status == Done || status == Failed) && pc.Killing? && pc.id == id)
  }

  predicate LateWriter(s: State, id: JobId)
    requires id in s.records
  {
    exists t :: t in s.threads && Late(s.records[id].status, s.threads[t], id)
  }

  lemma StatusKept(s: State, step: Step, id: JobId)
    requires Inv(s) && Enabled(s, step) && Terminal(s, id) && !LateWriter(s, id)
    ensures id in Apply(s, step).records && Apply(s, step).records[id].status == s.records[id].status
  {
    assert RecordOk(s, id);
    if step.WriteVerdict? && PcOf(s, step.t).id == id {
      assert PcOk(s, s.threads[step.t]) && !Late(s.records[id].status, s.threads[step.t], id);
    } else if step.WriteCanceled? && PcOf(s, step.t).id == id {
      assert !Late(s.records[id].status, s.threads[step.t], id);
    }
  }

  /** No thread gets past a check of a record that has left RUNNING. */
  lemma NoneBecomesLate(s: State, step: Step, id: JobId, t: Thread)
    requires Inv(s) && Enabled(s, step) && Terminal(s, id) && !LateWriter(s, id)
    requires t in Apply(s, step).threads
    ensures !Late(s.records[id].status, Apply(s, step).threads[t], id)
  {
    if t in s.threads {
      assert !Late(s.records[id].status, s.threads[t], id);
    }
  }

  lemma {:induction false} StatusIsFinal(s: State, steps: seq<Step>, id: JobId)
    requires Inv(s) && IsRun(s, steps) && Terminal(s, id) && !LateWriter(s, id)
    ensures id in After(s, steps).records && After(s, steps).records[id].status == s.records[id].status
    decreases |steps|
  {
    if steps != [] {
      var next := Apply(s, steps[0]);
      StatusKept(s, steps[0], id);
      forall t | t in next.threads ensures !Late(next.records[id].status, next.threads[t], id) {
        NoneBecomesLate(s, steps[0], id, t);
      }
      StepKeepsInv(s, steps[0]);
      StatusIsFinal(next, steps[1..], id);
    }
  }

  /** The steps of one thread, one after the other, overwrite the status. */
  predicate Overwrites(s: State, steps: seq<Step>, id: JobId)
    requires id in s.records
  {
    IsRun(s, steps) && id in After(s, steps).records && After(s, steps).records[id].status != s.records[id].status
  }

  lemma OneMore(s: State, step: Step, steps: seq<Step>, id: JobId) returns (longer: seq<Step>)
    requires Enabled(s, step) && id in s.records && id in Apply(s, step).records
    requires Apply(s, step).records[id].status == s.records[id].status
    requires Overwrites(Apply(s, step), steps, id)
    ensures Overwrites(s, longer, id)
  {
    longer := Longer(s, step, steps);
  }

  lemma LateStamped(s: State, t: Thread, id: JobId) returns (steps: seq<Step>)
    requires id in s.records && s.records[id].status == Canceled
    requires t in s.threads && s.threads[t].Stamped? && s.threads[t].id == id
    ensures Overwrites(s, steps, id)
  {
    OneStep(s, WriteVerdict(t));
    steps := [WriteVerdict(t)];
  }

  lemma LateCoded(s: State, t: Thread, id: JobId) returns (steps: seq<Step>)
    requires id in s.records && s.records[id].status == Canceled
    requires t in s.threads && s.threads[t].Coded? && s.threads[t].id == id
    ensures Overwrites(s, steps, id)
  {
    var rest := LateStamped(Apply(s, StampFinish(t)), t, id);
    steps := OneMore(s, StampFinish(t), rest, id);
  }

  lemma LateExited(s: State, t: Thread, id: JobId) returns (steps: seq<Step>)
    requires id in s.records && s.records[id].status == Canceled && id in s.exits
    requires t in s.threads && s.threads[t].Checked? && s.threads[t].id == id
    ensures Overwrites(s, steps, id)
  {
    var rest := LateCoded(Apply(s, PollProcess(t)), t, id);
    steps := OneMore(s, PollProcess(t), rest, id);
  }

  lemma LateChecked(s: State, t: Thread, id: JobId) returns (steps: seq<Step>)
    requires Inv(s) && id in s.records && s.records[id].status == Canceled
    requires t in s.threads && s.threads[t].Checked? && s.threads[t].id == id
    ensures Overwrites(s, steps, id)
  {
    if id in s.exits {
      steps := LateExited(s, t, id);
    } else {
      var exit := ProcessExits(id, 0);
      var rest := LateExited(Apply(s, exit), t, id);
      steps := OneMore(s, exit, rest, id);
    }
  }

  lemma LateKill(s: State, t: Thread, id: JobId) returns (steps: seq<Step>)
    requires id in s.records && (s.records[id].status == Done || s.records[id].status == Failed)
    requires t in s.threads && s.threads[t].Killing? && s.threads[t].id == id
    ensures Overwrites(s, steps, id)
  {
    OneStep(s, WriteCanceled(t));
    steps := [WriteCanceled(t)];
  }

  lemma LateOverwrites(s: State, t: Thread, id: JobId) returns (steps: seq<Step>)
    requires Inv(s) && Terminal(s, id) && t in s.threads && Late(s.records[id].status, s.threads[t], id)
    ensures Overwrites(s, steps, id)
  {
    match s.threads[t]
    case Stamped(_, _) => steps := LateStamped(s, t, id);
    case Coded(_, _) => steps := LateCoded(s, t, id);
    case Checked(_) => steps := LateChecked(s, t, id);
    case Killing(_) => steps := LateKill(s, t, id);
  }

  /** However the run goes on, the status is still what it is. */
  ghost predicate Final(s: State, id: JobId)
    requires id in s.records
  {
    forall steps | IsRun(s, steps) :: StillThere(s, steps, id)
  }

  predicate StillThere(s: State, steps: seq<Step>, id: JobId)
    requires id in s.records && IsRun(s, steps)
  {
    id in After(s, steps).records && After(s, steps).records[id].status == s.records[id].status
  }

  /** In every reachable state, under every interleaving: a terminal status never changes again if
      and only if no poll is past its check of a canceled job and no kill of one that has ended. */
  lemma {:induction false} FinalIff(start: State, past: seq<Step>, id: JobId)
    requires Init(start) && IsRun(start, past) && Terminal(After(start, past), id)
    ensures Final(After(start, past), id) <==> !LateWriter(After(start, past), id)
  {
    var s := After(start, past);
    RunKeepsInv(start, past);
    if LateWriter(s, id) {
      var t :| t in s.threads && Late(s.records[id].status, s.threads[t], id);
      var steps := LateOverwrites(s, t, id);
      assert !StillThere(s, steps, id);
    } else {
      forall steps | IsRun(s, steps) ensures StillThere(s, steps, id) {
        StatusIsFinal(s, steps, id);
      }
    }
  }

  // ---- Polls and kills that nothing interleaves with ----

  function PolledRecord(r: Record, rc: Option<int>, now: nat): Record {
    if r.status != Running || rc.None? then r else Record(Verdict(rc.value), rc, Some(now))
  }

  function KilledRecord(r: Record, now: nat): Record {
    if r.status != Running then r else Record(Canceled, Some(-SIGTERM), Some(now))
  }

  class JobRecord {
    var status: Status
    var exitCode: Option<int>
    var finishedAt: Option<nat>

    constructor ()
      ensures Value() == NEW_RECORD
    {
      status, exitCode, finishedAt := Running, None, None;
    }

    function Value(): Record
      reads this
    {
      Record(status, exitCode, finishedAt)
    }

    /** `rc` is what the process reports, nothing while it runs. */
    method PollNow(rc: Option<int>, now: nat)
      modifies this
      ensures Value() == old(PolledRecord(Value(), rc, now))
    {
      if status != Running || rc == None {
        return;
      }
      exitCode := rc;
      finishedAt := Some(now);
      status := if rc.value == 0 then Done else Failed;
    }

    method Kill(now: nat) returns (killed: bool)
      modifies this
      ensures Value() == old(KilledRecord(Value(), now)) && killed == (old(status) == Running)
    {
      if status != Running {
        return false;
      }
      status := Canceled;
      exitCode := Some(-SIGTERM);
      finishedAt := Some(now);
      killed := true;
    }
  }

  datatype WholeStep = Start | Poll(id: JobId) | Kill(id: JobId) | PruneAll | Exit(id: JobId, rc: int) | Wait

  predicate MayWhole(s: State, step: WholeStep) {
    step.Exit? ==> 0 < step.id <= s.counter && step.id !in s.exits
  }

  /** Whole operations, none of them started before another has ended. */
  function Whole(s: State, step: WholeStep): State {
    match step
    case Start => Put(s, s.counter + 1, NEW_RECORD).(counter := s.counter + 1, registry := s.registry + {s.counter + 1})
    case Poll(id) =>
      if id !in s.registry then s
      else Put(s, id, PolledRecord(RecordOf(s, id), if id in s.exits then Some(s.exits[id]) else None, s.now))
    case Kill(id) => if id !in s.registry then s else Put(s, id, KilledRecord(RecordOf(s, id), s.now))
    case PruneAll => s.(registry := set id | id in s.registry && RecordOf(s, id).status == Running)
    case Exit(id, rc) => s.(exits := s.exits[id := rc])
    case Wait => s.(now := s.now + 1)
  }

  /** The steps of one whole operation by an idle thread, all in a row. */
  function StepsOf(s: State, t: Thread, step: WholeStep): seq<Step> {
    match step
    case Start => [Allocate(t), Register(t)]
    case Poll(id) =>
      if id !in s.registry || RecordOf(s, id).status != Running then []
      else if id !in s.exits then [CheckRunning(t, id), PollProcess(t)]
      else [CheckRunning(t, id), PollProcess(t), StampFinish(t), WriteVerdict(t)]
    case Kill(id) =>
      if id !in s.registry then []
      else if RecordOf(s, id).status != Running then [FindForKill(t, id), CheckKill(t)]
      else [FindForKill(t, id), CheckKill(t), WriteCanceled(t), WriteKillCode(t), StampKill(t)]
    case PruneAll => [Prune]
    case Exit(id, rc) => [ProcessExits(id, rc)]
    case Wait => [Tick]
  }

  predicate RunOf(s: State, steps: seq<WholeStep>)
    decreases |steps|
  {
    steps == [] || (MayWhole(s, steps[0]) && RunOf(Whole(s, steps[0]), steps[1..]))
  }

  function AfterWhole(s: State, steps: seq<WholeStep>): State
    requires RunOf(s, steps)
    decreases |steps|
  {
    if steps == [] then s else AfterWhole(Whole(s, steps[0]), steps[1..])
  }

  /** Status, exit code and time agree, and a canceled job carries the signal. */
  predicate Settled(r: Record) {
    match r.status
    case Running => r == NEW_RECORD
    case Done => r.exitCode == Some(0) && r.finishedAt.Some?
    case Failed => r.exitCode.Some? && r.exitCode != Some(0) && r.finishedAt.Some?
    case Canceled => r.exitCode == Some(-15) && r.finishedAt.Some?
  }

  predicate AllSettled(s: State) {
    s.registry <= s.records.Keys
    && forall id :: id in s.records ==> id <= s.counter && Settled(s.records[id])
  }

  lemma WholeSettles(s: State, step: WholeStep)
    requires AllSettled(s) && MayWhole(s, step)
    ensures AllSettled(Whole(s, step))
  {
  }

  /** Without interleaving every terminal status agrees with the exit code, in every run. */
  lemma {:induction false} WholeRunsSettle(s: State, steps: seq<WholeStep>)
    requires AllSettled(s) && RunOf(s, steps)
    ensures AllSettled(AfterWhole(s, steps))
    decreases |steps|
  {
    if steps != [] {
      WholeSettles(s, steps[0]);
      WholeRunsSettle(Whole(s, steps[0]), steps[1..]);
    }
  }

  /** And it is absorbing: the record is never written again. */
  lemma {:induction false} TerminalIsAbsorbing(s: State, steps: seq<WholeStep>, id: JobId)
    requires AllSettled(s) && RunOf(s, steps) && id in s.records && s.records[id].status != Running
    ensures id in AfterWhole(s, steps).records && AfterWhole(s, steps).records[id] == s.records[id]
    decreases |steps|
  {
    if steps != [] {
      WholeSettles(s, steps[0]);
      TerminalIsAbsorbing(Whole(s, steps[0]), steps[1..], id);
    }
  }

  lemma OneStep(s: State, a: Step)
    requires Enabled(s, a)
    ensures IsRun(s, [a]) && After(s, [a]) == Apply(s, a)
  {
    assert [a][1..] == [];
    assert IsRun(Apply(s, a), []);
  }

  lemma RunConcat(s: State, a: seq<Step>, b: seq<Step>)
    requires IsRun(s, a) && IsRun(After(s, a), b)
    ensures IsRun(s, a + b) && After(s, a + b) == After(After(s, a), b)
    decreases |a|
  {
    if a == [] {
      assert a + b == b;
    } else {
      RunConcat(Apply(s, a[0]), a[1..], b);
      assert (a + b)[1..] == a[1..] + b;
    }
  }

  lemma TwoSteps(s: State, a: Step, b: Step)
    requires Enabled(s, a) && Enabled(Apply(s, a), b)
    ensures IsRun(s, [a, b]) && After(s, [a, b]) == Apply(Apply(s, a), b)
  {
    OneStep(s, a);
    OneStep(Apply(s, a), b);
    RunConcat(s, [a], [b]);
    assert [a] + [b] == [a, b];
  }

  lemma PollIsItsSteps(s: State, t: Thread, id: JobId)
    requires s.registry <= s.records.Keys && t in s.threads && s.threads[t].Idle?
    ensures IsRun(s, StepsOf(s, t, Poll(id))) && After(s, StepsOf(s, t, Poll(id))) == Whole(s, Poll(id))
  {
    if id in s.registry && s.records[id].status == Running {
      TwoSteps(s, CheckRunning(t, id), PollProcess(t));
      var s2 := Apply(Apply(s, CheckRunning(t, id)), PollProcess(t));
      if id !in s.exits {
        assert s2.threads == s.threads;
        assert s2.records == s.records && Whole(s, Poll(id)).records == s.records;
      } else {
        TwoSteps(s2, StampFinish(t), WriteVerdict(t));
        RunConcat(s, [CheckRunning(t, id), PollProcess(t)], [StampFinish(t), WriteVerdict(t)]);
        assert [CheckRunning(t, id), PollProcess(t)] + [StampFinish(t), WriteVerdict(t)] == StepsOf(s, t, Poll(id));
        var s4 := Apply(Apply(s2, StampFinish(t)), WriteVerdict(t));
        assert s4.threads == s.threads;
        assert s4.records == Whole(s, Poll(id)).records;
      }
    } else {
      assert Whole(s, Poll(id)).records == s.records;
    }
  }

  /** The three writes of a kill past its check, one after the other. */
  lemma KillWrites(s: State, t: Thread, id: JobId)
    requires id in s.records && s.records[id].status == Running && t in s.threads && s.threads[t] == Killing(id)
    ensures var s1 := Apply(s, WriteCanceled(t));
      Enabled(s1, WriteKillCode(t)) && Enabled(Apply(s1, WriteKillCode(t)), StampKill(t))
      && Apply(Apply(s1, WriteKillCode(t)), StampKill(t))
         == Put(s, id, KilledRecord(s.records[id], s.now)).(threads := s.threads[t := Idle])
  {
    var s1 := Apply(s, WriteCanceled(t));
    var s2 := Apply(s1, WriteKillCode(t));
    var s3 := Apply(s2, StampKill(t));
    assert s3.records == s.records[id := KilledRecord(s.records[id], s.now)];
    assert s3.threads == s.threads[t := Idle];
  }

  lemma KillIsItsSteps(s: State, t: Thread, id: JobId)
    requires s.registry <= s.records.Keys && t in s.threads && s.threads[t].Idle?
    ensures IsRun(s, StepsOf(s, t, Kill(id))) && After(s, StepsOf(s, t, Kill(id))) == Whole(s, Kill(id))
  {
    if id in s.registry {
      TwoSteps(s, FindForKill(t, id), CheckKill(t));
      var s2 := Apply(Apply(s, FindForKill(t, id)), CheckKill(t));
      if s.records[id].status != Running {
        assert s2.threads == s.threads;
        assert Whole(s, Kill(id)).records == s.records;
      } else {
        KillWrites(s2, t, id);
        KillInFive(s, t, id, s2);
        assert s2.threads[t := Idle] == s.threads;
      }
    }
  }

  lemma KillInFive(s: State, t: Thread, id: JobId, s2: State)
    requires id in s.registry && RecordOf(s, id).status == Running
    requires IsRun(s, [FindForKill(t, id), CheckKill(t)]) && After(s, [FindForKill(t, id), CheckKill(t)]) == s2
    requires Enabled(s2, WriteCanceled(t)) && Enabled(Apply(s2, WriteCanceled(t)), WriteKillCode(t))
    requires Enabled(Apply(Apply(s2, WriteCanceled(t)), WriteKillCode(t)), StampKill(t))
    ensures IsRun(s, StepsOf(s, t, Kill(id)))
    ensures After(s, StepsOf(s, t, Kill(id)))
            == Apply(Apply(Apply(s2, WriteCanceled(t)), WriteKillCode(t)), StampKill(t))
  {
    var front, back := [FindForKill(t, id), CheckKill(t)], [WriteCanceled(t), WriteKillCode(t)];
    TwoSteps(s2, WriteCanceled(t), WriteKillCode(t));
    RunConcat(s, front, back);
    OneStep(Apply(Apply(s2, WriteCanceled(t)), WriteKillCode(t)), StampKill(t));
    RunConcat(s, front + back, [StampKill(t)]);
    assert front + back + [StampKill(t)] == StepsOf(s, t, Kill(id));
  }

  lemma StartIsItsSteps(s: State, t: Thread)
    requires t in s.threads && s.threads[t].Idle?
    ensures IsRun(s, StepsOf(s, t, Start)) && After(s, StepsOf(s, t, Start)) == Whole(s, Start)
  {
    TwoSteps(s, Allocate(t), Register(t));
    assert Apply(Apply(s, Allocate(t)), Register(t)).threads == s.threads;
  }

  lemma SingleIsItsStep(s: State, t: Thread, step: WholeStep)
    requires MayWhole(s, step) && (step.PruneAll? || step.Exit? || step.Wait?)
    ensures IsRun(s, StepsOf(s, t, step)) && After(s, StepsOf(s, t, step)) == Whole(s, step)
  {
    OneStep(s, StepsOf(s, t, step)[0]);
  }

  /** Each whole operation is its steps in a row, with nothing in between. */
  lemma WholeIsItsSteps(s: State, t: Thread, step: WholeStep)
    requires s.registry <= s.records.Keys && t in s.threads && s.threads[t].Idle? && MayWhole(s, step)
    ensures IsRun(s, StepsOf(s, t, step)) && After(s, StepsOf(s, t, step)) == Whole(s, step)
  {
    match step
    case Poll(id) => PollIsItsSteps(s, t, id);
    case Kill(id) => KillIsItsSteps(s, t, id);
    case Start => StartIsItsSteps(s, t);
    case _ => SingleIsItsStep(s, t, step);
  }
}
