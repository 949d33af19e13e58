/**
 * Running and-or lists: the flat loop with a threaded working directory, against section 2.9.3 of
 * POSIX.1-2017 XCU, where `&&` and `||` have equal precedence and associate to the left.
 */
module AndOr {
  import opened Wrappers
  import opened Seqs
  import opened Lexer
  import opened WordParts
  import opened Syntax
  import opened PathWalk
  import opened ChangeDir

  /** What running a pipeline in the sandbox does to the world outside the executor. */
  datatype Outcome<W> = Done(world: W, stage: Stage) | Raised(world: W, error: string)

  type Exec<!W> = (PipelineNode, string, W) -> Outcome<W>

  /** `trace` lists the pipelines that were run, with their directories; `passed` counts the others. */
  datatype Run<W> = Run(world: W, cwd: string, rc: int, stages: seq<Stage>,
                        trace: seq<(PipelineNode, string)>, passed: nat, raised: Option<string>)

  function Start<W>(world: W, cwd: string): Run<W> {
    Run(world, cwd, 0, [], [], 0, None)
  }

  /** One pipeline: `cd` in place, anything else in the sandbox. */
  function Perform<W>(p: PipelineNode, env: Env, names: seq<string>, exec: Exec<W>, run: Run<W>): Run<W> {
    var trace := run.trace + [(p, run.cwd)];
    match TryCd(p, env, run.cwd, names)
    case Moved(dir, stage) => run.(cwd := dir, rc := stage.rc, stages := run.stages + [stage], trace := trace)
    case Refused(stage) => run.(rc := stage.rc, stages := run.stages + [stage], trace := trace)
    case NotCd =>
      match exec(p, run.cwd, run.world)
      case Done(world, stage) =>
        run.(world := world, rc := stage.rc, stages := run.stages + [stage], trace := trace)
      case Raised(world, error) => run.(world := world, trace := trace, raised := Some(error))
  }

  /** An and-or list as the standard reads it. */
  datatype Tree = One(p: PipelineNode) | Both(left: Tree, op: Op, right: Tree)

  function Count(t: Tree): nat {
    match t
    case One(_) => 1
    case Both(l, _, r) => Count(l) + Count(r)
  }

  /** The right operand runs exactly when the left one's status asks for it. */
  function Eval<W>(t: Tree, env: Env, names: seq<string>, exec: Exec<W>, run: Run<W>): Run<W> {
    match t
    case One(p) => Perform(p, env, names, exec, run)
    case Both(l, op, r) =>
      var left := Eval(l, env, names, exec, run);
      if left.raised.Some? then left
      else if (op == AndIf) == (left.rc == 0) then Eval(r, env, names, exec, left)
      else left.(passed := left.passed + Count(r))
  }

  /** The first `n` pipelines, associated to the left. */
  function TreeOf(a: AndOrNode, n: nat): Tree
    requires 1 <= n <= |a.pipelines| == |a.ops| + 1
  {
    if n == 1 then One(a.pipelines[0])
    else Both(TreeOf(a, n - 1), a.ops[n - 2], One(a.pipelines[n - 1]))
  }

  datatype Report = Report(rc: int, skipped: bool, stages: seq<Stage>)

  class Executor<W(!new)> {
    var world: W
    const exec: Exec<W>
    const env: Env
    const names: seq<string>
    /** What has been run so far, for the specification only. */
    ghost var trace: seq<(PipelineNode, string)>

    constructor (world: W, exec: Exec<W>, env: Env, names: seq<string>)
      ensures this.world == world && this.exec == exec && this.env == env && this.names == names && trace == []
    {
      this.world := world;
      this.exec := exec;
      this.env := env;
      this.names := names;
      this.trace := [];
    }

    method ExecutePipeline(p: PipelineNode, cwd: string) returns (r: Result<Stage, string>)
      modifies `world
      ensures world == old(exec(p, cwd, world)).world
      ensures r == match old(exec(p, cwd, world)) case Done(_, stage) => Ok(stage) case Raised(_, e) => Err(e)
    {
      var outcome := exec(p, cwd, world);
      world := outcome.world;
      r := match outcome case Done(_, stage) => Ok(stage) case Raised(_, e) => Err(e);
    }

    /** What the tree semantics gives for the list, run from a directory and a world. */
    ghost function Meaning(a: AndOrNode, cwd: string, w: W): Run<W>
      requires |a.pipelines| == |a.ops| + 1
    {
      Eval(TreeOf(a, |a.pipelines|), env, names, exec, Start(w, cwd))
    }

    /** One pipeline that is not passed over: a `cd` of the list's own, or the pipeline. */
    method RunNext(p: PipelineNode, cur: string, ghost run: Run<W>) returns (r: Result<Stage, string>, next: string)
      requires run.raised.None? && run.world == world && run.cwd == cur
      modifies this
      ensures trace == old(trace) + [(p, cur)]
      ensures var after := Perform(p, env, names, exec, run);
        world == after.world && next == after.cwd && after.passed == run.passed && after.trace == run.trace + [(p, cur)]
        && match r
           case Ok(stage) => after.raised.None? && after.stages == run.stages + [stage] && after.rc == stage.rc
           case Err(e) => after.raised == Some(e)
    {
      trace := trace + [(p, cur)];
      next := cur;
      match TryCd(p, env, cur, names) {
        case Moved(dir, stage) =>
          next := dir;
          r := Ok(stage);
        case Refused(stage) =>
          r := Ok(stage);
        case NotCd =>
          r := ExecutePipeline(p, cur);
      }
    }

    /** The flat loop computes what the left-associated tree means. */
    method ExecuteAndOr(a: AndOrNode, cwd: string) returns (r: Result<Report, string>)
      requires |a.pipelines| == |a.ops| + 1
      modifies this
      ensures var run := Meaning(a, cwd, old(world));
        world == run.world && trace == old(trace) + run.trace
        && r == match run.raised case Some(e) => Err(e) case None => Ok(Report(run.rc, run.passed > 0, run.stages))
    {
      var stages: seq<Stage>, lastRc, skipped, cur := [], 0, false, cwd;
      ghost var run := Start(world, cwd);
      for i := 0 to |a.pipelines|
        invariant run == if i == 0 then Start(old(world), cwd)
                         else Eval(TreeOf(a, i), env, names, exec, Start(old(world), cwd))
        invariant run.raised.None? && run.world == world && run.cwd == cur && run.rc == lastRc
        invariant run.stages == stages && skipped == (run.passed > 0)
        invariant trace == old(trace) + run.trace
      {
        if i > 0 {
          var op := a.ops[i - 1];
          if op == AndIf && lastRc != 0 {
            skipped := true;
            run := run.(passed := run.passed + 1);
            continue;
          }
          if op != AndIf && lastRc == 0 {
            skipped := true;
            run := run.(passed := run.passed + 1);
            continue;
          }
        }
        var p := a.pipelines[i];
        Assoc(old(trace), run.trace, [(p, cur)]);
        var result, next := RunNext(p, cur, run);
        run := Perform(p, env, names, exec, run);
        if result.Err? {
          StopsThere(a, i + 1, env, names, exec, Start(old(world), cwd));
          return Err(result.error);
        }
        stages := stages + [result.value];
        cur := next;
        lastRc := result.value.rc;
      }
      r := Ok(Report(lastRc, skipped, stages));
    }
  }

  /** An exception ends the list: the rest of the tree adds nothing. */
  lemma StopsThere<W>(a: AndOrNode, n: nat, env: Env, names: seq<string>, exec: Exec<W>, run: Run<W>)
    requires 1 <= n <= |a.pipelines| == |a.ops| + 1
    requires Eval(TreeOf(a, n), env, names, exec, run).raised.Some?
    ensures Eval(TreeOf(a, |a.pipelines|), env, names, exec, run) == Eval(TreeOf(a, n), env, names, exec, run)
    decreases |a.pipelines| - n
  {
    if n < |a.pipelines| {
      StopsThere(a, n + 1, env, names, exec, run);
    }
  }

  lemma PerformBalanced<W>(p: PipelineNode, env: Env, names: seq<string>, exec: Exec<W>, run: Run<W>)
    requires run.raised.None? && |run.stages| == |run.trace|
    ensures var next := Perform(p, env, names, exec, run);
      next.passed == run.passed && |next.trace| == |run.trace| + 1
      && (next.raised.None? ==> |next.stages| == |next.trace| && next.stages[|next.stages| - 1].rc == next.rc)
  {
  }

  /**
   * Stages and skipped pipelines account for every pipeline of the tree, and the status is that of
   * the last pipeline that ran.
   */
  lemma {:induction false} EvalAccounts<W>(t: Tree, env: Env, names: seq<string>, exec: Exec<W>, run: Run<W>)
    requires run.raised.None? && |run.stages| == |run.trace|
    requires run.stages != [] ==> run.stages[|run.stages| - 1].rc == run.rc
    ensures var end := Eval(t, env, names, exec, run);
      end.raised.None? ==>
        (|end.stages| == |end.trace| && |end.stages| + end.passed == |run.stages| + run.passed + Count(t)
         && |end.stages| > |run.stages| && end.stages[|end.stages| - 1].rc == end.rc)
  {
    match t
    case One(p) => PerformBalanced(p, env, names, exec, run);
    case Both(l, op, r) =>
      EvalAccounts(l, env, names, exec, run);
      var left := Eval(l, env, names, exec, run);
      if left.raised.None? && (op == AndIf) == (left.rc == 0) {
        EvalAccounts(r, env, names, exec, left);
      }
  }

  lemma TreeCount(a: AndOrNode, n: nat)
    requires 1 <= n <= |a.pipelines| == |a.ops| + 1
    ensures Count(TreeOf(a, n)) == n
  {
  }

  /** For a whole list: stages plus skipped pipelines are all pipelines, so `skipped` is exact. */
  lemma ListAccounts<W>(a: AndOrNode, env: Env, names: seq<string>, exec: Exec<W>, world: W, cwd: string)
    requires |a.pipelines| == |a.ops| + 1
    ensures var end := Eval(TreeOf(a, |a.pipelines|), env, names, exec, Start(world, cwd));
      end.raised.None? ==>
        (|end.stages| == |end.trace| && |end.stages| + end.passed == |a.pipelines|
         && (end.passed > 0 <==> |end.trace| < |a.pipelines|)
         && end.stages != [] && end.stages[|end.stages| - 1].rc == end.rc)
  {
    EvalAccounts(TreeOf(a, |a.pipelines|), env, names, exec, Start(world, cwd));
    TreeCount(a, |a.pipelines|);
  }

  ghost predicate GoodTrace(trace: seq<(PipelineNode, string)>, names: seq<string>) {
    forall i :: 0 <= i < |trace| ==> GoodCwd(trace[i].1, names)
  }

  /** Every pipeline runs in a directory that is absolute, normalised and under a root. */
  lemma {:induction false} EvalCwdsGood<W>(t: Tree, env: Env, names: seq<string>, exec: Exec<W>, run: Run<W>)
    requires GoodCwd(run.cwd, names) && GoodTrace(run.trace, names)
    ensures var end := Eval(t, env, names, exec, run); GoodCwd(end.cwd, names) && GoodTrace(end.trace, names)
  {
    match t
    case One(p) => CdKeepsGood(p, env, run.cwd, names);
    case Both(l, op, r) =>
      EvalCwdsGood(l, env, names, exec, run);
      var left := Eval(l, env, names, exec, run);
      if left.raised.None? && (op == AndIf) == (left.rc == 0) {
        EvalCwdsGood(r, env, names, exec, left);
      }
  }

  /** The lists of a program so far. */
  datatype Total<W> = Total(world: W, rc: int, skipped: bool, stages: seq<Stage>,
                            trace: seq<(PipelineNode, string)>, raised: Option<string>)

  function Continue<W>(total: Total<W>, run: Run<W>): Total<W> {
    Total(run.world, run.rc, total.skipped || run.passed > 0, total.stages + run.stages,
          total.trace + run.trace, run.raised)
  }

  predicate Linked(andors: seq<AndOrNode>) {
    forall i :: 0 <= i < |andors| ==> |andors[i].pipelines| == |andors[i].ops| + 1
  }

  function EvalList<W>(a: AndOrNode, env: Env, names: seq<string>, exec: Exec<W>, cwd: string, world: W): Run<W>
    requires |a.pipelines| == |a.ops| + 1
  {
    Eval(TreeOf(a, |a.pipelines|), env, names, exec, Start(world, cwd))
  }

  /** Lists one after the other, whatever their status, each from the directory the program was given. */
  function EvalLists<W>(andors: seq<AndOrNode>, env: Env, names: seq<string>, exec: Exec<W>, cwd: string,
                        total: Total<W>): Total<W>
    requires Linked(andors)
  {
    if andors == [] || total.raised.Some? then total
    else EvalLists(andors[1..], env, names, exec, cwd,
                   Continue(total, EvalList(andors[0], env, names, exec, cwd, total.world)))
  }

  lemma ListsStep<W>(andors: seq<AndOrNode>, i: nat, env: Env, names: seq<string>, exec: Exec<W>, cwd: string,
                     total: Total<W>)
    requires Linked(andors) && i < |andors| && total.raised.None?
    ensures EvalLists(andors[i..], env, names, exec, cwd, total)
         == EvalLists(andors[i + 1..], env, names, exec, cwd,
                      Continue(total, EvalList(andors[i], env, names, exec, cwd, total.world)))
  {
    Drop2(andors, i, 1);
  }

  method ExecuteProgram<W(!new)>(program: ProgramNode, executor: Executor<W>, cwd: string)
    returns (r: Result<Report, string>)
    requires Linked(program.andors)
    modifies executor
    ensures var total := EvalLists(program.andors, executor.env, executor.names, executor.exec, cwd,
                                   Total(old(executor.world), 0, false, [], old(executor.trace), None));
      executor.world == total.world && executor.trace == total.trace
      && r == match total.raised case Some(e) => Err(e) case None => Ok(Report(total.rc, total.skipped, total.stages))
  {
    var stages: seq<Stage>, lastRc, skipped := [], 0, false;
    ghost var total := Total(executor.world, 0, false, [], executor.trace, None);
    ghost var first := total;
    for i := 0 to |program.andors|
      invariant EvalLists(program.andors[i..], executor.env, executor.names, executor.exec, cwd, total)
             == EvalLists(program.andors, executor.env, executor.names, executor.exec, cwd, first)
      invariant total == Total(executor.world, lastRc, skipped, stages, executor.trace, None)
    {
      ListsStep(program.andors, i, executor.env, executor.names, executor.exec, cwd, total);
      total := Continue(total,
                        EvalList(program.andors[i], executor.env, executor.names, executor.exec, cwd, total.world));
      var result := executor.ExecuteAndOr(program.andors[i], cwd);
      if result.Err? {
        return Err(result.error);
      }
      stages := stages + result.value.stages;
      lastRc := result.value.rc;
      skipped := skipped || result.value.skipped;
    }
    r := Ok(Report(lastRc, skipped, stages));
  }

  /** A list starts where the program was told to, not where the list before it went. */
  lemma {:induction false} StartsInCwd<W>(t: Tree, env: Env, names: seq<string>, exec: Exec<W>, run: Run<W>)
    ensures var end := Eval(t, env, names, exec, run);
      |end.trace| > |run.trace| && end.trace[..|run.trace|] == run.trace && end.trace[|run.trace|].1 == run.cwd
  {
    match t
    case One(p) =>
    case Both(l, op, r) =>
      StartsInCwd(l, env, names, exec, run);
      var left := Eval(l, env, names, exec, run);
      if left.raised.None? && (op == AndIf) == (left.rc == 0) {
        StartsInCwd(r, env, names, exec, left);
        assert Eval(t, env, names, exec, run).trace[..|left.trace|][..|run.trace|] == run.trace;
      }
  }

  // ---- When the next pipeline runs ----

  /** After `&&` the next pipeline runs, in the directory reached so far, exactly where the status so far
      is 0; after `||` exactly where it is not; and after an exception never. */
  lemma NextRunsIff<W>(l: Tree, op: Op, q: PipelineNode, env: Env, names: seq<string>, exec: Exec<W>, run: Run<W>)
    requires op == AndIf || op == OrIf
    ensures var left := Eval(l, env, names, exec, run);
      Eval(Both(l, op, One(q)), env, names, exec, run).trace
      == left.trace + (if left.raised.None? && (left.rc == 0 <==> op == AndIf) then [(q, left.cwd)] else [])
  {
    var left := Eval(l, env, names, exec, run);
    Nothing(left.trace);
  }

  lemma CdPerformed<W>(p: PipelineNode, env: Env, comps: seq<string>, names: seq<string>, exec: Exec<W>, run: Run<W>)
    requires GoodComps(comps, names) && run.cwd == PathOf(comps) && IsCd(p, env)
    ensures var after := Perform(p, env, names, exec, run);
      after.world == run.world && after.raised == run.raised && after.trace == run.trace + [(p, run.cwd)]
      && (if CdLands(p, env, comps, names)
          then after.rc == 0 && after.cwd == CdPlace(p, env, comps, names)
          else after.rc == 1 && after.cwd == run.cwd)
  {
    CdStatus(p, env, comps, names);
  }

  /** `cd t && q` runs `q`, and in the new directory, exactly where the walk to `t` ends under a root;
      `cd t || q` runs it exactly where it does not, in the old one. */
  lemma CdGuards<W>(p: PipelineNode, op: Op, q: PipelineNode, env: Env, comps: seq<string>, names: seq<string>,
                    exec: Exec<W>, run: Run<W>)
    requires GoodComps(comps, names) && run.cwd == PathOf(comps) && run.raised.None? && IsCd(p, env)
    requires op == AndIf || op == OrIf
    ensures var lands := CdLands(p, env, comps, names);
      Eval(Both(One(p), op, One(q)), env, names, exec, run).trace == run.trace + [(p, run.cwd)] +
        (if op == AndIf && lands then [(q, CdPlace(p, env, comps, names))]
         else if op == OrIf && !lands then [(q, run.cwd)]
         else [])
  {
    CdPerformed(p, env, comps, names, exec, run);
    NextRunsIff(One(p), op, q, env, names, exec, run);
  }

  /** Both roots are good directories to start in, `/workspace` being the default. */
  lemma RootsAreGood(i: nat)
    requires i < |ROOT_NAMES|
    ensures GoodCwd("/" + ROOT_NAMES[i], ROOT_NAMES)
  {
    RootNamesProper();
    var comps := [ROOT_NAMES[i]];
    assert GoodComps(comps, ROOT_NAMES) by { assert Below(comps, ROOT_NAMES[i]); }
    assert "/" + ROOT_NAMES[i] == PathOf(comps);
  }

  /** All of a program's pipelines run in good directories. */
  lemma {:induction false} ProgramCwdsGood<W>(andors: seq<AndOrNode>, env: Env, names: seq<string>, exec: Exec<W>,
                                              cwd: string, total: Total<W>)
    requires Linked(andors) && GoodCwd(cwd, names) && GoodTrace(total.trace, names)
    ensures GoodTrace(EvalLists(andors, env, names, exec, cwd, total).trace, names)
    decreases |andors|
  {
    if andors != [] && total.raised.None? {
      var a := andors[0];
      EvalCwdsGood(TreeOf(a, |a.pipelines|), env, names, exec, Start(total.world, cwd));
      ProgramCwdsGood(andors[1..], env, names, exec, cwd,
                      Continue(total, EvalList(a, env, names, exec, cwd, total.world)));
    }
  }

  /** From a root, under the two real roots: whatever the commands do, no pipeline ever runs
      outside `/workspace` and `/tmp`. */
  lemma {:induction false} DefaultCwdsGood<W>(andors: seq<AndOrNode>, env: Env, exec: Exec<W>, world: W, i: nat)
    requires Linked(andors) && i < |ROOT_NAMES|
    ensures GoodTrace(EvalLists(andors, env, ROOT_NAMES, exec, "/" + ROOT_NAMES[i],
                                Total(world, 0, false, [], [], None)).trace, ROOT_NAMES)
  {
    RootsAreGood(i);
    ProgramCwdsGood(andors, env, ROOT_NAMES, exec, "/" + ROOT_NAMES[i], Total(world, 0, false, [], [], None));
  }

  /** Two lists of a program: the second starts in the program's directory, not where the first went, and in
      the world the first left; the status is the second's, the stages are both, and something was skipped
      if it was in either. After an exception in the first the second does not run. */
  lemma TwoLists<W>(a: AndOrNode, b: AndOrNode, env: Env, names: seq<string>, exec: Exec<W>, cwd: string, world: W)
    requires |a.pipelines| == |a.ops| + 1 && |b.pipelines| == |b.ops| + 1 && Linked([a, b])
    ensures var first := EvalList(a, env, names, exec, cwd, world);
      var second := EvalList(b, env, names, exec, cwd, first.world);
      EvalLists([a, b], env, names, exec, cwd, Total(world, 0, false, [], [], None)) ==
        if first.raised.Some?
        then Total(first.world, first.rc, first.passed > 0, first.stages, first.trace, first.raised)
        else Total(second.world, second.rc, first.passed > 0 || second.passed > 0, first.stages + second.stages,
                   first.trace + second.trace, second.raised)
  {
    var first := EvalList(a, env, names, exec, cwd, world);
    assert [a, b][1..] == [b] && [b][1..] == [] && [a, b][0] == a && [a, b][1] == b;
    assert Linked([b]);
    var total := Total(first.world, first.rc, first.passed > 0, first.stages, first.trace, first.raised);
    assert Continue(Total(world, 0, false, [], [], None), first) == total;
    assert EvalLists([a, b], env, names, exec, cwd, Total(world, 0, false, [], [], None))
           == EvalLists([b], env, names, exec, cwd, total);
    LastList(b, env, names, exec, cwd, total);
    Nothing(first.stages);
    Nothing(first.trace);
  }

  lemma LastList<W>(b: AndOrNode, env: Env, names: seq<string>, exec: Exec<W>, cwd: string, total: Total<W>)
    requires |b.pipelines| == |b.ops| + 1 && Linked([b])
    ensures EvalLists([b], env, names, exec, cwd, total) ==
            if total.raised.Some? then total
            else Continue(total, EvalList(b, env, names, exec, cwd, total.world))
  {
    assert [b][1..] == [];
    if total.raised.None? {
      var next := Continue(total, EvalList(b, env, names, exec, cwd, total.world));
      assert EvalLists([], env, names, exec, cwd, next) == next;
    }
  }
}
