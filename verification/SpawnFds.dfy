/** Opening the redirects of a command and handing its descriptors to the child process. */
module SpawnFds {
  import opened Wrappers
  import opened Syntax
  import opened ParsedNodes
  import opened PathWalk
  import opened HostPaths
  import opened Redirects

  /** Host paths of the file redirects; the markers are those of the plan. */
  datatype Files = Files(hostStdin: Option<string>, hostStdout: Option<string>, hostStderr: Option<string>,
                         stdoutMerges: bool, stderrMerges: bool, stdoutAppend: bool, stderrAppend: bool)

  datatype Mode = Read | Write | Append

  datatype OpenFile = OpenFile(path: string, mode: Mode)

  /** What `Popen` is given: an opened file by its place in the list, the default pipe, or stdout's own. */
  datatype Sink = Opened(index: nat) | Pipe | LikeStdout

  datatype Kwargs = Kwargs(stdin: Option<nat>, stdout: Sink, stderr: Sink)

  /** A plan has one entry per descriptor, a file or a merge. */
  predicate Consistent(f: Files) {
    (f.hostStdout.Some? ==> !f.stdoutMerges) && (f.hostStderr.Some? ==> !f.stderrMerges)
  }

  function WriteMode(append: bool): Mode {
    if append then Append else Write
  }

  /** A place output ends up in. */
  datatype Destination = ToFile(path: string, mode: Mode) | ToPipe

  /**
   * The reference: follow the merges as a graph. Standard error without a redirect follows standard
   * output, and where merges go round in a circle the output is captured.
   */
  function Follow(f: Files, fd: nat, seen: set<nat>): Destination
    requires fd == 1 || fd == 2
    decreases {1, 2} - seen
  {
    if fd in seen then ToPipe
    else if fd == 1 then
      if f.hostStdout.Some? then ToFile(f.hostStdout.value, WriteMode(f.stdoutAppend))
      else if f.stdoutMerges then Follow(f, 2, seen + {1})
      else ToPipe
    else
      if f.hostStderr.Some? then ToFile(f.hostStderr.value, WriteMode(f.stderrAppend))
      else Follow(f, 1, seen + {2})
  }

  /** What a sink means, given the opened files. */
  function Meaning(sink: Sink, stdout: Sink, files: seq<OpenFile>): Option<Destination> {
    match sink
    case Pipe => Some(ToPipe)
    case Opened(i) => if i < |files| then Some(ToFile(files[i].path, files[i].mode)) else None
    case LikeStdout =>
      match stdout
      case Pipe => Some(ToPipe)
      case Opened(i) => if i < |files| then Some(ToFile(files[i].path, files[i].mode)) else None
      case LikeStdout => None
  }

  /** Every file redirect once, in the order of the descriptors. */
  function FileList(f: Files): seq<OpenFile> {
    (if f.hostStdin.Some? then [OpenFile(f.hostStdin.value, Read)] else [])
    + (if f.hostStdout.Some? then [OpenFile(f.hostStdout.value, WriteMode(f.stdoutAppend))] else [])
    + (if f.hostStderr.Some? then [OpenFile(f.hostStderr.value, WriteMode(f.stderrAppend))] else [])
  }

  /** The descriptors end where the merge graph leads, and each file is opened once and recorded once. */
  method SpawnKwargs(f: Files) returns (kwargs: Kwargs, files: seq<OpenFile>)
    requires Consistent(f)
    ensures files == FileList(f)
    ensures match f.hostStdin case None => kwargs.stdin == None
            case Some(path) => kwargs.stdin == Some(0) && files[0] == OpenFile(path, Read)
    ensures Meaning(kwargs.stdout, kwargs.stdout, files) == Some(Follow(f, 1, {}))
    ensures Meaning(kwargs.stderr, kwargs.stdout, files) == Some(Follow(f, 2, {}))
    ensures f.stdoutMerges || f.stderrMerges || f.hostStderr.None? ==> kwargs.stderr in {LikeStdout, kwargs.stdout}
  {
    files := [];
    var stdin: Option<nat> := None;
    if f.hostStdin.Some? {
      stdin := Some(|files|);
      files := files + [OpenFile(f.hostStdin.value, Read)];
    }
    var stdout := Pipe;
    if f.hostStdout.Some? {
      stdout := Opened(|files|);
      files := files + [OpenFile(f.hostStdout.value, WriteMode(f.stdoutAppend))];
    }
    var stderr;
    if f.stderrMerges {
      stderr := if f.hostStdout.Some? then stdout else LikeStdout;
    } else if f.stdoutMerges {
      if f.hostStderr.Some? {
        stdout := Opened(|files|);
        stderr := Opened(|files|);
        files := files + [OpenFile(f.hostStderr.value, WriteMode(f.stderrAppend))];
      } else {
        stdout := Pipe;
        stderr := LikeStdout;
      }
    } else if f.hostStderr.Some? {
      stderr := Opened(|files|);
      files := files + [OpenFile(f.hostStderr.value, WriteMode(f.stderrAppend))];
    } else {
      stderr := LikeStdout;
    }
    kwargs := Kwargs(stdin, stdout, stderr);
  }

  predicate IsMarker(target: Option<string>) {
    target.Some? && target.value != "" && target.value[0] == '&'
  }

  // ---- From the plan to the host ----

  /** Binds, the session's workspace, the names of the two roots, and a fresh temporary file for each
      descriptor. */
  datatype Mapping = Mapping(binds: seq<Bind>, workspace: string, work: string, tmp: string, temps: nat -> string)

  /** Where a descriptor's target lives; all but standard input are written. */
  function HostOf(fd: nat, target: string, m: Mapping): Host {
    HostFor(target, fd != 0, m.binds, m.workspace, m.work, m.tmp, m.temps(fd))
  }

  function PlaceOf(h: Host): Option<string> {
    match h
    case HostPath(p) => Some(p)
    case TempFile(p, _) => Some(p)
    case Denied(_) => None
    case NoRoot => None
  }

  function Placed(fd: nat, target: Option<string>, m: Mapping): Option<string> {
    if target.None? || IsMarker(target) then None else PlaceOf(HostOf(fd, target.value, m))
  }

  predicate Refused(fd: nat, target: Option<string>, m: Mapping) {
    target.Some? && !IsMarker(target) && HostOf(fd, target.value, m).Denied?
  }

  /** A plan with its paths taken to the host. */
  function FilesOf(plan: Plan, m: Mapping): (f: Files)
    ensures Consistent(f)
  {
    Files(Placed(0, plan.stdin, m), Placed(1, plan.stdout, m), Placed(2, plan.stderr, m),
          IsMarker(plan.stdout), IsMarker(plan.stderr), plan.stdoutAppend, plan.stderrAppend)
  }

  predicate AnyRefused(plan: Plan, m: Mapping) {
    Refused(0, plan.stdin, m) || Refused(1, plan.stdout, m) || Refused(2, plan.stderr, m)
  }

  /** The descriptors one after the other; the first that may not be written raises. */
  method ResolveHosts(plan: Plan, m: Mapping) returns (r: Result<Files, string>)
    ensures if AnyRefused(plan, m) then r.Err? else r == Ok(FilesOf(plan, m))
  {
    var files := Files(None, None, None, IsMarker(plan.stdout), IsMarker(plan.stderr),
                       plan.stdoutAppend, plan.stderrAppend);
    if plan.stdin.Some? && !IsMarker(plan.stdin) {
      var h := HostOf(0, plan.stdin.value, m);
      if h.Denied? { return Err(plan.stdin.value); }
      files := files.(hostStdin := PlaceOf(h));
    }
    if plan.stdout.Some? && !IsMarker(plan.stdout) {
      var h := HostOf(1, plan.stdout.value, m);
      if h.Denied? { return Err(plan.stdout.value); }
      files := files.(hostStdout := PlaceOf(h));
    }
    if plan.stderr.Some? && !IsMarker(plan.stderr) {
      var h := HostOf(2, plan.stderr.value, m);
      if h.Denied? { return Err(plan.stderr.value); }
      files := files.(hostStderr := PlaceOf(h));
    }
    r := Ok(files);
  }

  // ---- From the redirects of a command to the files that are opened ----

  /** What each operator promises for its file. */
  predicate Promised(op: string, mode: Mode) {
    (op == "<" && mode == Read) || (op in {">", "2>"} && mode == Write) || (op in {">>", "2>>"} && mode == Append)
  }

  /** The host place of a redirect's file. */
  function FileOf(r: RedirectSpec, base: string, m: Mapping): Option<string> {
    PlaceOf(HostOf(SpecFd(r), ResolveTarget(base, r.target), m))
  }

  lemma FoundIs(specs: seq<RedirectSpec>, r: RedirectSpec)
    requires DistinctFds(specs) && r in specs
    ensures Find(specs, SpecFd(r)) == Some(r)
  {
    FindMember(specs, SpecFd(r));
    var i :| 0 <= i < |specs| && specs[i] == r;
    var found := Find(specs, SpecFd(r)).value;
    var j :| 0 <= j < |specs| && specs[j] == found;
    assert i == j;
  }

  lemma PlanOf(specs: seq<RedirectSpec>, base: string, names: seq<string>, plan: Plan)
    requires AllParsed(specs) && Apply(specs, {}, NO_PLAN, base, names) == Ok(plan)
    ensures DistinctFds(specs) && AllAllowed(specs, base, names) && plan == Filled(NO_PLAN, specs, base)
  {
    ApplyIff(specs, {}, NO_PLAN, base, names);
  }

  function PlannedFor(plan: Plan, fd: nat): Option<string> {
    if fd == 0 then plan.stdin else if fd == 1 then plan.stdout else plan.stderr
  }

  lemma PlannedIs(specs: seq<RedirectSpec>, base: string, fd: nat)
    requires fd <= 2
    ensures PlannedFor(Filled(NO_PLAN, specs, base), fd) ==
            match Find(specs, fd) case None => None case Some(r) => Some(Target(r, base))
  {
  }

  /** A file's path is no marker, and a merge's marker is one. */
  lemma TargetIsPath(comps: seq<string>, r: RedirectSpec, names: seq<string>)
    requires GoodComps(comps, names) && ParsedRedirect(r)
    ensures IsMarker(Some(Target(r, PathOf(comps)))) <==> !FileRedirect(r.op)
    ensures FileRedirect(r.op) ==> Target(r, PathOf(comps)) == ResolveTarget(PathOf(comps), r.target)
  {
    MergeOps();
    PathsAreNotMarkers(comps, r.target, names);
  }

  /** What the plan holds for a redirect's descriptor. */
  lemma PlannedRedirect(specs: seq<RedirectSpec>, r: RedirectSpec, comps: seq<string>, names: seq<string>, plan: Plan)
    requires GoodComps(comps, names) && AllParsed(specs) && r in specs
    requires Apply(specs, {}, NO_PLAN, PathOf(comps), names) == Ok(plan)
    ensures SpecFd(r) <= 2 && PlannedFor(plan, SpecFd(r)) == Some(Target(r, PathOf(comps)))
    ensures SpecFd(r) == 1 && FileRedirect(r.op) ==> plan.stdoutAppend == (r.op == ">>")
    ensures SpecFd(r) == 2 && FileRedirect(r.op) ==> plan.stderrAppend == (r.op == "2>>")
  {
    PlanOf(specs, PathOf(comps), names, plan);
    FoundIs(specs, r);
    assert ParsedRedirect(r);
    PlannedIs(specs, PathOf(comps), SpecFd(r));
  }

  /** And what it holds comes from one. */
  lemma RedirectPlanned(specs: seq<RedirectSpec>, fd: nat, comps: seq<string>, names: seq<string>, plan: Plan)
    returns (r: RedirectSpec)
    requires GoodComps(comps, names) && AllParsed(specs) && fd <= 2
    requires Apply(specs, {}, NO_PLAN, PathOf(comps), names) == Ok(plan)
    requires PlannedFor(plan, fd).Some? && !IsMarker(PlannedFor(plan, fd))
    ensures r in specs && SpecFd(r) == fd && ParsedRedirect(r) && FileRedirect(r.op)
    ensures PlannedFor(plan, fd) == Some(ResolveTarget(PathOf(comps), r.target))
  {
    PlanOf(specs, PathOf(comps), names, plan);
    PlannedIs(specs, PathOf(comps), fd);
    FindMember(specs, fd);
    r := Find(specs, fd).value;
    assert ParsedRedirect(r);
    TargetIsPath(comps, r, names);
  }

  /**
   * From the redirects of a command on: `<` makes standard input read its file, `>` and `2>` make their
   * descriptor write it from its start, `>>` and `2>>` from its end, each at the place its target has
   * on the host.
   */
  lemma RedirectOpens(specs: seq<RedirectSpec>, r: RedirectSpec, comps: seq<string>, names: seq<string>, plan: Plan,
                      m: Mapping)
    requires GoodComps(comps, names) && AllParsed(specs) && r in specs && FileRedirect(r.op)
    requires Apply(specs, {}, NO_PLAN, PathOf(comps), names) == Ok(plan)
    requires FileOf(r, PathOf(comps), m).Some?
    ensures var f, path := FilesOf(plan, m), FileOf(r, PathOf(comps), m).value;
      exists mode | Promised(r.op, mode) ::
        OpenFile(path, mode) in FileList(f)
        && (r.op == "<" ==> f.hostStdin == Some(path))
        && (r.op in {">", ">>"} ==> Follow(f, 1, {}) == ToFile(path, mode))
        && (r.op in {"2>", "2>>"} ==> Follow(f, 2, {}) == ToFile(path, mode))
  {
    var f, path := FilesOf(plan, m), FileOf(r, PathOf(comps), m).value;
    var mode := if r.op == "<" then Read else if r.op in {">", "2>"} then Write else Append;
    assert ParsedRedirect(r);
    PlannedRedirect(specs, r, comps, names, plan);
    TargetIsPath(comps, r, names);
    assert Promised(r.op, mode);
    PlacedOpens(plan, SpecFd(r), path, mode, m);
  }

  /** A descriptor that is planned for a path ends in the file at its place. */
  lemma PlacedOpens(plan: Plan, fd: nat, path: string, mode: Mode, m: Mapping)
    requires fd <= 2 && Placed(fd, PlannedFor(plan, fd), m) == Some(path)
    requires mode == if fd == 0 then Read else if (if fd == 1 then plan.stdoutAppend else plan.stderrAppend) then Append
                     else Write
    ensures var f := FilesOf(plan, m);
      OpenFile(path, mode) in FileList(f)
      && (fd == 0 ==> f.hostStdin == Some(path))
      && (fd != 0 ==> Follow(f, fd, {}) == ToFile(path, mode))
  {
    var f := FilesOf(plan, m);
    assert fd == 0 ==> FileList(f)[0] == OpenFile(path, mode);
  }

  /** And nothing else is opened. */
  lemma OpenedIsRedirected(specs: seq<RedirectSpec>, o: OpenFile, comps: seq<string>, names: seq<string>, plan: Plan,
                           m: Mapping)
    requires GoodComps(comps, names) && AllParsed(specs)
    requires Apply(specs, {}, NO_PLAN, PathOf(comps), names) == Ok(plan) && o in FileList(FilesOf(plan, m))
    ensures exists r | r in specs ::
      FileRedirect(r.op) && Promised(r.op, o.mode) && FileOf(r, PathOf(comps), m) == Some(o.path)
  {
    var fd := OpenedBy(plan, o, m);
    var r := RedirectPlanned(specs, fd, comps, names, plan);
    PlannedRedirect(specs, r, comps, names, plan);
    assert FileRedirect(r.op) && Promised(r.op, o.mode) && FileOf(r, PathOf(comps), m) == Some(o.path);
  }

  lemma OpenedBy(plan: Plan, o: OpenFile, m: Mapping) returns (fd: nat)
    requires o in FileList(FilesOf(plan, m))
    ensures fd <= 2
    ensures var target := PlannedFor(plan, fd);
      target.Some? && !IsMarker(target) && Placed(fd, target, m) == Some(o.path)
      && o.mode == (if fd == 0 then Read
                    else if (if fd == 1 then plan.stdoutAppend else plan.stderrAppend) then Append else Write)
  {
    var f := FilesOf(plan, m);
    if f.hostStdin.Some? && o == OpenFile(f.hostStdin.value, Read) {
      fd := 0;
    } else if f.hostStdout.Some? && o == OpenFile(f.hostStdout.value, WriteMode(f.stdoutAppend)) {
      fd := 1;
    } else {
      fd := 2;
    }
  }

  predicate Writes(op: string) {
    op in {">", ">>", "2>", "2>>"}
  }

  /** A command is refused for its redirects' places exactly when one of them writes below a mount that
      is read-only and the first to cover it; reading there is allowed. */
  lemma RefusedIff(specs: seq<RedirectSpec>, comps: seq<string>, names: seq<string>, plan: Plan, m: Mapping)
    requires GoodComps(comps, names) && AllParsed(specs)
    requires Apply(specs, {}, NO_PLAN, PathOf(comps), names) == Ok(plan)
    ensures AnyRefused(plan, m) <==>
      exists r | r in specs && Writes(r.op) :: ReadOnlyAt(ResolveTarget(PathOf(comps), r.target), m)
  {
    var base := PathOf(comps);
    forall r | r in specs && Writes(r.op) && ReadOnlyAt(ResolveTarget(base, r.target), m)
      ensures AnyRefused(plan, m)
    {
      WriteRefused(specs, r, comps, names, plan, m);
    }
    if AnyRefused(plan, m) {
      var r := RefusedWrite(specs, comps, names, plan, m);
      assert r in specs && Writes(r.op) && ReadOnlyAt(ResolveTarget(base, r.target), m);
    }
  }

  lemma WriteRefused(specs: seq<RedirectSpec>, r: RedirectSpec, comps: seq<string>, names: seq<string>, plan: Plan,
                     m: Mapping)
    requires GoodComps(comps, names) && AllParsed(specs) && r in specs && Writes(r.op)
    requires Apply(specs, {}, NO_PLAN, PathOf(comps), names) == Ok(plan)
    requires ReadOnlyAt(ResolveTarget(PathOf(comps), r.target), m)
    ensures AnyRefused(plan, m)
  {
    assert ParsedRedirect(r);
    PlannedRedirect(specs, r, comps, names, plan);
    TargetIsPath(comps, r, names);
  }

  lemma RefusedWrite(specs: seq<RedirectSpec>, comps: seq<string>, names: seq<string>, plan: Plan, m: Mapping)
    returns (r: RedirectSpec)
    requires GoodComps(comps, names) && AllParsed(specs)
    requires Apply(specs, {}, NO_PLAN, PathOf(comps), names) == Ok(plan) && AnyRefused(plan, m)
    ensures r in specs && Writes(r.op) && ReadOnlyAt(ResolveTarget(PathOf(comps), r.target), m)
  {
    var fd := if Refused(1, plan.stdout, m) then 1 else 2;
    r := RedirectPlanned(specs, fd, comps, names, plan);
  }

  /** The first bind that covers the path is read-only. */
  predicate ReadOnlyAt(path: string, m: Mapping) {
    FirstBind(m.binds, NormPath(path)).Some? && FirstBind(m.binds, NormPath(path)).value.readOnly
  }

  /** `> file 2>&1` sends both streams to the file, and so does `2>&1 > file`. */
  lemma MergeTakesTheFile(specs: seq<RedirectSpec>, out: RedirectSpec, comps: seq<string>, names: seq<string>,
                          m: Mapping)
    requires GoodComps(comps, names) && (out.op == ">" || out.op == ">>") && out.fd == Some(1)
    requires FileOf(out, PathOf(comps), m).Some?
    requires multiset(specs) == multiset([out, RedirectSpec(Some(2), "2>&1", "1")])
    requires Allowed(out, PathOf(comps), names)
    ensures var r := Apply(specs, {}, NO_PLAN, PathOf(comps), names);
      r.Ok? &&
      var to := ToFile(FileOf(out, PathOf(comps), m).value, if out.op == ">>" then Append else Write);
      Follow(FilesOf(r.value, m), 1, {}) == to && Follow(FilesOf(r.value, m), 2, {}) == to
  {
    var merge := RedirectSpec(Some(2), "2>&1", "1");
    var pair := [out, merge];
    var base := PathOf(comps);
    MergeOps();
    SameMembers(specs, pair);
    forall i | 0 <= i < |specs|
      ensures ParsedRedirect(specs[i])
    {
      assert specs[i] in pair;
    }
    PathsAreNotMarkers(comps, out.target, names);
    OrderIsIrrelevant(pair, specs, base, names);
    ApplyIff(pair, {}, NO_PLAN, base, names);
    FindPair(out, merge);
  }

  lemma FindPair(out: RedirectSpec, merge: RedirectSpec)
    requires out.fd == Some(1) && merge.fd == Some(2)
    ensures Find([out, merge], 1) == Some(out) && Find([out, merge], 2) == Some(merge)
  {
    assert [out, merge][1..] == [merge] && [merge][1..] == [];
  }
}
