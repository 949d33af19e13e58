/** The `cd` builtin: working directories as text, against the walk over their components. */
module ChangeDir {
  import opened Wrappers
  import opened Seqs
  import opened WordParts
  import opened Syntax
  import opened Payload
  import opened PathWalk

  datatype Stage = Stage(command: string, output: string, rc: int)

  datatype CwdError = EmptyPath | RelativePath | OutsideRoots

  /** Python's `os.path.realpath` of an absolute path where nothing is a symbolic link. */
  function RealPath(path: string): string {
    PathOf(Walk([], Split(path)))
  }

  function ContainedPath(target: string, name: string): Option<string> {
    var resolved, root := RealPath(target), RealPath("/" + name);
    if resolved == root || root + "/" <= resolved then Some(resolved) else None
  }

  /** The first root that contains an absolute target. */
  function ContainedInAny(target: string, names: seq<string>): Option<string> {
    if names == [] then None
    else match ContainedPath(target, names[0])
      case Some(p) => Some(p)
      case None => ContainedInAny(target, names[1..])
  }

  function ValidateCwd(cwd: string, names: seq<string>): Result<string, CwdError> {
    if cwd == "" then Err(EmptyPath)
    else if !IsAbs(cwd) then Err(RelativePath)
    else match ContainedInAny(cwd, names)
      case Some(p) => Ok(p)
      case None => Err(OutsideRoots)
  }

  /** Where `cd target` leads from `cwd`. */
  function Resolved(cwd: string, target: string, names: seq<string>): Result<string, CwdError> {
    ValidateCwd(NormPath(if IsAbs(target) then target else JoinPath(cwd, target)), names)
  }

  function ErrorText(e: CwdError): string {
    match e
    case EmptyPath => "cwd must not be empty"
    case RelativePath => "cwd must be an absolute container path"
    case OutsideRoots => "cwd must be under one of the roots"
  }

  datatype Cd = NotCd | Moved(dir: string, stage: Stage) | Refused(stage: Stage)

  /** A pipeline of one command whose first word is `cd` is handled without a subprocess. */
  function TryCd(p: PipelineNode, env: Env, cwd: string, names: seq<string>): Cd {
    if |p.commands| != 1 then NotCd
    else
      var argv := Resolve(p.commands[0].argv, env);
      if argv == [] || argv[0] != "cd" then NotCd
      else if |argv| > 2 then Refused(Stage(JoinWith(argv, " "), "cd: too many arguments", 1))
      else if |argv| == 1 || argv[1] == "" then Refused(Stage("cd", "cd: no directory", 1))
      else match Resolved(cwd, argv[1], names)
        case Ok(dir) => Moved(dir, Stage("cd " + argv[1], "", 0))
        case Err(e) =>
          Refused(Stage("cd " + NormPath(if IsAbs(argv[1]) then argv[1] else JoinPath(cwd, argv[1])),
                        "cd: " + ErrorText(e), 1))
  }

  lemma ContainedIff(target: string, name: string)
    requires IsAbs(target) && Proper(name)
    ensures ContainedPath(target, name)
         == if Below(Walk([], Split(target)), name) then Some(RealPath(target)) else None
  {
    var w := Walk([], Split(target));
    NormAbs(target);
    assert PathOf([name]) == "/" + name;
    WalkPathOf([name]);
    PrefixIff(w, name);
    if PathOf(w) == PathOf([name]) {
      PathOfInjective(w, [name]);
    }
  }

  lemma ContainedInAnyIff(target: string, names: seq<string>)
    requires IsAbs(target) && AllProper(names)
    ensures ContainedInAny(target, names)
         == if InRoots(Walk([], Split(target)), names) then Some(RealPath(target)) else None
  {
    if names != [] {
      ContainedIff(target, names[0]);
      ContainedInAnyIff(target, names[1..]);
      var w := Walk([], Split(target));
      if InRoots(w, names) && !Below(w, names[0]) {
        var i :| 0 <= i < |names| && Below(w, names[i]);
        assert Below(w, names[1..][i - 1]);
      }
      if InRoots(w, names[1..]) {
        var i :| 0 <= i < |names[1..]| && Below(w, names[1..][i]);
        assert Below(w, names[i + 1]);
      }
    }
  }

  lemma WalkEmpty(comp: string, comps: seq<string>)
    requires comp == ""
    ensures Walk([], [comp] + comps) == Walk([], comps)
  {
    assert ([comp] + comps)[1..] == comps;
  }

  lemma SecondSlash(t: string)
    ensures Walk([], Split("//" + t)) == Walk([], Split("/" + t))
  {
    Uncons("//", t);
    SplitSlash("/" + t);
    WalkEmpty("", Split("/" + t));
  }

  /** Normalising an absolute path does not change where its walk ends. */
  lemma NormWalks(path: string)
    requires IsAbs(path)
    ensures IsAbs(NormPath(path)) && Walk([], Split(NormPath(path))) == Walk([], Split(path))
  {
    var w := Walk([], Split(path));
    NormAbs(path);
    WalkPathOf(w);
    if InitialSlashes(path) == 2 {
      SecondSlash(JoinWith(w, "/"));
    }
  }

  /**
   * `cd` succeeds exactly when the walk from the working directory lands on or below a root, and the
   * new directory is where it lands. Two leading slashes do no harm here, unlike in redirects.
   */
  lemma CdIsWalk(comps: seq<string>, target: string, names: seq<string>)
    requires GoodComps(comps, names)
    ensures var w := Reached(comps, target);
      Resolved(PathOf(comps), target, names) == (if InRoots(w, names) then Ok(PathOf(w)) else Err(OutsideRoots))
      && (InRoots(w, names) ==> GoodComps(w, names))
  {
    var path := if IsAbs(target) then target else JoinPath(PathOf(comps), target);
    ReachedProper(comps, target);
    JoinWalks(comps, target);
    NormWalks(path);
    ContainedInAnyIff(NormPath(path), names);
  }

  /** A single command whose first word is `cd`. */
  predicate IsCd(p: PipelineNode, env: Env) {
    |p.commands| == 1 && Resolve(p.commands[0].argv, env) != [] && Resolve(p.commands[0].argv, env)[0] == "cd"
  }

  /** The `cd` has one non-empty target, and the walk to it ends on or below a root. */
  predicate CdLands(p: PipelineNode, env: Env, comps: seq<string>, names: seq<string>)
    requires IsCd(p, env)
  {
    var argv := Resolve(p.commands[0].argv, env);
    |argv| == 2 && argv[1] != "" && InRoots(Reached(comps, argv[1]), names)
  }

  /** Where a `cd` that lands leads. */
  function CdPlace(p: PipelineNode, env: Env, comps: seq<string>, names: seq<string>): string
    requires IsCd(p, env) && CdLands(p, env, comps, names)
  {
    PathOf(Reached(comps, Resolve(p.commands[0].argv, env)[1]))
  }

  /** A `cd` that lands has status 0 and leads where the walk leads; any other one, with no target, too
      many, or one outside the roots, has status 1. Nothing else is taken for a `cd`. */
  lemma CdStatus(p: PipelineNode, env: Env, comps: seq<string>, names: seq<string>)
    requires GoodComps(comps, names)
    ensures TryCd(p, env, PathOf(comps), names).NotCd? <==> !IsCd(p, env)
    ensures IsCd(p, env) ==>
      match TryCd(p, env, PathOf(comps), names)
      case Moved(dir, stage) =>
        CdLands(p, env, comps, names) && stage.rc == 0 && dir == CdPlace(p, env, comps, names)
      case Refused(stage) => !CdLands(p, env, comps, names) && stage.rc == 1
      case NotCd => false
  {
    if IsCd(p, env) && |Resolve(p.commands[0].argv, env)| == 2 {
      CdIsWalk(comps, Resolve(p.commands[0].argv, env)[1], names);
    }
  }

  /** The working directory after one pipeline. */
  function NextCwd(p: PipelineNode, env: Env, cwd: string, names: seq<string>): string {
    match TryCd(p, env, cwd, names)
    case Moved(dir, _) => dir
    case _ => cwd
  }

  lemma CdKeepsGood(p: PipelineNode, env: Env, cwd: string, names: seq<string>)
    requires GoodCwd(cwd, names)
    ensures GoodCwd(NextCwd(p, env, cwd, names), names)
  {
    var comps :| GoodComps(comps, names) && cwd == PathOf(comps);
    if TryCd(p, env, cwd, names).Moved? {
      var target := Resolve(p.commands[0].argv, env)[1];
      CdIsWalk(comps, target, names);
      assert GoodComps(Reached(comps, target), names);
    }
  }

  /** After any chain of `cd`s. */
  function Chained(ps: seq<PipelineNode>, env: Env, cwd: string, names: seq<string>): string {
    if ps == [] then cwd else Chained(ps[1..], env, NextCwd(ps[0], env, cwd, names), names)
  }

  /** After any chain of `cd`s the working directory is absolute, normalised and under a root. */
  lemma {:induction false} CdChain(ps: seq<PipelineNode>, env: Env, cwd: string, names: seq<string>)
    requires GoodCwd(cwd, names)
    ensures GoodCwd(Chained(ps, env, cwd, names), names)
    decreases |ps|
  {
    if ps != [] {
      CdKeepsGood(ps[0], env, cwd, names);
      CdChain(ps[1..], env, NextCwd(ps[0], env, cwd, names), names);
    }
  }
}
