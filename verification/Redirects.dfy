/** Planning the redirects of a command, and why their order cannot matter. */
module Redirects {
  import opened Wrappers
  import opened Seqs
  import opened Syntax
  import opened ParsedNodes
  import opened PathWalk

  /** A path, or the marker `&1` or `&2` of a merge. */
  datatype Plan = Plan(stdin: Option<string>, stdout: Option<string>, stderr: Option<string>,
                       stdoutAppend: bool, stderrAppend: bool)

  const NO_PLAN := Plan(None, None, None, false, false)

  datatype PlanError = Duplicate(fd: nat) | Escapes(target: string) | UnsupportedFd(fd: nat) | UnsupportedOp(op: string)

  function SpecFd(r: RedirectSpec): nat {
    match r.fd
    case Some(fd) => fd
    case None => if r.op == "<" then 0 else 1
  }

  predicate FileRedirect(op: string) {
    op == "<" || op == ">" || op == ">>" || op == "2>" || op == "2>>"
  }

  /** What one redirect does to the plan, its descriptor being free. */
  function Step(plan: Plan, r: RedirectSpec, base: string, names: seq<string>): Result<Plan, PlanError> {
    if FileRedirect(r.op) then
      var target := ResolveTarget(base, r.target);
      if !ValidTarget(target, names) then Err(Escapes(target))
      else if r.op == "<" then Ok(plan.(stdin := Some(target)))
      else if SpecFd(r) == 1 then Ok(plan.(stdout := Some(target), stdoutAppend := r.op == ">>"))
      else if SpecFd(r) == 2 then Ok(plan.(stderr := Some(target), stderrAppend := r.op == "2>>"))
      else Err(UnsupportedFd(SpecFd(r)))
    else if r.op == "1>&2" then Ok(plan.(stdout := Some("&2")))
    else if r.op == "2>&1" then Ok(plan.(stderr := Some("&1")))
    else Err(UnsupportedOp(r.op))
  }

  function Apply(specs: seq<RedirectSpec>, used: set<nat>, plan: Plan, base: string, names: seq<string>)
    : Result<Plan, PlanError>
    decreases |specs|
  {
    if specs == [] then Ok(plan)
    else
      var fd := SpecFd(specs[0]);
      if fd in used then Err(Duplicate(fd))
      else match Step(plan, specs[0], base, names)
        case Err(e) => Err(e)
        case Ok(next) => Apply(specs[1..], used + {fd}, next, base, names)
  }

  class FdPlan {
    var stdin: Option<string>
    var stdout: Option<string>
    var stderr: Option<string>
    var stdoutAppend: bool
    var stderrAppend: bool

    constructor ()
      ensures Value() == NO_PLAN
    {
      stdin, stdout, stderr := None, None, None;
      stdoutAppend, stderrAppend := false, false;
    }

    function Value(): Plan
      reads this
    {
      Plan(stdin, stdout, stderr, stdoutAppend, stderrAppend)
    }

    method Add(r: RedirectSpec, base: string, names: seq<string>) returns (error: Option<PlanError>)
      modifies this
      ensures match old(Step(Value(), r, base, names))
              case Ok(plan) => error == None && Value() == plan
              case Err(e) => error == Some(e)
    {
      var fd := SpecFd(r);
      if r.op == "<" || r.op == ">" || r.op == ">>" || r.op == "2>" || r.op == "2>>" {
        var target := ResolveTarget(base, r.target);
        if !ValidTarget(target, names) {
          return Some(Escapes(target));
        }
        if r.op == "<" {
          stdin := Some(target);
        } else if fd == 1 {
          stdout := Some(target);
          stdoutAppend := r.op == ">>";
        } else if fd == 2 {
          stderr := Some(target);
          stderrAppend := r.op == "2>>";
        } else {
          return Some(UnsupportedFd(fd));
        }
      } else if r.op == "1>&2" {
        stdout := Some("&2");
      } else if r.op == "2>&1" {
        stderr := Some("&1");
      } else {
        return Some(UnsupportedOp(r.op));
      }
      error := None;
    }
  }

  /** The loop over the specs, with the set of descriptors already used. */
  method PlanRedirects(specs: seq<RedirectSpec>, base: string, names: seq<string>)
    returns (r: Result<FdPlan, PlanError>)
    ensures match Apply(specs, {}, NO_PLAN, base, names)
            case Ok(plan) => r.Ok? && fresh(r.value) && r.value.Value() == plan
            case Err(e) => r == Err(e)
  {
    var plan := new FdPlan();
    var used: set<nat> := {};
    for i := 0 to |specs|
      invariant fresh(plan)
      invariant Apply(specs[i..], used, plan.Value(), base, names) == Apply(specs, {}, NO_PLAN, base, names)
    {
      Drop2(specs, i, 1);
      var fd := SpecFd(specs[i]);
      if fd in used {
        return Err(Duplicate(fd));
      }
      used := used + {fd};
      var error := plan.Add(specs[i], base, names);
      if error.Some? {
        return Err(error.value);
      }
    }
    r := Ok(plan);
  }

  /** The redirect of a descriptor, if it has one. */
  function Find(specs: seq<RedirectSpec>, fd: nat): Option<RedirectSpec> {
    if specs == [] then None
    else if SpecFd(specs[0]) == fd then Some(specs[0])
    else Find(specs[1..], fd)
  }

  predicate AllParsed(specs: seq<RedirectSpec>) {
    forall i :: 0 <= i < |specs| ==> ParsedRedirect(specs[i])
  }

  predicate DistinctFds(specs: seq<RedirectSpec>) {
    forall i, j :: 0 <= i < j < |specs| ==> SpecFd(specs[i]) != SpecFd(specs[j])
  }

  predicate Allowed(r: RedirectSpec, base: string, names: seq<string>) {
    FileRedirect(r.op) ==> ValidTarget(ResolveTarget(base, r.target), names)
  }

  predicate AllAllowed(specs: seq<RedirectSpec>, base: string, names: seq<string>) {
    forall i :: 0 <= i < |specs| ==> Allowed(specs[i], base, names)
  }

  predicate AllFree(specs: seq<RedirectSpec>, used: set<nat>) {
    forall i :: 0 <= i < |specs| ==> SpecFd(specs[i]) !in used
  }

  function Target(r: RedirectSpec, base: string): string {
    if r.op == "1>&2" then "&2" else if r.op == "2>&1" then "&1" else ResolveTarget(base, r.target)
  }

  /** A plan from the redirect of each descriptor, whatever their order. */
  function Filled(plan: Plan, specs: seq<RedirectSpec>, base: string): Plan {
    var i, o, e := Find(specs, 0), Find(specs, 1), Find(specs, 2);
    Plan(if i.Some? then Some(Target(i.value, base)) else plan.stdin,
         if o.Some? then Some(Target(o.value, base)) else plan.stdout,
         if e.Some? then Some(Target(e.value, base)) else plan.stderr,
         if o.Some? && FileRedirect(o.value.op) then o.value.op == ">>" else plan.stdoutAppend,
         if e.Some? && FileRedirect(e.value.op) then e.value.op == "2>>" else plan.stderrAppend)
  }

  lemma FindOne(r: RedirectSpec, fd: nat)
    ensures Find([r], fd) == if SpecFd(r) == fd then Some(r) else None
  {
    assert [r][1..] == [];
  }

  lemma MergeOps()
    ensures !FileRedirect("1>&2") && !FileRedirect("2>&1")
  {
    assert |"1>&2"| == 4 && |"2>&1"| == 4;
  }

  lemma StepParsed(plan: Plan, r: RedirectSpec, base: string, names: seq<string>)
    requires ParsedRedirect(r)
    ensures Step(plan, r, base, names) == if Allowed(r, base, names) then Ok(Filled(plan, [r], base))
                                          else Err(Escapes(ResolveTarget(base, r.target)))
    ensures SpecFd(r) <= 2
  {
    MergeOps();
    FindOne(r, 0);
    FindOne(r, 1);
    FindOne(r, 2);
  }

  lemma FindFresh(specs: seq<RedirectSpec>, fd: nat)
    requires AllFree(specs, {fd})
    ensures Find(specs, fd) == None
  {
  }

  lemma FilledFirst(plan: Plan, specs: seq<RedirectSpec>, base: string)
    requires specs != [] && AllFree(specs[1..], {SpecFd(specs[0])})
    ensures Filled(Filled(plan, [specs[0]], base), specs[1..], base) == Filled(plan, specs, base)
  {
    FindOne(specs[0], 0);
    FindOne(specs[0], 1);
    FindOne(specs[0], 2);
    FindFresh(specs[1..], SpecFd(specs[0]));
  }

  /** Exactly when planning succeeds, and that the plan depends only on each descriptor's redirect. */
  lemma {:induction false} ApplyIff(specs: seq<RedirectSpec>, used: set<nat>, plan: Plan, base: string,
                                    names: seq<string>)
    requires AllParsed(specs)
    ensures var ok := DistinctFds(specs) && AllFree(specs, used) && AllAllowed(specs, base, names);
      if ok then Apply(specs, used, plan, base, names) == Ok(Filled(plan, specs, base))
      else Apply(specs, used, plan, base, names).Err?
    decreases |specs|
  {
    if specs != [] {
      var r, rest := specs[0], specs[1..];
      StepParsed(plan, r, base, names);
      if SpecFd(r) !in used && Allowed(r, base, names) {
        ApplyIff(rest, used + {SpecFd(r)}, Filled(plan, [r], base), base, names);
        Splits(specs, used, base, names);
        if AllFree(rest, {SpecFd(r)}) {
          FilledFirst(plan, specs, base);
        }
      }
    }
  }

  lemma Splits(specs: seq<RedirectSpec>, used: set<nat>, base: string, names: seq<string>)
    requires specs != []
    ensures var r, rest := specs[0], specs[1..];
      (DistinctFds(specs) && AllFree(specs, used) && AllAllowed(specs, base, names))
      <==> (SpecFd(r) !in used && Allowed(r, base, names) && AllFree(rest, {SpecFd(r)})
            && DistinctFds(rest) && AllFree(rest, used + {SpecFd(r)}) && AllAllowed(rest, base, names))
  {
    var r, rest := specs[0], specs[1..];
    if DistinctFds(rest) && AllFree(rest, {SpecFd(r)}) {
      forall i, j | 0 <= i < j < |specs|
        ensures SpecFd(specs[i]) != SpecFd(specs[j])
      {
        assert specs[j] == rest[j - 1];
        if i > 0 {
          assert specs[i] == rest[i - 1];
        }
      }
    }
    if AllFree(rest, used + {SpecFd(r)}) && SpecFd(r) !in used {
      forall i | 0 <= i < |specs|
        ensures SpecFd(specs[i]) !in used
      {
        if i > 0 {
          assert specs[i] == rest[i - 1];
        }
      }
    }
    if AllAllowed(rest, base, names) && Allowed(r, base, names) {
      forall i | 0 <= i < |specs|
        ensures Allowed(specs[i], base, names)
      {
        if i > 0 {
          assert specs[i] == rest[i - 1];
        }
      }
    }
  }

  lemma FindMember(specs: seq<RedirectSpec>, fd: nat)
    ensures Find(specs, fd).Some? ==> Find(specs, fd).value in specs && SpecFd(Find(specs, fd).value) == fd
    ensures Find(specs, fd).None? ==> forall r :: r in specs ==> SpecFd(r) != fd
  {
    if specs != [] && SpecFd(specs[0]) != fd {
      FindMember(specs[1..], fd);
    }
  }

  lemma {:induction false} DistinctCount(specs: seq<RedirectSpec>, r: RedirectSpec)
    requires DistinctFds(specs)
    ensures multiset(specs)[r] <= 1
  {
    if specs != [] {
      Uncons(specs, []);
      assert multiset(specs) == multiset{specs[0]} + multiset(specs[1..]);
      DistinctCount(specs[1..], r);
      if r == specs[0] {
        assert r !in specs[1..];
      }
    }
  }

  lemma TwiceCount(specs: seq<RedirectSpec>, i: nat, j: nat)
    requires i < j < |specs| && specs[i] == specs[j]
    ensures multiset(specs)[specs[i]] >= 2
  {
    assert specs == specs[..j] + specs[j..];
    assert specs[i] in specs[..j] && specs[j] == specs[j..][0];
  }

  lemma SameMembers(a: seq<RedirectSpec>, b: seq<RedirectSpec>)
    requires multiset(a) == multiset(b)
    ensures forall r :: r in a <==> r in b
  {
    assert forall r :: r in a <==> r in multiset(a);
    assert forall r :: r in b <==> r in multiset(b);
  }

  lemma DistinctPermuted(a: seq<RedirectSpec>, b: seq<RedirectSpec>)
    requires multiset(a) == multiset(b) && DistinctFds(a)
    ensures DistinctFds(b)
  {
    SameMembers(a, b);
    forall i, j | 0 <= i < j < |b|
      ensures SpecFd(b[i]) != SpecFd(b[j])
    {
      if b[i] == b[j] {
        TwiceCount(b, i, j);
        DistinctCount(a, b[i]);
      } else {
        assert b[i] in a && b[j] in a;
      }
    }
  }

  lemma FindPermuted(a: seq<RedirectSpec>, b: seq<RedirectSpec>, fd: nat)
    requires multiset(a) == multiset(b) && DistinctFds(a)
    ensures Find(a, fd) == Find(b, fd)
  {
    SameMembers(a, b);
    FindMember(a, fd);
    FindMember(b, fd);
  }

  lemma AllowedPermuted(a: seq<RedirectSpec>, b: seq<RedirectSpec>, base: string, names: seq<string>)
    requires multiset(a) == multiset(b) && AllAllowed(a, base, names)
    ensures AllAllowed(b, base, names)
  {
    SameMembers(a, b);
    forall i | 0 <= i < |b|
      ensures Allowed(b[i], base, names)
    {
      assert b[i] in a;
    }
  }

  /** Any order of a command's redirects is planned the same way, or refused in every order. */
  lemma OrderIsIrrelevant(a: seq<RedirectSpec>, b: seq<RedirectSpec>, base: string, names: seq<string>)
    requires multiset(a) == multiset(b) && AllParsed(a) && AllParsed(b)
    ensures Apply(a, {}, NO_PLAN, base, names).Ok? <==> Apply(b, {}, NO_PLAN, base, names).Ok?
    ensures Apply(a, {}, NO_PLAN, base, names).Ok? ==>
            Apply(a, {}, NO_PLAN, base, names) == Apply(b, {}, NO_PLAN, base, names)
  {
    ApplyIff(a, {}, NO_PLAN, base, names);
    ApplyIff(b, {}, NO_PLAN, base, names);
    if DistinctFds(a) && AllAllowed(a, base, names) {
      DistinctPermuted(a, b);
      AllowedPermuted(a, b, base, names);
      FindPermuted(a, b, 0);
      FindPermuted(a, b, 1);
      FindPermuted(a, b, 2);
    }
    if DistinctFds(b) && AllAllowed(b, base, names) {
      DistinctPermuted(b, a);
      AllowedPermuted(b, a, base, names);
    }
  }

  /** For what the parser returns, two of the four ways to refuse cannot happen. */
  lemma {:induction false} NeverUnsupported(specs: seq<RedirectSpec>, used: set<nat>, plan: Plan, base: string,
                                            names: seq<string>)
    requires AllParsed(specs)
    ensures var r := Apply(specs, used, plan, base, names); r.Err? ==> r.error.Duplicate? || r.error.Escapes?
    decreases |specs|
  {
    if specs != [] {
      StepParsed(plan, specs[0], base, names);
      if SpecFd(specs[0]) !in used && Allowed(specs[0], base, names) {
        NeverUnsupported(specs[1..], used + {SpecFd(specs[0])}, Filled(plan, [specs[0]], base), base, names);
      }
    }
  }

  /** A planned path is absolute, so it is never taken for a merge marker, whatever the target was. */
  lemma PathsAreNotMarkers(comps: seq<string>, target: string, names: seq<string>)
    requires GoodComps(comps, names)
    ensures IsAbs(ResolveTarget(PathOf(comps), target))
    ensures ResolveTarget(PathOf(comps), target) != "&1" && ResolveTarget(PathOf(comps), target) != "&2"
  {
    JoinWalks(comps, target);
    if !IsAbs(target) {
      NormAbs(JoinPath(PathOf(comps), target));
    }
  }
}
