/**
 * Container paths as text: how they are normalised and tested by prefix, against the walk over
 * their components. No symbolic links.
 */
module PathWalk {
  import opened Seqs

  /** Python's `s.split("/")`. */
  function Split(s: string): (r: seq<string>)
    ensures r != []
  {
    if s == "" then [""]
    else
      var r := Split(s[1..]);
      if s[0] == '/' then [""] + r else [[s[0]] + r[0]] + r[1..]
  }

  predicate IsAbs(path: string) {
    path != "" && path[0] == '/'
  }

  /** How many slashes normalisation keeps in front: exactly two are special to POSIX. */
  function InitialSlashes(path: string): nat {
    if !IsAbs(path) then 0
    else if |path| > 1 && path[1] == '/' && (|path| == 2 || path[2] != '/') then 2
    else 1
  }

  /** The loop of `os.path.normpath` over the components. */
  function NormComps(slashes: nat, done: seq<string>, comps: seq<string>): seq<string>
    decreases |comps|
  {
    if comps == [] then done
    else if comps[0] == "" || comps[0] == "." then NormComps(slashes, done, comps[1..])
    else if comps[0] != ".." || (slashes == 0 && done == []) || (done != [] && done[|done| - 1] == "..") then
      NormComps(slashes, done + [comps[0]], comps[1..])
    else if done != [] then NormComps(slashes, done[..|done| - 1], comps[1..])
    else NormComps(slashes, done, comps[1..])
  }

  function Slashes(n: nat): string {
    if n == 0 then "" else if n == 1 then "/" else "//"
  }

  /** Python's `os.path.normpath` on POSIX. */
  function NormPath(path: string): string {
    if path == "" then "."
    else
      var n := InitialSlashes(path);
      var text := Slashes(n) + JoinWith(NormComps(n, [], Split(path)), "/");
      if text == "" then "." else text
  }

  /** Python's `os.path.join` of two paths. */
  function JoinPath(base: string, path: string): string {
    if IsAbs(path) then path
    else if base == "" || base[|base| - 1] == '/' then base + path
    else base + ("/" + path)
  }

  function IsUnder(path: string, root: string): bool {
    var norm, rootNorm := NormPath(path), NormPath(root);
    norm == rootNorm || rootNorm + "/" <= norm
  }

  /** The reference: go through the components one by one, never above the root directory. */
  function Walk(at: seq<string>, comps: seq<string>): seq<string>
    decreases |comps|
  {
    if comps == [] then at
    else if comps[0] == "" || comps[0] == "." then Walk(at, comps[1..])
    else if comps[0] == ".." then Walk(if at == [] then [] else at[..|at| - 1], comps[1..])
    else Walk(at + [comps[0]], comps[1..])
  }

  predicate Slashless(comp: string) {
    forall i :: 0 <= i < |comp| ==> comp[i] != '/'
  }

  /** A component that names something. */
  predicate Proper(comp: string) {
    comp != "" && Slashless(comp) && comp != "." && comp != ".."
  }

  predicate AllProper(comps: seq<string>) {
    forall i :: 0 <= i < |comps| ==> Proper(comps[i])
  }

  /** A normalised absolute path from its components. */
  function PathOf(comps: seq<string>): string {
    "/" + JoinWith(comps, "/")
  }

  lemma {:induction false} SplitSlashless(s: string, i: nat)
    requires i < |Split(s)|
    ensures Slashless(Split(s)[i])
  {
    if s != "" {
      var r := Split(s[1..]);
      if s[0] == '/' {
        if i > 0 {
          SplitSlashless(s[1..], i - 1);
        }
      } else {
        SplitSlashless(s[1..], i);
      }
    }
  }

  lemma SplitSlash(s: string)
    ensures Split("/" + s) == [""] + Split(s)
  {
    assert ("/" + s)[1..] == s;
  }

  lemma {:induction false} SplitFirst(comp: string, rest: string)
    requires Slashless(comp)
    ensures Split(comp + ("/" + rest)) == [comp] + Split(rest)
  {
    if comp == "" {
      Nothing("/" + rest);
      SplitSlash(rest);
    } else {
      Uncons(comp, "/" + rest);
      SplitFirst(comp[1..], rest);
      var t := comp[1..] + ("/" + rest);
      assert ([comp[0]] + t)[1..] == t;
      assert ([comp[1..]] + Split(rest))[1..] == Split(rest);
    }
  }

  lemma {:induction false} SplitOne(comp: string)
    requires Slashless(comp)
    ensures Split(comp) == [comp]
  {
    if comp != "" {
      SplitOne(comp[1..]);
      Uncons(comp, []);
    }
  }

  lemma {:induction false} SplitJoin(comps: seq<string>)
    requires comps != [] && forall i :: 0 <= i < |comps| ==> Slashless(comps[i])
    ensures Split(JoinWith(comps, "/")) == comps
  {
    if |comps| == 1 {
      SplitOne(comps[0]);
    } else {
      SplitJoin(comps[1..]);
      SplitFirst(comps[0], JoinWith(comps[1..], "/"));
      Uncons(comps, []);
    }
  }

  lemma {:induction false} WalkProper(at: seq<string>, comps: seq<string>)
    requires AllProper(at) && forall i :: 0 <= i < |comps| ==> Slashless(comps[i])
    ensures AllProper(Walk(at, comps))
    decreases |comps|
  {
    if comps != [] {
      if comps[0] == "" || comps[0] == "." {
        WalkProper(at, comps[1..]);
      } else if comps[0] == ".." {
        WalkProper(if at == [] then [] else at[..|at| - 1], comps[1..]);
      } else {
        WalkProper(at + [comps[0]], comps[1..]);
      }
    }
  }

  /** On an absolute path the loop of `normpath` is the walk. */
  lemma {:induction false} NormIsWalk(slashes: nat, at: seq<string>, comps: seq<string>)
    requires slashes > 0 && AllProper(at) && forall i :: 0 <= i < |comps| ==> Slashless(comps[i])
    ensures NormComps(slashes, at, comps) == Walk(at, comps)
    decreases |comps|
  {
    if comps != [] {
      if comps[0] == "" || comps[0] == "." {
        NormIsWalk(slashes, at, comps[1..]);
      } else if comps[0] == ".." {
        NormIsWalk(slashes, if at == [] then [] else at[..|at| - 1], comps[1..]);
      } else {
        NormIsWalk(slashes, at + [comps[0]], comps[1..]);
      }
    }
  }

  lemma NormAbs(path: string)
    requires IsAbs(path)
    ensures AllProper(Walk([], Split(path)))
    ensures NormPath(path) == Slashes(InitialSlashes(path)) + JoinWith(Walk([], Split(path)), "/")
  {
    forall i | 0 <= i < |Split(path)|
      ensures Slashless(Split(path)[i])
    {
      SplitSlashless(path, i);
    }
    WalkProper([], Split(path));
    NormIsWalk(InitialSlashes(path), [], Split(path));
  }

  lemma {:induction false} WalkOwn(at: seq<string>, comps: seq<string>)
    requires AllProper(comps)
    ensures Walk(at, comps) == at + comps
    decreases |comps|
  {
    if comps == [] {
      Nothing(at);
    } else {
      WalkOwn(at + [comps[0]], comps[1..]);
      Uncons(comps, []);
      Assoc(at, [comps[0]], comps[1..]);
    }
  }

  lemma JoinProper(comps: seq<string>)
    requires AllProper(comps) && comps != []
    ensures var t := JoinWith(comps, "/"); t != "" && t[0] != '/'
  {
    assert Proper(comps[0]);
  }

  /** The components of a normalised path are found again. */
  lemma WalkPathOf(comps: seq<string>)
    requires AllProper(comps)
    ensures IsAbs(PathOf(comps)) && InitialSlashes(PathOf(comps)) == 1
    ensures Walk([], Split(PathOf(comps))) == comps
  {
    var t := JoinWith(comps, "/");
    SplitSlash(t);
    if comps == [] {
      assert [""] + [""] == ["", ""] && ["", ""][1..] == [""] && [""][1..] == [];
    } else {
      JoinProper(comps);
      SplitJoin(comps);
      WalkOwn([], comps);
      assert ([""] + comps)[1..] == comps;
      Nothing(comps);
    }
  }

  /** Text and components determine each other. */
  lemma PathOfInjective(a: seq<string>, b: seq<string>)
    requires AllProper(a) && AllProper(b) && PathOf(a) == PathOf(b)
    ensures a == b
  {
    WalkPathOf(a);
    WalkPathOf(b);
  }

  /** On or below the directory `root` at the top. */
  predicate Below(comps: seq<string>, root: string) {
    comps != [] && comps[0] == root
  }

  lemma PrefixIff(w: seq<string>, root: string)
    requires AllProper(w) && Proper(root)
    ensures PathOf([root]) + "/" <= PathOf(w) <==> |w| > 1 && w[0] == root
  {
    var p := PathOf([root]) + "/";
    if |w| > 1 && w[0] == root {
      Assoc("/", root, "/" + JoinWith(w[1..], "/"));
      Assoc("/" + root, "/", JoinWith(w[1..], "/"));
      assert PathOf(w) == p + JoinWith(w[1..], "/");
    }
    if p <= PathOf(w) {
      var x := PathOf(w)[|p|..];
      assert PathOf(w) == p + x;
      Assoc("/" + root, "/", x);
      Assoc("/", root, "/" + x);
      assert JoinWith(w, "/") == PathOf(w)[1..] == root + ("/" + x);
      SplitFirst(root, x);
      assert w != [];
      SplitJoin(w);
    }
  }

  lemma RootNorm(root: string)
    requires Proper(root)
    ensures NormPath("/" + root) == "/" + root == PathOf([root])
  {
    WalkPathOf([root]);
    NormAbs(PathOf([root]));
  }

  /** Exactly two slashes in front. */
  predicate DoubleSlash(path: string) {
    |path| >= 2 && path[..2] == "//" && !(|path| >= 3 && path[2] == '/')
  }

  lemma SlashesInFront(path: string)
    requires IsAbs(path)
    ensures InitialSlashes(path) == if DoubleSlash(path) then 2 else 1
  {
    if |path| >= 2 { assert path[..2] == [path[0], path[1]]; }
  }

  /**
   * The prefix test on text is the walk on components, except that exactly two leading slashes are
   * kept by normalisation and then never match a root.
   */
  lemma UnderIff(path: string, root: string)
    requires IsAbs(path) && Proper(root)
    ensures IsUnder(path, "/" + root) <==> !DoubleSlash(path) && Below(Walk([], Split(path)), root)
    ensures InitialSlashes(path) == 1 <==> !DoubleSlash(path)
  {
    SlashesInFront(path);
    var w := Walk([], Split(path));
    NormAbs(path);
    RootNorm(root);
    if InitialSlashes(path) == 1 {
      PrefixIff(w, root);
      if NormPath(path) == "/" + root {
        PathOfInjective(w, [root]);
      }
    } else {
      TwoSlashes(JoinWith(w, "/"), root);
    }
  }

  lemma TwoSlashes(t: string, root: string)
    requires Proper(root)
    ensures "//" + t != "/" + root && !(("/" + root) + "/" <= "//" + t)
  {
    assert ("//" + t)[1] == '/' && ("/" + root)[1] == root[0] != '/';
    assert (("/" + root) + "/")[1] == root[0];
  }

  /** The names of the roots commands may use, `/workspace` and `/tmp`. */
  const ROOT_NAMES: seq<string> := ["workspace", "tmp"]

  lemma RootNamesProper()
    ensures AllProper(ROOT_NAMES)
  {
    var w, t := "workspace", "tmp";
    assert Proper(w) && Proper(t) && ROOT_NAMES == [w, t];
  }

  /** The redirect check: a relative target is taken from the working directory first. */
  function ResolveTarget(base: string, target: string): string {
    if base != "" && !IsAbs(target) then NormPath(JoinPath(base, target)) else target
  }

  predicate ValidTarget(target: string, names: seq<string>) {
    exists i :: 0 <= i < |names| && IsUnder(target, "/" + names[i])
  }

  /** What a walk from the working directory's components reaches. */
  function Reached(base: seq<string>, target: string): seq<string> {
    Walk(if IsAbs(target) then [] else base, Split(target))
  }

  predicate InRoots(comps: seq<string>, names: seq<string>) {
    exists i :: 0 <= i < |names| && Below(comps, names[i])
  }

  predicate GoodComps(comps: seq<string>, names: seq<string>) {
    AllProper(comps) && AllProper(names) && InRoots(comps, names)
  }

  /** A working directory as the executor keeps it: absolute, normalised and under a root. */
  ghost predicate GoodCwd(cwd: string, names: seq<string>) {
    exists comps :: GoodComps(comps, names) && cwd == PathOf(comps)
  }

  lemma {:induction false} WalkConcat(at: seq<string>, a: seq<string>, b: seq<string>)
    ensures Walk(at, a + b) == Walk(Walk(at, a), b)
    decreases |a|
  {
    if a == [] {
      Nothing(b);
    } else {
      assert (a + b)[1..] == a[1..] + b;
      if a[0] == "" || a[0] == "." {
        WalkConcat(at, a[1..], b);
      } else if a[0] == ".." {
        WalkConcat(if at == [] then [] else at[..|at| - 1], a[1..], b);
      } else {
        WalkConcat(at + [a[0]], a[1..], b);
      }
    }
  }

  lemma {:induction false} SplitOver(comps: seq<string>, target: string)
    requires comps != [] && forall i :: 0 <= i < |comps| ==> Slashless(comps[i])
    ensures Split(JoinWith(comps, "/") + ("/" + target)) == comps + Split(target)
  {
    if |comps| == 1 {
      SplitFirst(comps[0], target);
    } else {
      var t := JoinWith(comps[1..], "/");
      SplitOver(comps[1..], target);
      SplitFirst(comps[0], t + ("/" + target));
      Assoc("/", t, "/" + target);
      Assoc(comps[0], "/" + t, "/" + target);
      Uncons(comps, Split(target));
    }
  }

  /** Joining a relative path onto a good directory and walking is walking on from its components. */
  lemma JoinWalks(comps: seq<string>, target: string)
    requires AllProper(comps) && comps != []
    ensures var p := JoinPath(PathOf(comps), target);
      IsAbs(p) && Walk([], Split(p)) == Reached(comps, target)
      && (!IsAbs(target) ==> InitialSlashes(p) == 1)
  {
    var t := JoinWith(comps, "/");
    JoinProper(comps);
    if !IsAbs(target) {
      LastChar(comps);
      assert PathOf(comps)[|PathOf(comps)| - 1] == t[|t| - 1];
      Assoc("/", t, "/" + target);
      var u := t + ("/" + target);
      assert JoinPath(PathOf(comps), target) == "/" + u;
      assert ("/" + u)[1] == t[0];
      SplitSlash(u);
      SplitOver(comps, target);
      WalkConcat([], comps, Split(target));
      WalkOwn([], comps);
      Nothing(comps);
      assert ([""] + (comps + Split(target)))[1..] == comps + Split(target);
    }
  }

  lemma LastChar(comps: seq<string>)
    requires AllProper(comps) && comps != []
    ensures var t := JoinWith(comps, "/"); t != "" && t[|t| - 1] != '/'
  {
    assert Proper(comps[0]);
    if |comps| > 1 {
      LastChar(comps[1..]);
    }
  }

  lemma ReachedProper(comps: seq<string>, target: string)
    requires AllProper(comps)
    ensures AllProper(Reached(comps, target))
  {
    forall i | 0 <= i < |Split(target)|
      ensures Slashless(Split(target)[i])
    {
      SplitSlashless(target, i);
    }
    WalkProper(if IsAbs(target) then [] else comps, Split(target));
  }

  lemma ValidIff(path: string, names: seq<string>)
    requires IsAbs(path) && AllProper(names)
    ensures ValidTarget(path, names) <==> !DoubleSlash(path) && InRoots(Walk([], Split(path)), names)
  {
    forall i | 0 <= i < |names|
      ensures IsUnder(path, "/" + names[i]) <==> !DoubleSlash(path) && Below(Walk([], Split(path)), names[i])
    {
      UnderIff(path, names[i]);
    }
  }

  /**
   * A redirect target is accepted exactly when walking its components from the working directory
   * lands on or below a root; an absolute target that starts with exactly two slashes never is.
   */
  lemma RedirectTargetIff(comps: seq<string>, target: string, names: seq<string>)
    requires GoodComps(comps, names)
    ensures ValidTarget(ResolveTarget(PathOf(comps), target), names)
       <==> InRoots(Reached(comps, target), names) && !DoubleSlash(target)
  {
    var w := Reached(comps, target);
    ReachedProper(comps, target);
    JoinWalks(comps, target);
    if IsAbs(target) {
      ValidIff(target, names);
    } else {
      NormAbs(JoinPath(PathOf(comps), target));
      WalkPathOf(w);
      SlashesInFront(PathOf(w));
      ValidIff(PathOf(w), names);
      RelativeHasNone(target);
    }
  }

  lemma RelativeHasNone(target: string)
    requires !IsAbs(target)
    ensures !DoubleSlash(target)
  {
    if |target| >= 2 { assert target[..2][0] == target[0]; }
  }
}
