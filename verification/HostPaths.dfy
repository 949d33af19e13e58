/** Where a container path lives on the host: bind mounts first, then the workspace, then `/tmp`. */
module HostPaths {
  import opened Wrappers
  import opened Seqs
  import opened PathWalk

  datatype Bind = Bind(mountPoint: string, hostPath: string, readOnly: bool)

  /** `TempFile` is a fresh host file that is bound over the path inside the container. */
  datatype Host = HostPath(path: string) | Denied(path: string) | TempFile(path: string, mount: string) | NoRoot

  predicate Covers(norm: string, mount: string) {
    norm == mount || mount + "/" <= norm
  }

  function CommonLen(a: seq<string>, b: seq<string>): (n: nat)
    ensures n <= |a| && n <= |b| && a[..n] == b[..n]
  {
    if a == [] || b == [] || a[0] != b[0] then 0 else 1 + CommonLen(a[1..], b[1..])
  }

  function Ups(n: nat): seq<string> {
    if n == 0 then [] else [".."] + Ups(n - 1)
  }

  /** Python's `os.path.relpath` of absolute paths. */
  function RelPath(path: string, start: string): string {
    var p, s := Walk([], Split(path)), Walk([], Split(start));
    var i := CommonLen(s, p);
    var rel := Ups(|s| - i) + p[i..];
    if rel == [] then "." else JoinWith(rel, "/")
  }

  /** The first bind that covers the path, not the innermost one. */
  function FirstBind(binds: seq<Bind>, norm: string): Option<Bind> {
    if binds == [] then None
    else if Covers(norm, NormPath(binds[0].mountPoint)) then Some(binds[0])
    else FirstBind(binds[1..], norm)
  }

  function HostFor(container: string, write: bool, binds: seq<Bind>, workspace: string, work: string, tmp: string,
                   temp: string): Host {
    var norm := NormPath(container);
    match FirstBind(binds, norm)
    case Some(b) =>
      var host := JoinPath(b.hostPath, RelPath(norm, NormPath(b.mountPoint)));
      if write && b.readOnly then Denied(host) else HostPath(host)
    case None =>
      if Covers(norm, "/" + work) then HostPath(JoinPath(workspace, RelPath(norm, "/" + work)))
      else if Covers(norm, "/" + tmp) then TempFile(temp, JoinPath("/" + tmp, RelPath(norm, "/" + tmp)))
      else NoRoot
  }

  method FindBind(binds: seq<Bind>, norm: string) returns (found: Option<Bind>)
    ensures found == FirstBind(binds, norm)
  {
    for i := 0 to |binds|
      invariant FirstBind(binds[i..], norm) == FirstBind(binds, norm)
    {
      Drop2(binds, i, 1);
      if Covers(norm, NormPath(binds[i].mountPoint)) {
        return Some(binds[i]);
      }
    }
    found := None;
  }

  lemma CommonPrefix(s: seq<string>, rest: seq<string>)
    ensures CommonLen(s, s + rest) == |s|
  {
    if s != [] {
      assert (s + rest)[1..] == s[1..] + rest;
      CommonPrefix(s[1..], rest);
    }
  }

  /** Below a directory the relative path is what comes after it. */
  lemma RelBelow(path: string, start: string, rest: seq<string>)
    requires Walk([], Split(path)) == Walk([], Split(start)) + rest
    ensures RelPath(path, start) == if rest == [] then "." else JoinWith(rest, "/")
  {
    var s := Walk([], Split(start));
    CommonPrefix(s, rest);
    assert (s + rest)[|s|..] == rest;
    Nothing(rest);
  }

  /** A target that passed the check has a place: the "should not happen" case cannot. */
  lemma CheckedHasHost(path: string, write: bool, binds: seq<Bind>, workspace: string, work: string, tmp: string,
                       temp: string)
    requires IsAbs(path) && Proper(work) && Proper(tmp) && ValidTarget(path, [work, tmp])
    ensures HostFor(path, write, binds, workspace, work, tmp, temp) != NoRoot
  {
    var i :| 0 <= i < |[work, tmp]| && IsUnder(path, "/" + [work, tmp][i]);
    RootNorm(work);
    RootNorm(tmp);
  }

  lemma FirstBindCovers(binds: seq<Bind>, norm: string)
    ensures FirstBind(binds, norm).Some? ==>
      FirstBind(binds, norm).value in binds && Covers(norm, NormPath(FirstBind(binds, norm).value.mountPoint))
    ensures FirstBind(binds, norm).None? ==>
      forall i :: 0 <= i < |binds| ==> !Covers(norm, NormPath(binds[i].mountPoint))
  {
    if binds != [] {
      FirstBindCovers(binds[1..], norm);
      assert forall i :: 0 < i < |binds| ==> binds[i] == binds[1..][i - 1];
    }
  }

  lemma WalkDot(at: seq<string>, dot: string)
    requires dot == "."
    ensures Walk(at, [dot]) == at
  {
    assert [dot][1..] == [];
  }

  /** A relative path of proper components, joined to a directory and walked. */
  lemma JoinedWalk(dir: seq<string>, rest: seq<string>)
    requires AllProper(dir) && dir != [] && AllProper(rest)
    ensures var h := JoinPath(PathOf(dir), if rest == [] then "." else JoinWith(rest, "/"));
      IsAbs(h) && Walk([], Split(h)) == dir + rest
  {
    var target := if rest == [] then "." else JoinWith(rest, "/");
    JoinWalks(dir, target);
    if rest == [] {
      SplitOne(target);
      WalkDot(dir, target);
      Nothing(dir);
    } else {
      JoinProper(rest);
      SplitJoin(rest);
      WalkOwn(dir, rest);
    }
  }

  /** On normalised paths, covering is having the mount point's components in front. */
  lemma CoversIsPrefix(w: seq<string>, m: seq<string>)
    requires AllProper(w) && AllProper(m)
    ensures Covers(PathOf(w), PathOf(m)) <==> (m == [] ==> w == []) && m <= w
  {
    if m != [] && m < w { AboveMount(w, m); }
    if m == [] && w != [] {
      JoinProper(w);
      assert PathOf(w)[1] == JoinWith(w, "/")[0] && PathOf(m) == "/" && ("/" + "/")[1] == '/';
    }
    if PathOf(w) == PathOf(m) {
      PathOfInjective(w, m);
    } else if PathOf(m) + "/" <= PathOf(w) {
      BelowMount(w, m);
      assert m == [] ==> w == [];
    } else {
      assert w != m;
      assert m <= w ==> m < w;
    }
  }

  lemma {:induction false} JoinFront(m: seq<string>, rest: seq<string>)
    requires m != [] && rest != []
    ensures JoinWith(m + rest, "/") == JoinWith(m, "/") + ("/" + JoinWith(rest, "/"))
  {
    if |m| == 1 {
      Uncons(m, rest);
      assert (m + rest)[1..] == rest;
    } else {
      Uncons(m, rest);
      assert (m + rest)[1..] == m[1..] + rest;
      JoinFront(m[1..], rest);
      Assoc(m[0], "/" + JoinWith(m[1..], "/"), "/" + JoinWith(rest, "/"));
      Assoc("/", JoinWith(m[1..], "/"), "/" + JoinWith(rest, "/"));
    }
  }

  lemma AboveMount(w: seq<string>, m: seq<string>)
    requires m != [] && m < w
    ensures PathOf(m) + "/" <= PathOf(w)
  {
    var rest := w[|m|..];
    assert w == m + rest;
    JoinFront(m, rest);
    var t := JoinWith(rest, "/");
    assert PathOf(w) == PathOf(m) + "/" + t;
  }

  /** The components of a mount point. */
  function MountComps(b: Bind): seq<string> {
    Walk([], Split(b.mountPoint))
  }

  /** The bind that is found is the first whose mount point's components the path's begin with. */
  lemma {:induction false} FirstBindIff(binds: seq<Bind>, path: string)
    requires IsAbs(path) && !DoubleSlash(path)
    requires forall i :: 0 <= i < |binds| ==>
      IsAbs(binds[i].mountPoint) && !DoubleSlash(binds[i].mountPoint) && MountComps(binds[i]) != []
    ensures match FirstBind(binds, NormPath(path))
            case None => forall i :: 0 <= i < |binds| ==> !(MountComps(binds[i]) <= Walk([], Split(path)))
            case Some(b) => exists i | 0 <= i < |binds| ::
              binds[i] == b && MountComps(b) <= Walk([], Split(path))
              && forall j :: 0 <= j < i ==> !(MountComps(binds[j]) <= Walk([], Split(path)))
  {
    if binds != [] {
      var w := Walk([], Split(path));
      SlashesInFront(path);
      SlashesInFront(binds[0].mountPoint);
      NormOne(path);
      NormOne(binds[0].mountPoint);
      CoversIsPrefix(w, MountComps(binds[0]));
      FirstBindIff(binds[1..], path);
      if !(MountComps(binds[0]) <= w) {
        LaterBind(binds, path);
      }
    }
  }

  lemma LaterBind(binds: seq<Bind>, path: string)
    requires binds != [] && !(MountComps(binds[0]) <= Walk([], Split(path)))
    requires var w, rest := Walk([], Split(path)), binds[1..];
      match FirstBind(rest, NormPath(path))
      case None => forall i :: 0 <= i < |rest| ==> !(MountComps(rest[i]) <= w)
      case Some(b) => exists i | 0 <= i < |rest| ::
        rest[i] == b && MountComps(b) <= w && forall j :: 0 <= j < i ==> !(MountComps(rest[j]) <= w)
    ensures var w := Walk([], Split(path));
      match FirstBind(binds[1..], NormPath(path))
      case None => forall i :: 0 <= i < |binds| ==> !(MountComps(binds[i]) <= w)
      case Some(b) => exists i | 0 <= i < |binds| ::
        binds[i] == b && MountComps(b) <= w && forall j :: 0 <= j < i ==> !(MountComps(binds[j]) <= w)
  {
    var w, rest := Walk([], Split(path)), binds[1..];
    match FirstBind(rest, NormPath(path))
    case None =>
      forall i | 0 <= i < |binds| ensures !(MountComps(binds[i]) <= w) {
        if i > 0 { assert rest[i - 1] == binds[i]; }
      }
    case Some(b) =>
      var i :| 0 <= i < |rest| && rest[i] == b && MountComps(b) <= w
               && forall j :: 0 <= j < i ==> !(MountComps(rest[j]) <= w);
      assert binds[i + 1] == b;
      forall j | 0 <= j < i + 1 ensures !(MountComps(binds[j]) <= w) {
        if j > 0 { assert rest[j - 1] == binds[j]; }
      }
  }

  lemma BelowMount(w: seq<string>, m: seq<string>)
    requires AllProper(w) && AllProper(m) && PathOf(m) + "/" <= PathOf(w)
    ensures m <= w
  {
    if w != [] && m != [] {
      var t := JoinWith(m, "/");
      var x := PathOf(w)[|PathOf(m)| + 1..];
      assert PathOf(w) == PathOf(m) + "/" + x;
      assert PathOf(w)[1..] == JoinWith(w, "/") && PathOf(w)[1..] == t + ("/" + x);
      SplitJoin(w);
      SplitOver(m, x);
      assert w == m + Split(x);
    }
  }

  /**
   * Where a bind covers it, a path keeps everything below the mount point of the first one that does,
   * and its place is on or below that bind's host directory. It is refused exactly when it is to be
   * written and the bind is read-only.
   */
  lemma BindMap(path: string, write: bool, binds: seq<Bind>, b: Bind, dir: seq<string>, workspace: string, work: string,
                tmp: string, temp: string) returns (rest: seq<string>)
    requires IsAbs(path) && InitialSlashes(path) == 1 && FirstBind(binds, NormPath(path)) == Some(b)
    requires IsAbs(b.mountPoint) && InitialSlashes(b.mountPoint) == 1
    requires b.hostPath == PathOf(dir) && AllProper(dir) && dir != []
    ensures var r := HostFor(path, write, binds, workspace, work, tmp, temp);
      (if write && b.readOnly then r.Denied? else r.HostPath?)
      && Walk([], Split(path)) == Walk([], Split(b.mountPoint)) + rest
      && IsAbs(r.path) && Walk([], Split(r.path)) == dir + rest
  {
    var w, m := Walk([], Split(path)), Walk([], Split(b.mountPoint));
    rest := BelowBind(path, binds, b);
    BoundHost(path, write, binds, b, workspace, work, tmp, temp);
    PlaceBelow(w, m, rest, dir);
  }

  lemma BelowBind(path: string, binds: seq<Bind>, b: Bind) returns (rest: seq<string>)
    requires IsAbs(path) && InitialSlashes(path) == 1 && FirstBind(binds, NormPath(path)) == Some(b)
    requires IsAbs(b.mountPoint) && InitialSlashes(b.mountPoint) == 1
    ensures var w, m := Walk([], Split(path)), Walk([], Split(b.mountPoint));
      w == m + rest && AllProper(w) && AllProper(m)
      && NormPath(path) == PathOf(w) && NormPath(b.mountPoint) == PathOf(m)
  {
    var w, m := Walk([], Split(path)), Walk([], Split(b.mountPoint));
    NormOne(path);
    NormOne(b.mountPoint);
    FirstBindCovers(binds, NormPath(path));
    CoversIsPrefix(w, m);
    rest := w[|m|..];
  }

  lemma NormOne(path: string)
    requires IsAbs(path) && InitialSlashes(path) == 1
    ensures var w := Walk([], Split(path)); AllProper(w) && NormPath(path) == PathOf(w)
  {
    NormAbs(path);
    assert Slashes(1) == "/";
  }

  lemma PlaceBelow(w: seq<string>, m: seq<string>, rest: seq<string>, dir: seq<string>)
    requires AllProper(w) && AllProper(m) && w == m + rest && AllProper(dir) && dir != []
    ensures var h := JoinPath(PathOf(dir), RelPath(PathOf(w), PathOf(m))); IsAbs(h) && Walk([], Split(h)) == dir + rest
  {
    assert AllProper(rest) by { assert rest == w[|m|..]; }
    RelOf(w, m, rest);
    JoinedWalk(dir, rest);
  }

  lemma RelOf(w: seq<string>, m: seq<string>, rest: seq<string>)
    requires AllProper(w) && AllProper(m) && w == m + rest
    ensures RelPath(PathOf(w), PathOf(m)) == if rest == [] then "." else JoinWith(rest, "/")
  {
    WalkPathOf(w);
    WalkPathOf(m);
    RelBelow(PathOf(w), PathOf(m), rest);
  }

  lemma BoundHost(path: string, write: bool, binds: seq<Bind>, b: Bind, workspace: string, work: string, tmp: string,
                  temp: string)
    requires FirstBind(binds, NormPath(path)) == Some(b)
    ensures var host := JoinPath(b.hostPath, RelPath(NormPath(path), NormPath(b.mountPoint)));
      HostFor(path, write, binds, workspace, work, tmp, temp)
      == if write && b.readOnly then Denied(host) else HostPath(host)
  {
  }

  /** The components of a path under the workspace root, and of its place on the host. */
  ghost predicate Maps(container: string, host: string, dir: seq<string>, work: string, rest: seq<string>) {
    && AllProper(rest)
    && Walk([], Split(container)) == [work] + rest
    && IsAbs(host) && Walk([], Split(host)) == dir + rest
  }

  /**
   * Where no bind covers it, a path under the workspace root keeps everything below the root, and
   * its place on the host is on or below the session's workspace.
   */
  lemma WorkspaceMap(path: string, write: bool, binds: seq<Bind>, dir: seq<string>, work: string, tmp: string,
                     temp: string) returns (rest: seq<string>)
    requires IsAbs(path) && Proper(work) && IsUnder(path, "/" + work)
    requires FirstBind(binds, NormPath(path)).None? && AllProper(dir) && dir != []
    ensures var r := HostFor(path, write, binds, PathOf(dir), work, tmp, temp);
      r.HostPath? && Maps(path, r.path, dir, work, rest)
  {
    var w := Walk([], Split(path));
    UnderIff(path, work);
    NormAbs(path);
    RootNorm(work);
    WalkPathOf(w);
    WalkPathOf([work]);
    rest := w[1..];
    assert w == [work] + rest;
    RelBelow(NormPath(path), "/" + work, rest);
    JoinedWalk(dir, rest);
  }

  /**
   * Where no bind covers it, a path under `/tmp` is a fresh host file, bound into the container at a path
   * that leads where the redirect's own does.
   */
  lemma TmpMap(path: string, write: bool, binds: seq<Bind>, workspace: string, work: string, tmp: string, temp: string)
    requires IsAbs(path) && Proper(work) && Proper(tmp) && work != tmp && IsUnder(path, "/" + tmp)
    requires FirstBind(binds, NormPath(path)).None?
    ensures var r := HostFor(path, write, binds, workspace, work, tmp, temp);
      r.TempFile? && r.path == temp && IsAbs(r.mount) && Walk([], Split(r.mount)) == Walk([], Split(path))
  {
    var w := Walk([], Split(path));
    UnderIff(path, tmp);
    NormAbs(path);
    RootNorm(work);
    RootNorm(tmp);
    var rest := w[1..];
    assert w == [tmp] + rest && NormPath(path) == PathOf(w);
    if Covers(PathOf(w), PathOf([work])) { CoversIsPrefix(w, [work]); }
    RelOf(w, [tmp], rest);
    JoinedWalk([tmp], rest);
  }

  lemma SameRest(a: string, b: string, dir: seq<string>, work: string, restA: seq<string>, restB: seq<string>,
                 host: string)
    requires Maps(a, host, dir, work, restA) && Maps(b, host, dir, work, restB)
    ensures Walk([], Split(a)) == Walk([], Split(b))
  {
    assert (dir + restA)[|dir|..] == restA && (dir + restB)[|dir|..] == restB;
  }

  /** Uncovered workspace paths have one place on the host if and only if they walk to one place in
      the container. */
  lemma WorkspaceMapInjective(a: string, b: string, write: bool, binds: seq<Bind>, dir: seq<string>, work: string,
                              tmp: string, temp: string)
    requires IsAbs(a) && IsAbs(b) && Proper(work) && IsUnder(a, "/" + work) && IsUnder(b, "/" + work)
    requires FirstBind(binds, NormPath(a)).None? && FirstBind(binds, NormPath(b)).None?
    requires AllProper(dir) && dir != []
    ensures HostFor(a, write, binds, PathOf(dir), work, tmp, temp)
            == HostFor(b, write, binds, PathOf(dir), work, tmp, temp)
            <==> Walk([], Split(a)) == Walk([], Split(b))
  {
    var ra := HostFor(a, write, binds, PathOf(dir), work, tmp, temp);
    var rb := HostFor(b, write, binds, PathOf(dir), work, tmp, temp);
    var restA := WorkspaceMap(a, write, binds, dir, work, tmp, temp);
    var restB := WorkspaceMap(b, write, binds, dir, work, tmp, temp);
    if ra == rb {
      SameRest(a, b, dir, work, restA, restB, ra.path);
    }
    if Walk([], Split(a)) == Walk([], Split(b)) {
      UnderIff(a, work);
      UnderIff(b, work);
      NormAbs(a);
      NormAbs(b);
      assert NormPath(a) == NormPath(b);
    }
  }
}
