/** Writing through an overlay mount: the parent directories are copied up, the entry lands
    in the upper directory, a removal leaves a whiteout, and below it nothing is touched. */
module OverlayWrites {
  import opened FileTree
  import opened Overlay

  datatype FileOp = Put(path: Path, entry: Entry) | Remove(path: Path)

  /** What the calls behind it check against the view: parents exist, a directory is not
      replaced by a file nor the other way round, and only an empty directory is removed. */
  ghost predicate Allowed(v: Tree, op: FileOp) {
    match op
    case Put(p, e) =>
      ValidPath(p) && (|p| > 1 ==> Parent(p) in v && v[Parent(p)].Dir?) && !IsWhiteout(e) && Shown(e) == e
      && (p in v ==> (v[p].Dir? <==> e.Dir?))
    case Remove(p) => p in v && forall q | q in v && p <= q :: q == p
  }

  /** What the process that made the call sees afterwards. */
  function Effect(v: Tree, op: FileOp): Tree {
    match op
    case Put(p, e) => v[p := e]
    case Remove(p) => v - {p}
  }

  function Ancestors(p: Path): set<Path> {
    set k | 0 < k < |p| :: p[..k]
  }

  /** The directories above `p`, as the view shows them, where the upper lacks them. */
  ghost function CopyUp(below: Tree, upper: Tree, p: Path): Tree {
    var v := Merge(below, upper);
    upper + map a | a in Ancestors(p) && a !in upper && a in v :: v[a]
  }

  /** A directory made where a whiteout was must not let the lower one show again. */
  ghost function Landed(upper: Tree, p: Path, e: Entry): Entry {
    if e.Dir? then Dir(e.perm, p in upper && CutsLower(upper[p])) else e
  }

  /** The upper directory after the write. */
  ghost function Written(below: Tree, upper: Tree, op: FileOp): Tree {
    var up := CopyUp(below, upper, op.path);
    match op
    case Put(p, e) => up[p := Landed(up, p, e)]
    case Remove(p) =>
      var cut := map q | q in up && !(p <= q) :: up[q];
      if p in below then cut[p := Special(Whiteout)] else cut
  }

  // ---- Copying up ----

  lemma AboveIsSeen(below: Tree, upper: Tree, p: Path, k: nat)
    requires ViewLike(below) && WellFormed(upper) && 0 < k < |p|
    requires p in Merge(below, upper) || (Parent(p) in Merge(below, upper) && Merge(below, upper)[Parent(p)].Dir?)
    ensures p[..k] in Merge(below, upper) && Merge(below, upper)[p[..k]].Dir?
  {
    MergeIsViewLike(below, upper);
    var v := Merge(below, upper);
    if p in v {
      AncestorsAreDirs(v, p, k);
    } else if k < |p| - 1 {
      AncestorsAreDirs(v, Parent(p), k);
      assert Parent(p)[..k] == p[..k];
    } else {
      assert Parent(p) == p[..k];
    }
  }

  /** The place a write goes to: it is in the view, or the directory above it is. */
  ghost predicate Reachable(below: Tree, upper: Tree, p: Path) {
    ValidPath(p) && (|p| > 1 ==>
      p in Merge(below, upper) || (Parent(p) in Merge(below, upper) && Merge(below, upper)[Parent(p)].Dir?))
  }

  lemma AboveInUpper(below: Tree, upper: Tree, p: Path, k: nat)
    requires ViewLike(below) && WellFormed(upper) && Reachable(below, upper, p) && 0 < k < |p|
    ensures var up := CopyUp(below, upper, p);
      p[..k] in up && up[p[..k]].Dir? && (p[..k] !in upper ==> up[p[..k]] == Merge(below, upper)[p[..k]])
  {
    AboveIsSeen(below, upper, p, k);
    assert p[..k] in Ancestors(p);
  }

  lemma CopyUpWellFormed(below: Tree, upper: Tree, p: Path)
    requires ViewLike(below) && WellFormed(upper) && Reachable(below, upper, p)
    ensures WellFormed(CopyUp(below, upper, p))
  {
    var up := CopyUp(below, upper, p);
    forall q | q in up
      ensures ValidPath(q) && (|q| > 1 ==> Parent(q) in up && up[Parent(q)].Dir?)
    {
      if q !in upper {
        var k :| 0 < k < |p| && q == p[..k];
        if k > 1 {
          AboveInUpper(below, upper, p, k - 1);
          assert Parent(q) == p[..k - 1];
        }
      }
    }
  }

  lemma CopiedCutsNothing(below: Tree, upper: Tree, p: Path, q: Path)
    requires ViewLike(below) && WellFormed(upper) && Reachable(below, upper, p)
    requires q !in CopyUp(below, upper, p)
    ensures ShowsThrough(CopyUp(below, upper, p), q) <==> ShowsThrough(upper, q)
  {
    var up, v := CopyUp(below, upper, p), Merge(below, upper);
    MergeIsViewLike(below, upper);
    assert forall a | a in up && a !in upper :: a in v && up[a] == v[a];
    forall k | 0 < k < |q| && q[..k] in up && q[..k] !in upper ensures !CutsLower(up[q[..k]]) {
      var j :| 0 < j < |p| && q[..k] == p[..j];
      AboveInUpper(below, upper, p, j);
      assert Shown(v[p[..j]]) == v[p[..j]];
    }
  }

  /** Copying up is invisible. */
  lemma {:induction false} CopyUpUnseen(below: Tree, upper: Tree, p: Path)
    requires ViewLike(below) && WellFormed(upper) && Reachable(below, upper, p)
    ensures Merge(below, CopyUp(below, upper, p)) == Merge(below, upper)
  {
    var up, v, w := CopyUp(below, upper, p), Merge(below, upper), Merge(below, CopyUp(below, upper, p));
    MergeIsViewLike(below, upper);
    forall q ensures (q in v <==> q in w) && (q in v ==> v[q] == w[q]) {
      if q in up && q !in upper {
        assert q in v && up[q] == v[q];
        assert !IsWhiteout(v[q]) && Shown(v[q]) == v[q];
      } else if q !in up {
        CopiedCutsNothing(below, upper, p, q);
      }
    }
  }

  // ---- The write itself, once its parents are in the upper ----

  /** Every directory above `p` is in the upper. */
  ghost predicate ParentsUp(upper: Tree, p: Path) {
    ValidPath(p) && forall k | 0 < k < |p| :: p[..k] in upper && upper[p[..k]].Dir?
  }

  lemma PutWellFormed(upper: Tree, p: Path, e: Entry)
    requires WellFormed(upper) && ParentsUp(upper, p) && !IsWhiteout(e)
    requires p in upper && upper[p].Dir? ==> e.Dir?
    ensures WellFormed(upper[p := Landed(upper, p, e)])
  {
    if |p| > 1 { assert Parent(p) == p[..|p| - 1]; }
  }

  /** Nothing below `p` shows before or after, unless a directory stays a directory. */
  lemma PutElsewhere(below: Tree, upper: Tree, p: Path, e: Entry, q: Path)
    requires ViewLike(below) && WellFormed(upper) && ParentsUp(upper, p) && q != p && q !in upper
    requires Allowed(Merge(below, upper), Put(p, e))
    ensures q in below ==> (ShowsThrough(upper[p := Landed(upper, p, e)], q) <==> ShowsThrough(upper, q))
  {
    var u := upper[p := Landed(upper, p, e)];
    var v := Merge(below, upper);
    if q in below {
      if ShowsThrough(upper, q) && !ShowsThrough(u, q) {
        var k :| 0 < k < |q| && q[..k] in u && CutsLower(u[q[..k]]);
        assert q[..k] == p;
        ThroughIsSeen(below, upper, q, k);
      }
    }
  }

  /** What shows through makes the directories above it part of the view. */
  lemma ThroughIsSeen(below: Tree, upper: Tree, q: Path, k: nat)
    requires ViewLike(below) && WellFormed(upper) && q in below && ShowsThrough(upper, q) && 0 < k < |q|
    ensures q[..k] in Merge(below, upper) && Merge(below, upper)[q[..k]].Dir?
  {
    MergeIsViewLike(below, upper);
    AncestorsAreDirs(Merge(below, upper), q, k);
  }

  lemma PutSeenElsewhere(below: Tree, upper: Tree, p: Path, e: Entry, q: Path)
    requires ViewLike(below) && WellFormed(upper) && ParentsUp(upper, p) && q != p
    requires Allowed(Merge(below, upper), Put(p, e))
    ensures var v, w := Merge(below, upper), Merge(below, upper[p := Landed(upper, p, e)]);
      (q in v <==> q in w) && (q in v ==> v[q] == w[q])
  {
    if q !in upper {
      PutElsewhere(below, upper, p, e, q);
    }
  }

  lemma PutSeen(below: Tree, upper: Tree, p: Path, e: Entry)
    requires ViewLike(below) && WellFormed(upper) && ParentsUp(upper, p)
    requires Allowed(Merge(below, upper), Put(p, e))
    ensures Merge(below, upper[p := Landed(upper, p, e)]) == Merge(below, upper)[p := e]
  {
    var u := upper[p := Landed(upper, p, e)];
    var v, w := Merge(below, upper), Merge(below, u);
    forall q | q != p ensures (q in v <==> q in w) && (q in v ==> v[q] == w[q]) {
      PutSeenElsewhere(below, upper, p, e, q);
    }
    assert p in u && !IsWhiteout(u[p]) && Shown(u[p]) == e;
    OneEntryChanged(v, w, p, e);
  }

  lemma OneEntryChanged(v: Tree, w: Tree, p: Path, e: Entry)
    requires forall q | q != p :: (q in v <==> q in w) && (q in v ==> v[q] == w[q])
    requires p in w && w[p] == e
    ensures w == v[p := e]
  {
  }

  ghost function Cut(upper: Tree, p: Path): Tree {
    map q | q in upper && !(p <= q) :: upper[q]
  }

  ghost function Removed(below: Tree, upper: Tree, p: Path): Tree {
    if p in below then Cut(upper, p)[p := Special(Whiteout)] else Cut(upper, p)
  }

  lemma RemovedWellFormed(below: Tree, upper: Tree, p: Path)
    requires WellFormed(upper) && ParentsUp(upper, p)
    ensures WellFormed(Removed(below, upper, p))
  {
    var u := Removed(below, upper, p);
    forall q | q in u ensures |q| > 1 ==> Parent(q) in u && u[Parent(q)].Dir? {
      if |q| > 1 {
        assert Parent(q) == q[..|q| - 1];
        if q == p { assert !(p <= Parent(p)); }
      }
    }
  }

  lemma RemovedElsewhere(below: Tree, upper: Tree, p: Path, q: Path)
    requires ViewLike(below) && WellFormed(upper) && q in below && !(p <= q)
    ensures ShowsThrough(Removed(below, upper, p), q) <==> ShowsThrough(upper, q)
  {
    var u := Removed(below, upper, p);
    forall k | 0 < k < |q| ensures q[..k] in u <==> q[..k] in upper
      ensures q[..k] in u ==> u[q[..k]] == upper[q[..k]]
    {
    }
  }

  /** Neither the entry nor anything under it shows any more. */
  lemma RemovedIsGone(below: Tree, upper: Tree, p: Path, q: Path)
    requires ViewLike(below) && WellFormed(upper) && p != [] && p <= q
    ensures q !in Merge(below, Removed(below, upper, p))
  {
    var u := Removed(below, upper, p);
    if q in below && q != p {
      assert q[..|p|] == p;
      AncestorsAreDirs(below, q, |p|);
      assert p in u && CutsLower(u[p]);
    }
  }

  lemma RemoveSeen(below: Tree, upper: Tree, p: Path)
    requires ViewLike(below) && WellFormed(upper) && p != [] && Allowed(Merge(below, upper), Remove(p))
    ensures Merge(below, Removed(below, upper, p)) == Merge(below, upper) - {p}
  {
    var u := Removed(below, upper, p);
    var v, w := Merge(below, upper), Merge(below, u);
    forall q ensures (q in v && q != p <==> q in w) && (q in w ==> v[q] == w[q]) {
      if p <= q {
        RemovedIsGone(below, upper, p, q);
      } else if q in below {
        RemovedElsewhere(below, upper, p, q);
      }
    }
    assert w == v - {p};
  }

  // ---- Together ----

  /** A write through the mount changes the upper alone, keeps it well formed, and the process
      then sees exactly what it asked for and nothing else. */
  lemma {:induction false} WriteSeen(below: Tree, upper: Tree, op: FileOp)
    requires ViewLike(below) && WellFormed(upper) && Allowed(Merge(below, upper), op)
    ensures WellFormed(Written(below, upper, op))
    ensures Merge(below, Written(below, upper, op)) == Effect(Merge(below, upper), op)
  {
    var p := op.path;
    MergeIsViewLike(below, upper);
    assert Reachable(below, upper, p);
    var up := CopyUp(below, upper, p);
    CopyUpWellFormed(below, upper, p);
    CopyUpUnseen(below, upper, p);
    forall k | 0 < k < |p| ensures p[..k] in up && up[p[..k]].Dir? { AboveInUpper(below, upper, p, k); }
    match op
    case Put(_, e) =>
      PutWellFormed(up, p, e);
      PutSeen(below, up, p, e);
    case Remove(_) =>
      RemovedWellFormed(below, up, p);
      RemoveSeen(below, up, p);
  }
}
