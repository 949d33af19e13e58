/** What a process inside the sandbox sees: overlayfs merging the base rootfs, the
    committed layers and the session's upper directory, bottom first. */
module Overlay {
  import opened FileTree

  /** The directories every fresh upper is seeded with, under the default umask. */
  const SEED_PERM: Perm := 0x1ED
  const WORKSPACE: Path := ["workspace"]
  const TMP: Path := ["tmp"]

  function Seeds(): Tree {
    map[WORKSPACE := Dir(SEED_PERM, false), TMP := Dir(SEED_PERM, false)]
  }

  /** An entry as the mount shows it: the opaque attribute is not visible. */
  function Shown(e: Entry): Entry {
    if e.Dir? then Dir(e.perm, false) else e
  }

  ghost predicate IsWhiteout(e: Entry) {
    e == Special(Whiteout)
  }

  ghost predicate CutsLower(e: Entry) {
    !e.Dir? || e.hidesLower
  }

  /** A path of the lower tree shows through unless the upper tree has an entry for
      it, or cuts it off at one of its ancestors. */
  ghost predicate ShowsThrough(upper: Tree, p: Path) {
    p !in upper &&
    forall k | 0 < k < |p| && p[..k] in upper :: !CutsLower(upper[p[..k]])
  }

  /** One overlay step: a directory over a directory merges, anything else replaces. */
  ghost function Merge(lower: Tree, upper: Tree): (view: Tree)
  {
    map p | p in lower.Keys + upper.Keys &&
            (if p in upper then !IsWhiteout(upper[p]) else ShowsThrough(upper, p))
      :: if p in upper then Shown(upper[p]) else lower[p]
  }

  /** The mounted view of a list of layers, bottom first: a left fold of `Merge`. */
  ghost function View(layers: seq<Tree>): Tree {
    if layers == [] then map[]
    else Merge(View(layers[..|layers| - 1]), layers[|layers| - 1])
  }

  /** Every view is a well-formed tree without whiteouts or opaque marks. */
  ghost predicate ViewLike(t: Tree) {
    WellFormed(t) && forall p | p in t :: !IsWhiteout(t[p]) && Shown(t[p]) == t[p]
  }

  lemma {:induction false} MergeIsViewLike(lower: Tree, upper: Tree)
    requires ViewLike(lower) && WellFormed(upper)
    ensures ViewLike(Merge(lower, upper))
  {
    var m := Merge(lower, upper);
    forall p | p in m
      ensures ValidPath(p)
      ensures |p| > 1 ==> Parent(p) in m && m[Parent(p)].Dir?
    {
      if |p| > 1 && p !in upper {
        var q := Parent(p);
        assert q == p[..|p| - 1];
        forall k | 0 < k < |q| && q[..k] in upper
          ensures !CutsLower(upper[q[..k]])
        {
          assert q[..k] == p[..k];
        }
      }
    }
  }

  lemma {:induction false} ViewIsViewLike(layers: seq<Tree>)
    requires forall i | 0 <= i < |layers| :: WellFormed(layers[i])
    ensures ViewLike(View(layers))
  {
    if layers != [] {
      ViewIsViewLike(layers[..|layers| - 1]);
      MergeIsViewLike(View(layers[..|layers| - 1]), layers[|layers| - 1]);
    }
  }

  lemma ViewSnoc(layers: seq<Tree>, top: Tree)
    ensures View(layers + [top]) == Merge(View(layers), top)
  {
    assert (layers + [top])[..|layers|] == layers;
  }

  /** Replacing on top of replacing is not associative, so the fold direction matters:
      a file in the middle layer cuts off what the bottom directory holds. */
  lemma MergeNotAssociative(a: Tree, p: Path, q: Path, f: Entry, d: Entry)
    requires q in a && |p| < |q| && q[..|p|] == p && p != []
    requires forall k | 0 < k <= |q| && k != |p| :: q[..k] != p
    requires f.File? && d == Dir(SEED_PERM, false)
    ensures q in Merge(a, Merge(map[p := f], map[p := d])) && q !in Merge(Merge(a, map[p := f]), map[p := d])
  {
    var b, c := map[p := f], map[p := d];
    var bc := Merge(b, c);
    assert bc.Keys == {p} && bc[p] == d;
    assert q[..|q|] == q;
    assert ShowsThrough(bc, q);
    assert p in b && CutsLower(b[q[..|p|]]) && q !in b;
    assert !ShowsThrough(b, q);
    assert q !in Merge(a, b);
  }

  // ---- Commit, reset and rollback, seen through the mount ----

  ghost predicate SeedDirsIn(v: Tree) {
    WORKSPACE in v && v[WORKSPACE].Dir? && TMP in v && v[TMP].Dir?
  }

  /** The two seed directories exist and still carry the permissions they were made with. */
  ghost predicate SeedsIntact(v: Tree) {
    SeedDirsIn(v) && v[WORKSPACE].perm == SEED_PERM && v[TMP].perm == SEED_PERM
  }

  /** Seeding an upper only touches the two seed directories. */
  lemma MergeSeeds(v: Tree)
    requires ViewLike(v) && SeedDirsIn(v)
    ensures Merge(v, Seeds()) == v[WORKSPACE := Dir(SEED_PERM, false)][TMP := Dir(SEED_PERM, false)]
  {
    var s := Seeds();
    forall p | p in v && p !in s
      ensures ShowsThrough(s, p)
    {
    }
  }

  lemma SeedsChangeNothing(v: Tree)
    requires ViewLike(v)
    ensures Merge(v, Seeds()) == v <==> SeedsIntact(v)
  {
    var m := Merge(v, Seeds());
    assert WORKSPACE in Seeds() && TMP in Seeds();
    assert m[WORKSPACE] == Dir(SEED_PERM, false) && m[TMP] == Dir(SEED_PERM, false);
    if SeedsIntact(v) {
      MergeSeeds(v);
      assert Shown(v[WORKSPACE]) == v[WORKSPACE] && Shown(v[TMP]) == v[TMP];
    }
  }

  /** Committing freezes the upper as the top layer and puts the bare seeds over it.
      The session then sees exactly what it saw before, if and only if the view's
      `workspace` and `tmp` are directories with the seed permissions. */
  lemma {:induction false} CommitPreservesView(lowers: seq<Tree>, upper: Tree)
    requires forall i | 0 <= i < |lowers| :: WellFormed(lowers[i])
    requires WellFormed(upper)
    ensures View(lowers + [upper] + [Seeds()]) == View(lowers + [upper]) <==>
            SeedsIntact(View(lowers + [upper]))
  {
    ViewIsViewLike(lowers + [upper]);
    ViewSnoc(lowers + [upper], Seeds());
    SeedsChangeNothing(View(lowers + [upper]));
  }

  /** Permissions apart, the two seed paths being directories is enough: a commit
      changes nothing else in the view. */
  lemma {:induction false} CommitKeepsContents(lowers: seq<Tree>, upper: Tree)
    requires forall i | 0 <= i < |lowers| :: WellFormed(lowers[i])
    requires WellFormed(upper)
    requires SeedDirsIn(View(lowers + [upper]))
    ensures View(lowers + [upper] + [Seeds()]) ==
            View(lowers + [upper])[WORKSPACE := Dir(SEED_PERM, false)][TMP := Dir(SEED_PERM, false)]
  {
    ViewIsViewLike(lowers + [upper]);
    ViewSnoc(lowers + [upper], Seeds());
    MergeSeeds(View(lowers + [upper]));
  }
}
