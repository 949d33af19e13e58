/** Which trees a session may leave behind without its view depending on whose copy of a
    layer is mounted: exactly those the manifest covers. */
module Coverage {
  import opened FileTree
  import opened Overlay
  import opened Wrappers
  import opened Manifest
  import opened LayerIndex
  import opened StoreProtocol
  import opened StoreSafety
  import opened StoreSequential
  import opened StoreRefinement
  import opened StoreViews

  /** A tree and what the manifest sees of it give the same view on whatever lies below. */
  ghost predicate SameViews(t: Tree) {
    forall base | ViewLike(base) :: Merge(base, t) == Merge(base, Erase(t))
  }

  /** Nothing but `p` and the directories above it. */
  function Chain(p: Path, e: Entry): Tree
    requires p != []
  {
    if |p| == 1 then map[p := e] else Chain(Parent(p), Dir(SEED_PERM, false))[p := e]
  }

  lemma {:induction false} ChainShort(p: Path, e: Entry)
    requires p != []
    ensures forall q | q in Chain(p, e) :: 0 < |q| <= |p|
    decreases |p|
  {
    if |p| > 1 {
      ChainShort(Parent(p), Dir(SEED_PERM, false));
    }
  }

  lemma {:induction false} ChainIs(p: Path, e: Entry)
    requires ValidPath(p) && !IsWhiteout(e) && Shown(e) == e
    ensures p in Chain(p, e) && Chain(p, e)[p] == e && ViewLike(Chain(p, e))
    decreases |p|
  {
    if |p| > 1 {
      var above := Chain(Parent(p), Dir(SEED_PERM, false));
      ChainIs(Parent(p), Dir(SEED_PERM, false));
      ChainShort(Parent(p), Dir(SEED_PERM, false));
      assert p !in above;
      forall q | q in Chain(p, e) && |q| > 1
        ensures Parent(q) in Chain(p, e) && Chain(p, e)[Parent(q)].Dir?
      {
        assert Parent(q) != p;
      }
    }
  }

  /** The directories above an entry of an erased tree cut nothing off. */
  lemma ErasedShows(t: Tree, p: Path)
    requires WellFormed(t) && p !in Erase(t) && ValidPath(p)
    requires p in t || (|p| > 1 && Parent(p) in t && t[Parent(p)].Dir?)
    ensures ShowsThrough(Erase(t), p)
  {
    var u := Erase(t);
    forall k | 0 < k < |p| && p[..k] in u ensures !CutsLower(u[p[..k]]) {
      if p in t {
        AncestorsAreDirs(t, p, k);
      } else if k < |p| - 1 {
        AncestorsAreDirs(t, Parent(p), k);
        assert Parent(p)[..k] == p[..k];
      } else {
        assert Parent(p) == p[..k];
      }
    }
  }

  lemma NotSame(t: Tree, base: Tree, p: Path)
    requires ViewLike(base)
    requires p in Merge(base, t) ==> p !in Merge(base, Erase(t)) || Merge(base, t)[p] != Merge(base, Erase(t))[p]
    requires p !in Merge(base, t) ==> p in Merge(base, Erase(t))
    ensures !SameViews(t)
  {
    assert Merge(base, t) != Merge(base, Erase(t));
  }

  lemma WhiteoutShows(t: Tree, p: Path)
    requires WellFormed(t) && p in t && IsWhiteout(t[p])
    ensures !SameViews(t)
  {
    var e := File(SEED_PERM, []);
    ChainIs(p, e);
    ErasedShows(t, p);
    NotSame(t, Chain(p, e), p);
  }

  lemma EntryShows(t: Tree, p: Path)
    requires WellFormed(t) && p in t && !IsWhiteout(t[p])
    requires t[p].Special? || Shown(t[p]) != Shown(ErasedEntry(t[p]))
    ensures !SameViews(t)
  {
    NotSame(t, map[], p);
  }

  /** Longer and longer names run out of the tree. */
  lemma {:induction false} LongName(t: Tree, d: Path, from: string) returns (n: string)
    requires ValidName(from)
    ensures ValidName(n) && |n| >= |from| && d + [n] !in t
    decreases |t|
  {
    if d + [from] in t {
      n := LongName(t - {d + [from]}, d, from + "x");
      assert (d + [n])[|d|] == n && (d + [from])[|d|] == from;
    } else {
      n := from;
    }
  }

  lemma OpaqueShows(t: Tree, d: Path)
    requires WellFormed(t) && d in t && t[d].Dir? && t[d].hidesLower
    ensures !SameViews(t)
  {
    var n := LongName(t, d, "x");
    var p, e := d + [n], File(SEED_PERM, []);
    assert Parent(p) == d && p[..|d|] == d;
    ChainIs(p, e);
    ErasedShows(t, p);
    assert !ShowsThrough(t, p);
    NotSame(t, Chain(p, e), p);
  }

  /** Where the manifest does not cover a tree, some base shows it: a special file, a
      whiteout, a link to a directory or an opaque directory each changes a view. */
  lemma {:induction false} CoveredIff(t: Tree)
    requires WellFormed(t)
    ensures Covered(t) <==> SameViews(t)
  {
    CoveredIsErased(t);
    if !Covered(t) {
      var p :| p in t && (t[p].Special? || ErasedEntry(t[p]) != t[p]);
      if IsWhiteout(t[p]) {
        WhiteoutShows(t, p);
      } else if t[p].Dir? {
        OpaqueShows(t, p);
      } else {
        EntryShows(t, p);
      }
    }
  }

  // ---- Whiteouts ----

  /** Some directory above the path hides all that lies below it. */
  ghost predicate Hidden(t: Tree, p: Path) {
    exists k | 0 < k < |p| :: p[..k] in t && t[p[..k]].Dir? && t[p[..k]].hidesLower
  }

  lemma DroppedId(t: Tree, p: Path)
    requires p in t && t[p].Special?
    ensures CommitIdOf(t - {p}) == CommitIdOf(t)
  {
    assert Erase(t - {p}) == Erase(t);
    WalkErased(t, []);
    WalkErased(t - {p}, []);
  }

  lemma DroppedShowsIff(t: Tree, p: Path)
    requires WellFormed(t) && p in t
    ensures ShowsThrough(t - {p}, p) <==> !Hidden(t, p)
  {
    forall k | 0 < k < |p| ensures p[..k] in t && t[p[..k]].Dir? && p[..k] in t - {p} {
      AncestorsAreDirs(t, p, k);
    }
  }

  /** Deleting a path leaves a whiteout, which the manifest skips: whatever else the upper holds,
      its commit has the id of one without the deletion. Over every base that has the path, the
      one hides it and the other shows it, unless a directory above hides it anyway. */
  lemma WhiteoutsCollide(t: Tree, p: Path, base: Tree)
    requires WellFormed(t) && p in t && IsWhiteout(t[p]) && p in base
    ensures CommitIdOf(t - {p}) == CommitIdOf(t)
    ensures p !in Merge(base, t) && (p in Merge(base, t - {p}) <==> !Hidden(t, p))
  {
    DroppedId(t, p);
    DroppedShowsIff(t, p);
  }

  // ---- Coverage, seen by a session ----

  /** A session commits a tree and then empties its upper, seed directories included. */
  function BareCommit(t: Tree): seq<Step> {
    [Create] + ([Run(0, t)] + (CommitSteps(0) + [Run(0, map[])]))
  }

  ghost function Stored(t: Tree): State {
    var id := CommitIdOf(t);
    State(map[id := t], CommitIndex(map[], id, None), None, [Session([id], map[], [id], Idle)], Off)
  }

  function Fresh(upper: Tree): State {
    State(map[], map[], None, [Session([], upper, [], Idle)], Off)
  }

  lemma CommitFresh(t: Tree)
    ensures Leads(Fresh(t), CommitSteps(0), SetSession(Stored(t), 0, Stored(t).sessions[0].(upper := Seeds())))
  {
    WholeCommit(Fresh(t), 0);
    assert [] + [CommitIdOf(t)] == [CommitIdOf(t)];
  }

  lemma BareCommitLeads(t: Tree)
    requires AcceptableUpper(t)
    ensures Leads(Init(), BareCommit(t), Stored(t))
  {
    var seeded := SetSession(Stored(t), 0, Stored(t).sessions[0].(upper := Seeds()));
    OneStep(Init(), Create);
    assert Apply(Init(), Create) == Fresh(Seeds());
    OneStep(Fresh(Seeds()), Run(0, t));
    assert Apply(Fresh(Seeds()), Run(0, t)) == Fresh(t);
    CommitFresh(t);
    OneStep(seeded, Run(0, map[]));
    assert Apply(seeded, Run(0, map[])) == Stored(t);
    Joined(Fresh(t), CommitSteps(0), seeded, [Run(0, map[])], Stored(t));
    Joined(Fresh(Seeds()), [Run(0, t)], Fresh(t), CommitSteps(0) + [Run(0, map[])], Stored(t));
    Joined(Init(), [Create], Fresh(Seeds()), [Run(0, t)] + (CommitSteps(0) + [Run(0, map[])]), Stored(t));
  }

  lemma NothingMerged(v: Tree)
    requires ViewLike(v)
    ensures Merge(v, map[]) == v && Merge(map[], v) == v
  {
  }

  lemma ViewOfThree(base: Tree, t: Tree)
    requires ViewLike(base) && WellFormed(t)
    ensures View([base] + [t] + [map[]]) == Merge(base, t)
  {
    var none: seq<Tree> := [];
    NothingMerged(base);
    ViewSnoc(none, base);
    assert none + [base] == [base];
    ViewSnoc([base], t);
    ViewSnoc([base] + [t], map[]);
    MergeIsViewLike(base, t);
    NothingMerged(Merge(base, t));
  }

  lemma StoredView(t: Tree, base: Tree)
    requires ViewLike(base) && WellFormed(t)
    ensures SessionView(Stored(t), base, 0) == Merge(base, t)
  {
    var id := CommitIdOf(t);
    assert LowerTrees(Stored(t).layers, base, [id]) == [base] + [t];
    ViewOfThree(base, t);
  }

  lemma CopiedAs(t: Tree, base: Tree)
    requires ViewLike(base) && WellFormed(t)
    ensures CopiedView(base, Copied([Erase(t)], map[], true)) == Merge(base, Erase(t))
  {
    ErasedWellFormed(t);
    ViewOfThree(base, Erase(t));
  }

  lemma ErasedWellFormed(t: Tree)
    requires WellFormed(t)
    ensures WellFormed(Erase(t))
  {
  }

  lemma CopiesOfStored(t: Tree)
    requires AcceptableUpper(t)
    ensures IsRun(Init(), BareCommit(t))
    ensures SimpleAfter([], SimpleRun(Init(), BareCommit(t))) == [Copied([Erase(t)], map[], true)]
  {
    BareCommitLeads(t);
    RunRefines(BareCommit(t));
    var id := CommitIdOf(t);
    assert Copies(Stored(t).layers, [id]) == [Erase(t)];
    assert Abs(Stored(t)) == [AbsSession(Stored(t).layers, Stored(t).sessions[0])];
  }

  /** And a session can tell: after it has committed a tree, what it mounts from the shared store is
      what it would mount from its own copy, over every base, if and only if the tree is covered. */
  lemma {:induction false} SessionsTellIff(t: Tree)
    requires AcceptableUpper(t)
    ensures IsRun(Init(), BareCommit(t)) && |After(Init(), BareCommit(t)).sessions| == 1
    ensures |SimpleAfter([], SimpleRun(Init(), BareCommit(t)))| == 1
    ensures Covered(t) <==> forall base | ViewLike(base) ::
      SessionView(After(Init(), BareCommit(t)), base, 0)
      == CopiedView(base, SimpleAfter([], SimpleRun(Init(), BareCommit(t)))[0])
  {
    BareCommitLeads(t);
    CopiesOfStored(t);
    CoveredIff(t);
    forall base | ViewLike(base)
      ensures SessionView(Stored(t), base, 0) == Merge(base, t)
      ensures CopiedView(base, Copied([Erase(t)], map[], true)) == Merge(base, Erase(t))
    {
      StoredView(t, base);
      CopiedAs(t, base);
    }
  }
}
