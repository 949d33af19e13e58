/** Which layers garbage collection keeps. `Peel` is the `while changed` loop on the
    index; it is characterised by what it leaves, so no iteration order is involved. */
module LayerGc {
  import opened Wrappers
  import opened Manifest
  import opened LayerIndex

  ghost predicate Used(index: Index, live: set<CommitId>, x: CommitId) {
    x in index && (x in live || index[x].sessions > 0)
  }

  ghost function Candidates(index: Index, live: set<CommitId>): set<CommitId> {
    set x | x in index && x !in live && index[x].sessions <= 0 && index[x].layers <= 0
  }

  /** Popping one entry and decrementing its parent's count, clamped and guarded. */
  function RemoveOne(index: Index, id: CommitId): Index
    requires id in index
  {
    var parent, rest := index[id].parent, index - {id};
    if parent.Some? && parent.value in rest then
      rest[parent.value := rest[parent.value].(layers := Max(0, rest[parent.value].layers - 1))]
    else rest
  }

  function Lowered(layers: int, n: nat): int {
    if n == 0 then layers else Max(0, layers - n)
  }

  /** The index after removing a whole set of entries, in any order. */
  ghost function Drop(index: Index, gone: set<CommitId>): Index {
    map x | x in index && x !in gone ::
      index[x].(layers := Lowered(index[x].layers, |ChildrenOf(index, x) * gone|))
  }

  ghost function Peel(index: Index, live: set<CommitId>): Index
    decreases |index|
  {
    var doomed := Candidates(index, live);
    if doomed == {} then index
    else
      DropShrinks(index, doomed);
      Peel(Drop(index, doomed), live)
  }

  lemma DropShrinks(index: Index, gone: set<CommitId>)
    requires gone != {} && gone <= index.Keys
    ensures |Drop(index, gone)| < |index|
  {
    assert Drop(index, gone).Keys == index.Keys - gone;
    assert |index.Keys - gone| == |index.Keys| - |gone|;
  }

  lemma DropNothing(index: Index)
    ensures Drop(index, {}) == index
  {
    forall x | x in index ensures Drop(index, {})[x] == index[x] {
      assert ChildrenOf(index, x) * {} == {};
    }
  }

  lemma KidsWith(kids: set<CommitId>, gone: set<CommitId>, id: CommitId)
    requires id !in gone
    ensures |kids * (gone + {id})| == |kids * gone| + (if id in kids then 1 else 0)
  {
    if id in kids {
      assert kids * (gone + {id}) == kids * gone + {id};
    } else {
      assert kids * (gone + {id}) == kids * gone;
    }
  }

  lemma LoweredOnce(layers: int, n: nat)
    ensures Max(0, Lowered(layers, n) - 1) == Lowered(layers, n + 1)
  {
  }

  lemma RemoveOneAt(index: Index, id: CommitId, x: CommitId)
    requires id in index && x in index && x != id
    ensures x in RemoveOne(index, id)
    ensures RemoveOne(index, id)[x] ==
            if index[id].parent == Some(x) then index[x].(layers := Max(0, index[x].layers - 1)) else index[x]
  {
  }

  /** Removing one more entry after a set of them is removing the larger set. */
  lemma {:induction false} DropStep(index: Index, gone: set<CommitId>, id: CommitId)
    requires id in index && id !in gone
    ensures id in Drop(index, gone)
    ensures RemoveOne(Drop(index, gone), id) == Drop(index, gone + {id})
  {
    var one, after := RemoveOne(Drop(index, gone), id), Drop(index, gone + {id});
    assert one.Keys == after.Keys;
    forall x | x in after ensures one[x] == after[x] {
      DropStepAt(index, gone, id, x);
    }
  }

  lemma DropStepAt(index: Index, gone: set<CommitId>, id: CommitId, x: CommitId)
    requires id in index && id !in gone && x in index && x !in gone && x != id
    ensures x in RemoveOne(Drop(index, gone), id)
    ensures RemoveOne(Drop(index, gone), id)[x] == Drop(index, gone + {id})[x]
  {
    RemoveOneAt(Drop(index, gone), id, x);
    KidsWith(ChildrenOf(index, x), gone, id);
    LoweredOnce(index[x].layers, |ChildrenOf(index, x) * gone|);
  }

  // ---- What survives, for any index ----

  /** Live ids and ids with a positive session count are kept whatever the counts say,
      no entry is invented, and links and session counts stay as they were. */
  lemma {:induction false} PeelKeepsUsed(index: Index, live: set<CommitId>)
    ensures Peel(index, live).Keys <= index.Keys
    ensures forall x | x in Peel(index, live) ::
              Peel(index, live)[x].parent == index[x].parent &&
              Peel(index, live)[x].sessions == index[x].sessions
    ensures forall x | Used(index, live, x) :: x in Peel(index, live)
    ensures Candidates(Peel(index, live), live) == {}
    decreases |index|
  {
    var doomed := Candidates(index, live);
    if doomed != {} {
      DropShrinks(index, doomed);
      PeelKeepsUsed(Drop(index, doomed), live);
      forall x | Used(index, live, x) ensures Used(Drop(index, doomed), live, x) {
      }
    }
  }

  /** A second collection removes nothing. */
  lemma PeelIdempotent(index: Index, live: set<CommitId>)
    ensures Peel(Peel(index, live), live) == Peel(index, live)
  {
    PeelKeepsUsed(index, live);
  }

  // ---- Exactness, where the layer counts are exact ----

  lemma DropKeepsExact(index: Index, live: set<CommitId>)
    requires LayersExact(index)
    ensures LayersExact(Drop(index, Candidates(index, live)))
  {
    var doomed := Candidates(index, live);
    var index' := Drop(index, doomed);
    forall x | x in index' ensures index'[x].layers == |ChildrenOf(index', x)| {
      var kids := ChildrenOf(index, x);
      assert ChildrenOf(index', x) == kids - doomed;
      assert |kids * doomed| + |kids - doomed| == |kids| by {
        assert kids * doomed + (kids - doomed) == kids;
      }
    }
    forall x | x in index' && index'[x].parent.Some? ensures index'[x].parent.value in index' {
      var p := index[x].parent.value;
      assert x in ChildrenOf(index, p);
      assert index[p].layers == |ChildrenOf(index, p)| > 0;
    }
  }

  lemma {:induction false} PeelKeepsExact(index: Index, live: set<CommitId>)
    requires LayersExact(index)
    ensures LayersExact(Peel(index, live))
    decreases |index|
  {
    var doomed := Candidates(index, live);
    if doomed != {} {
      DropShrinks(index, doomed);
      DropKeepsExact(index, live);
      PeelKeepsExact(Drop(index, doomed), live);
    }
  }

  /** The index after `n` passes of the loop. */
  ghost function Passed(index: Index, live: set<CommitId>, n: nat): Index {
    if n == 0 then index else Passed(Drop(index, Candidates(index, live)), live, n - 1)
  }

  lemma {:induction false} PassesKeepExact(index: Index, live: set<CommitId>, n: nat)
    requires LayersExact(index)
    ensures LayersExact(Passed(index, live, n))
    decreases n
  {
    if n > 0 {
      DropKeepsExact(index, live);
      PassesKeepExact(Drop(index, Candidates(index, live)), live, n - 1);
    }
  }

  /** At every point of a pass the parent of the next candidate is still there, is another
      layer, and has a count to spare: the guard is never false and the clamp never bites. */
  lemma RemovalHasToSpare(index: Index, live: set<CommitId>, gone: set<CommitId>, id: CommitId)
    requires LayersExact(index) && gone <= Candidates(index, live) && id in Candidates(index, live) - gone
    requires index[id].parent.Some?
    ensures var p, now := index[id].parent.value, Drop(index, gone);
      id in now && p in now - {id} && now[p].layers >= 1
  {
    var p := index[id].parent.value;
    var kids := ChildrenOf(index, p);
    assert id in kids && index[p].layers == |kids|;
    assert |kids * gone| + |kids - gone| == |kids| by {
      assert kids * gone + (kids - gone) == kids;
    }
    assert id in kids - gone;
  }

  /** Every member is in use or has a child in the set. */
  ghost predicate Supported(index: Index, live: set<CommitId>, kept: set<CommitId>) {
    kept <= index.Keys &&
    forall x | x in kept :: Used(index, live, x) || exists c | c in kept :: index[c].parent == Some(x)
  }

  lemma {:induction false} PeelContainsSupported(index: Index, live: set<CommitId>, kept: set<CommitId>)
    requires LayersExact(index) && Supported(index, live, kept)
    ensures kept <= Peel(index, live).Keys
    decreases |index|
  {
    var doomed := Candidates(index, live);
    if doomed != {} {
      forall x | x in kept ensures x !in doomed {
        if !Used(index, live, x) {
          var c :| c in kept && index[c].parent == Some(x);
          assert c in ChildrenOf(index, x);
          assert index[x].layers == |ChildrenOf(index, x)|;
        }
      }
      var index' := Drop(index, doomed);
      forall x | x in kept
        ensures Used(index', live, x) || exists c | c in kept :: index'[c].parent == Some(x)
      {
        assert Used(index, live, x) ==> Used(index', live, x);
        if !Used(index, live, x) {
          var c :| c in kept && index[c].parent == Some(x);
          assert index'[c].parent == Some(x);
        }
      }
      DropShrinks(index, doomed);
      DropKeepsExact(index, live);
      PeelContainsSupported(index', live, kept);
    }
  }

  /** Collection leaves exactly the greatest set in which each member is live, has a
      positive session count, or has a child in the set. */
  lemma {:induction false} PeelIsGreatest(index: Index, live: set<CommitId>)
    requires LayersExact(index)
    ensures Supported(index, live, Peel(index, live).Keys)
    ensures forall kept | Supported(index, live, kept) :: kept <= Peel(index, live).Keys
  {
    var index' := Peel(index, live);
    PeelKeepsUsed(index, live);
    PeelKeepsExact(index, live);
    forall x | x in index' && !Used(index, live, x)
      ensures exists c | c in index'.Keys :: index[c].parent == Some(x)
    {
      assert x !in Candidates(index', live);
      assert ChildrenOf(index', x) != {};
      var c :| c in ChildrenOf(index', x);
      assert c in index'.Keys && index[c].parent == Some(x);
    }
    forall kept | Supported(index, live, kept) ensures kept <= index'.Keys {
      PeelContainsSupported(index, live, kept);
    }
  }

  // ---- The same set by ancestry ----

  /** `y` reaches `x` by following `k` parent links. */
  ghost predicate Descends(index: Index, y: CommitId, x: CommitId, k: nat)
    decreases k
  {
    if k == 0 then y == x
    else y in index && index[y].parent.Some? && Descends(index, index[y].parent.value, x, k - 1)
  }

  ghost predicate OnCycle(index: Index, x: CommitId) {
    exists k: nat | k > 0 :: Descends(index, x, x, k)
  }

  /** In use, or an ancestor of a layer in use. */
  ghost predicate Needed(index: Index, live: set<CommitId>, x: CommitId) {
    exists y, k: nat :: Used(index, live, y) && Descends(index, y, x, k)
  }

  /** Needed, or an ancestor of a parent cycle (or on one). */
  ghost predicate Held(index: Index, live: set<CommitId>, x: CommitId) {
    exists y, k: nat :: (Used(index, live, y) || (y in index && OnCycle(index, y))) && Descends(index, y, x, k)
  }

  lemma {:induction false} DescendsTransitive(index: Index, z: CommitId, y: CommitId, x: CommitId, j: nat, k: nat)
    requires Descends(index, z, y, j) && Descends(index, y, x, k)
    ensures Descends(index, z, x, j + k)
    decreases j
  {
    if j > 0 { DescendsTransitive(index, index[z].parent.value, y, x, j - 1, k); }
  }

  /** The last link of a descent comes from a child. */
  lemma {:induction false} LastLink(index: Index, y: CommitId, x: CommitId, k: nat) returns (c: CommitId)
    requires k > 0 && Descends(index, y, x, k)
    ensures c in index && index[c].parent == Some(x) && Descends(index, y, c, k - 1)
    decreases k
  {
    if k == 1 { c := y; }
    else { c := LastLink(index, index[y].parent.value, x, k - 1); }
  }

  lemma CycleIntro(index: Index, x: CommitId, k: nat)
    requires k > 0 && Descends(index, x, x, k)
    ensures OnCycle(index, x)
  {
  }

  lemma HeldIntro(index: Index, live: set<CommitId>, y: CommitId, x: CommitId, k: nat)
    requires (Used(index, live, y) || (y in index && OnCycle(index, y))) && Descends(index, y, x, k)
    ensures Held(index, live, x)
  {
  }

  lemma HeldIsSupported(index: Index, live: set<CommitId>)
    ensures Supported(index, live, set x | x in index && Held(index, live, x))
  {
    var held := set x | x in index && Held(index, live, x);
    forall x | x in held && !Used(index, live, x)
      ensures exists c | c in held :: index[c].parent == Some(x)
    {
      var y, k: nat :|
        (Used(index, live, y) || (y in index && OnCycle(index, y))) && Descends(index, y, x, k);
      if k > 0 {
        var c := LastLink(index, y, x, k);
        HeldIntro(index, live, y, c, k - 1);
        assert c in held;
      } else {
        var n: nat :| n > 0 && Descends(index, x, x, n);
        var c := LastLink(index, x, x, n);
        assert Descends(index, c, x, 1);
        DescendsTransitive(index, c, x, c, 1, n - 1);
        CycleIntro(index, c, n);
        HeldIntro(index, live, c, c, 0);
        assert c in held;
      }
    }
  }

  /** `path` runs from a layer down child links inside `kept`, without repeating. */
  ghost predicate DownPath(index: Index, kept: set<CommitId>, path: seq<CommitId>) {
    path != [] &&
    (forall i | 0 <= i < |path| :: path[i] in kept && path[i] in index) &&
    (forall i | 0 <= i < |path| - 1 :: index[path[i + 1]].parent == Some(path[i])) &&
    (forall i, j | 0 <= i < j < |path| :: path[i] != path[j])
  }

  lemma {:induction false} PathDescends(index: Index, kept: set<CommitId>, path: seq<CommitId>, i: nat, j: nat)
    requires DownPath(index, kept, path) && i <= j < |path|
    ensures Descends(index, path[j], path[i], j - i)
    decreases j
  {
    if i < j { PathDescends(index, kept, path, i, j - 1); }
  }

  lemma {:induction false} DistinctFits(path: seq<CommitId>, kept: set<CommitId>)
    requires forall i | 0 <= i < |path| :: path[i] in kept
    requires forall i, j | 0 <= i < j < |path| :: path[i] != path[j]
    ensures |path| <= |kept|
  {
    if path != [] {
      DistinctFits(path[1..], kept - {path[0]});
    }
  }

  /** Going down from a kept layer ends at one in use or closes a cycle. */
  lemma {:induction false} KeptIsHeld(index: Index, live: set<CommitId>, kept: set<CommitId>, path: seq<CommitId>)
    requires Supported(index, live, kept) && DownPath(index, kept, path)
    ensures Held(index, live, path[0])
    decreases |kept| - |path|
  {
    DistinctFits(path, kept);
    var n := |path| - 1;
    var last := path[n];
    if Used(index, live, last) {
      PathDescends(index, kept, path, 0, n);
      HeldIntro(index, live, last, path[0], n);
    } else {
      var c :| c in kept && index[c].parent == Some(last);
      if j :| 0 <= j <= n && path[j] == c {
        PathDescends(index, kept, path, j, n);
        assert Descends(index, c, last, 1);
        DescendsTransitive(index, c, last, c, 1, n - j);
        CycleIntro(index, c, 1 + (n - j));
        PathDescends(index, kept, path, 0, j);
        HeldIntro(index, live, c, path[0], j);
      } else {
        DistinctFits(path + [c], kept);
        KeptIsHeld(index, live, kept, path + [c]);
        assert (path + [c])[0] == path[0];
      }
    }
  }

  /** Collection keeps exactly the layers in use, the layers on parent cycles, and the
      ancestors of both. */
  lemma {:induction false} PeelKeepsHeld(index: Index, live: set<CommitId>, x: CommitId)
    requires LayersExact(index)
    ensures x in Peel(index, live) <==> x in index && Held(index, live, x)
  {
    PeelIsGreatest(index, live);
    HeldIsSupported(index, live);
    var held := set y | y in index && Held(index, live, y);
    assert held <= Peel(index, live).Keys;
    if x in Peel(index, live) {
      KeptIsHeld(index, live, Peel(index, live).Keys, [x]);
    } else {
      assert x !in held;
    }
  }

  lemma NeededIntro(index: Index, live: set<CommitId>, y: CommitId, x: CommitId, k: nat)
    requires Used(index, live, y) && Descends(index, y, x, k)
    ensures Needed(index, live, x)
  {
  }

  lemma NeededUpward(index: Index, live: set<CommitId>, y: CommitId, x: CommitId, k: nat)
    requires Needed(index, live, y) && Descends(index, y, x, k)
    ensures Needed(index, live, x)
  {
    var z, j: nat :| Used(index, live, z) && Descends(index, z, y, j);
    DescendsTransitive(index, z, y, x, j, k);
    NeededIntro(index, live, z, x, j + k);
  }

  /** The documentation promises that every unreferenced layer goes. That holds if and
      only if no parent cycle lies outside what is needed. */
  lemma {:induction false} PeelCollectsAllIff(index: Index, live: set<CommitId>)
    requires LayersExact(index)
    ensures (forall x | x in Peel(index, live) :: Needed(index, live, x)) <==>
            (forall x | x in index && OnCycle(index, x) :: Needed(index, live, x))
  {
    if forall x | x in index && OnCycle(index, x) :: Needed(index, live, x) {
      forall x | x in Peel(index, live) ensures Needed(index, live, x) {
        PeelKeepsHeld(index, live, x);
        var y, k: nat :|
          (Used(index, live, y) || (y in index && OnCycle(index, y))) && Descends(index, y, x, k);
        if Used(index, live, y) { NeededIntro(index, live, y, x, k); }
        else { NeededUpward(index, live, y, x, k); }
      }
    }
    if forall x | x in Peel(index, live) :: Needed(index, live, x) {
      forall x | x in index && OnCycle(index, x) ensures Needed(index, live, x) {
        PeelKeepsHeld(index, live, x);
        HeldIntro(index, live, x, x, 0);
      }
    }
  }

  /** With acyclic parent links, what stays is exactly the layers in use and their
      ancestors. */
  lemma {:induction false} PeelAcyclic(index: Index, live: set<CommitId>, x: CommitId)
    requires LayersExact(index) && forall y | y in index :: !OnCycle(index, y)
    ensures x in Peel(index, live) <==> x in index && Needed(index, live, x)
  {
    PeelCollectsAllIff(index, live);
    PeelKeepsHeld(index, live, x);
    if x in index && Needed(index, live, x) {
      var y, k: nat :| Used(index, live, y) && Descends(index, y, x, k);
      HeldIntro(index, live, y, x, k);
    }
  }

  // ---- Where parent cycles come from ----

  ghost predicate Acyclic(index: Index) {
    forall x | x in index :: !OnCycle(index, x)
  }

  /** The commit gives an existing entry without a parent the tip as its parent, and the tip
      is that entry itself or one of its descendants. */
  ghost predicate LinksBack(index: Index, id: CommitId, tip: Option<CommitId>) {
    id in index && index[id].parent.None? && tip.Some? && exists k: nat :: Descends(index, tip.value, id, k)
  }

  /** The same entries and parents, but for `id`. */
  ghost predicate SameLinksBut(index: Index, index': Index, id: CommitId) {
    index.Keys + {id} == index'.Keys + {id} &&
    forall z | z in index && z != id :: index'[z].parent == index[z].parent
  }

  lemma CommitLinks(index: Index, id: CommitId, tip: Option<CommitId>)
    requires tip.Some? ==> tip.value in index
    ensures var index' := CommitIndex(index, id, tip);
      SameLinksBut(index, index', id) && id in index'
      && index'[id].parent == if id in index && index[id].parent.Some? then index[id].parent else tip
  {
  }

  /** Up to where it first comes to `id`, a descent is the same in both indexes. */
  lemma {:induction false} FirstArrival(index: Index, index': Index, id: CommitId, y: CommitId, x: CommitId, k: nat)
    returns (j: nat)
    requires SameLinksBut(index, index', id) && Descends(index', y, x, k)
    ensures Descends(index, y, x, k) ||
            (j < k && Descends(index, y, id, j) && Descends(index', y, id, j))
    decreases k
  {
    j := 0;
    if k > 0 && y != id {
      var i := FirstArrival(index, index', id, index[y].parent.value, x, k - 1);
      j := i + 1;
    }
  }

  /** Parents are unique: a descent that is no longer than another is its beginning. */
  lemma {:induction false} DescentContinues(index: Index, y: CommitId, z: CommitId, x: CommitId, j: nat, k: nat)
    requires Descends(index, y, z, j) && Descends(index, y, x, k) && j <= k
    ensures Descends(index, z, x, k - j)
    decreases j
  {
    if j > 0 { DescentContinues(index, index[y].parent.value, z, x, j - 1, k - 1); }
  }

  /** Every entry a descent comes to is in the index. */
  lemma {:induction false} DescentStaysInside(index: Index, y: CommitId, x: CommitId, k: nat)
    requires LayersExact(index) && y in index && Descends(index, y, x, k)
    ensures x in index
    decreases k
  {
    if k > 0 {
      assert index[y].parent.value in index;
      DescentStaysInside(index, index[y].parent.value, x, k - 1);
    }
  }

  lemma CycleMeetsId(index: Index, index': Index, id: CommitId, x: CommitId, k: nat)
    requires Acyclic(index) && SameLinksBut(index, index', id) && k > 0 && Descends(index', x, x, k)
    ensures Descends(index', id, id, k)
  {
    var j := FirstArrival(index, index', id, x, x, k);
    if Descends(index, x, x, k) {
      CycleIntro(index, x, k);
    } else {
      DescentContinues(index', x, id, x, j, k);
      DescendsTransitive(index', id, x, id, k - j, j);
    }
  }

  lemma CycleLinksBack(index: Index, id: CommitId, tip: Option<CommitId>, k: nat)
    requires LayersExact(index) && Acyclic(index) && (tip.Some? ==> tip.value in index)
    requires k > 0 && Descends(CommitIndex(index, id, tip), id, id, k)
    ensures LinksBack(index, id, tip)
  {
    var index' := CommitIndex(index, id, tip);
    CommitLinks(index, id, tip);
    var q := index'[id].parent.value;
    var m := OldArrival(index, index', id, q, k - 1);
    if id in index && index[id].parent.Some? {
      assert Descends(index, id, id, m + 1);
    } else {
      DescentStaysInside(index, q, id, m);
    }
  }

  lemma OldArrival(index: Index, index': Index, id: CommitId, y: CommitId, k: nat) returns (m: nat)
    requires SameLinksBut(index, index', id) && Descends(index', y, id, k)
    ensures Descends(index, y, id, m)
  {
    m := FirstArrival(index, index', id, y, id, k);
    if Descends(index, y, id, k) { m := k; }
  }

  lemma LinkCloses(index: Index, id: CommitId, tip: CommitId, k: nat)
    requires id in index && index[id].parent.None? && tip in index && Descends(index, tip, id, k)
    ensures OnCycle(CommitIndex(index, id, Some(tip)), id)
  {
    var index' := CommitIndex(index, id, Some(tip));
    CommitLinks(index, id, Some(tip));
    var j := FirstArrival(index', index, id, tip, id, k);
    var m := if Descends(index', tip, id, k) then k else j;
    assert Descends(index', id, id, m + 1);
    CycleIntro(index', id, m + 1);
  }

  /** A commit closes a parent cycle if and only if its content is already stored without a
      parent and the session's tip is that layer or a descendant of it. */
  lemma {:induction false} CommitClosesCycleIff(index: Index, id: CommitId, tip: Option<CommitId>)
    requires LayersExact(index) && Acyclic(index) && (tip.Some? ==> tip.value in index)
    ensures !Acyclic(CommitIndex(index, id, tip)) <==> LinksBack(index, id, tip)
  {
    var index' := CommitIndex(index, id, tip);
    if !Acyclic(index') {
      var x :| x in index' && OnCycle(index', x);
      var k: nat :| k > 0 && Descends(index', x, x, k);
      CommitLinks(index, id, tip);
      CycleMeetsId(index, index', id, x, k);
      CycleLinksBack(index, id, tip, k);
    }
    if LinksBack(index, id, tip) {
      var k: nat :| Descends(index, tip.value, id, k);
      LinkCloses(index, id, tip.value, k);
      assert id in index';
    }
  }

  /** Committing the same content twice in a row makes a layer its own parent, so it
      outlives every session that referred to it. */
  lemma SelfParentLeaks(id: CommitId)
    ensures var twice := CommitIndex(CommitIndex(map[], id, None), id, Some(id));
            var released := Release(twice, [id, id]);
            released == map[id := IndexEntry(0, 1, Some(id))] && id in Peel(released, {})
  {
    var once := CommitIndex(map[], id, None);
    var twice := CommitIndex(once, id, Some(id));
    assert twice == map[id := IndexEntry(2, 1, Some(id))];
    assert [id, id][1..] == [id];
    var one := ReleaseOne(twice, id);
    assert one == map[id := IndexEntry(1, 1, Some(id))];
    assert Release(one, [id]) == Release(ReleaseOne(one, id), []);
    assert Candidates(ReleaseOne(one, id), {}) == {};
  }
}
