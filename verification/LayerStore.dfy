/** The store's operations as the program performs them, updating the index dictionary,
    the layer directories and the session in place. Their contracts are the functions
    the concurrent protocol is built from. */
module LayerStore {
  import opened FileTree
  import opened Overlay
  import opened Manifest
  import opened ManifestBuilder
  import opened LayerIndex
  import opened LayerGc
  import P = StoreProtocol

  class SessionDir {
    var stack: seq<CommitId>
    var upper: Tree
    var meta: seq<CommitId>
    var exists': bool

    constructor ()
      ensures stack == [] && meta == [] && upper == Seeds() && exists'
    {
      stack, meta, upper, exists' := [], [], Seeds(), true;
    }
  }

  /** The ids read from the persisted stacks of all session directories. */
  function LiveIds(metas: seq<seq<CommitId>>): set<CommitId> {
    set i, k | 0 <= i < |metas| && 0 <= k < |metas[i]| :: metas[i][k]
  }

  /** One pass over the candidates is one unfolding of `Peel`. */
  lemma PassOf(index: Index, live: set<CommitId>, doomed: set<CommitId>)
    requires doomed == Candidates(index, live)
    ensures Peel(Drop(index, doomed), live) == Peel(index, live)
    ensures Drop(index, doomed).Keys == index.Keys - doomed
    ensures if doomed == {} then Drop(index, doomed) == index else |Drop(index, doomed)| < |index|
  {
    if doomed == {} {
      DropNothing(index);
    } else {
      DropShrinks(index, doomed);
    }
  }

  method FindCandidates(index: Index, live: set<CommitId>) returns (doomed: set<CommitId>)
    ensures doomed == Candidates(index, live)
  {
    doomed := set x | x in index && x !in live && index[x].sessions <= 0 && index[x].layers <= 0;
  }

  /** The entries in `gone` have been removed from the index and from disk, each once. */
  ghost predicate Removed(before: Index, stored: map<CommitId, Tree>, gone: set<CommitId>,
                          layers: map<CommitId, Tree>, removed: seq<CommitId>) {
    gone <= before.Keys && layers == stored - gone && |removed| == |gone| &&
    forall x :: x in removed <==> x in gone
  }

  lemma RemovedMore(before: Index, stored: map<CommitId, Tree>, gone: set<CommitId>, more: set<CommitId>,
                    layers: map<CommitId, Tree>, removed: seq<CommitId>, extra: seq<CommitId>)
    requires Removed(before, stored, gone, layers, removed)
    requires more <= before.Keys && more !! gone
    requires |extra| == |more| && forall x :: x in extra <==> x in more
    ensures Removed(before, stored, gone + more, layers - more, removed + extra)
  {
    assert (stored - gone) - more == stored - (gone + more);
  }

  /** The state of the removal loop between passes. */
  ghost predicate Collecting(before: Index, stored: map<CommitId, Tree>, live: set<CommitId>, gone: set<CommitId>,
                             index: Index, layers: map<CommitId, Tree>, removed: seq<CommitId>) {
    index.Keys == before.Keys - gone && Peel(index, live) == Peel(before, live) &&
    Removed(before, stored, gone, layers, removed)
  }

  lemma CollectingStep(before: Index, stored: map<CommitId, Tree>, live: set<CommitId>, gone: set<CommitId>,
                       index: Index, layers: map<CommitId, Tree>, removed: seq<CommitId>,
                       doomed: set<CommitId>, more: seq<CommitId>)
    requires Collecting(before, stored, live, gone, index, layers, removed)
    requires doomed == Candidates(index, live)
    requires |more| == |doomed| && forall x :: x in more <==> x in doomed
    ensures Collecting(before, stored, live, gone + doomed, Drop(index, doomed), layers - doomed, removed + more)
  {
    PassOf(index, live, doomed);
    CollectingMore(before, stored, live, gone, index, Drop(index, doomed), layers, removed, doomed, more);
  }

  lemma CollectingMore(before: Index, stored: map<CommitId, Tree>, live: set<CommitId>, gone: set<CommitId>,
                       index: Index, index': Index, layers: map<CommitId, Tree>, removed: seq<CommitId>,
                       doomed: set<CommitId>, more: seq<CommitId>)
    requires Collecting(before, stored, live, gone, index, layers, removed)
    requires doomed <= index.Keys && index'.Keys == index.Keys - doomed
    requires Peel(index', live) == Peel(index, live)
    requires |more| == |doomed| && forall x :: x in more <==> x in doomed
    ensures Collecting(before, stored, live, gone + doomed, index', layers - doomed, removed + more)
  {
    RemovedMore(before, stored, gone, doomed, layers, removed, more);
    assert index'.Keys == before.Keys - (gone + doomed);
  }

  lemma PassProgress(index: Index, live: set<CommitId>, doomed: set<CommitId>, more: seq<CommitId>)
    requires doomed == Candidates(index, live)
    requires |more| == |doomed| && forall x :: x in more <==> x in doomed
    ensures if more == [] then Candidates(Drop(index, doomed), live) == {} else |Drop(index, doomed)| < |index|
  {
    PassOf(index, live, doomed);
    assert more != [] ==> more[0] in doomed;
  }

  lemma CollectingDone(before: Index, stored: map<CommitId, Tree>, live: set<CommitId>, gone: set<CommitId>,
                       index: Index, layers: map<CommitId, Tree>, removed: seq<CommitId>)
    requires Collecting(before, stored, live, gone, index, layers, removed) && Candidates(index, live) == {}
    ensures index == Peel(before, live)
    ensures Removed(before, stored, before.Keys - index.Keys, layers, removed)
  {
    assert before.Keys - index.Keys == gone;
  }

  /** Every id that some persisted stack lists still has its entry and its tree. */
  ghost predicate ListedKept(metas: seq<seq<CommitId>>, before: Index, stored: map<CommitId, Tree>,
                             after: Index, layers: map<CommitId, Tree>) {
    forall i, k | 0 <= i < |metas| && 0 <= k < |metas[i]| ::
      var x := metas[i][k];
      (x in before ==> x in after) && (x in stored ==> x in layers && layers[x] == stored[x])
  }

  lemma ListedStay(metas: seq<seq<CommitId>>, before: Index, after: Index)
    requires after == Peel(before, LiveIds(metas))
    ensures forall i, k | 0 <= i < |metas| && 0 <= k < |metas[i]| :: metas[i][k] in before ==> metas[i][k] in after
  {
    var live := LiveIds(metas);
    PeelKeepsUsed(before, live);
    forall i, k | 0 <= i < |metas| && 0 <= k < |metas[i]| && metas[i][k] in before ensures metas[i][k] in after {
      assert metas[i][k] in live;
      assert Used(before, live, metas[i][k]);
    }
  }

  class Store {
    var index: Index
    var layers: map<CommitId, Tree>

    constructor ()
      ensures index == map[] && layers == map[]
    {
      index, layers := map[], map[];
    }

    method BumpEntry(id: CommitId)
      modifies this`index
      ensures index == BumpLayers(old(index), id)
    {
      if id in index {
        index := index[id := index[id].(layers := index[id].layers + 1)];
      }
    }

    /** The read-modify-write of the index, for a new layer or a deduplicated one. */
    method CountCommit(id: CommitId, stack: seq<CommitId>)
      modifies this`index
      ensures index == CommitIndex(old(index), id, Tip(stack))
    {
      if id !in index {
        index := index[id := IndexEntry(1, 0, Tip(stack))];
        if stack != [] {
          BumpEntry(stack[|stack| - 1]);
        }
      } else {
        index := index[id := index[id].(sessions := index[id].sessions + 1)];
        if index[id].parent.None? && stack != [] {
          index := index[id := index[id].(parent := Tip(stack))];
          BumpEntry(stack[|stack| - 1]);
        }
      }
    }

    /** Freezes the upper as a layer under its content address, or reuses the layer
        already there, and starts the session on a fresh upper. */
    method Commit(session: SessionDir, listing: map<Path, seq<string>>) returns (id: CommitId)
      requires WellFormed(session.upper) && IsListing(session.upper, listing)
      modifies this, session
      ensures id == CommitIdOf(old(session.upper))
      ensures layers == if id in old(layers) then old(layers) else old(layers)[id := old(session.upper)]
      ensures index == CommitIndex(old(index), id, Tip(old(session.stack)))
      ensures session.stack == old(session.stack) + [id] && session.meta == session.stack
      ensures session.upper == Seeds() && session.exists' == old(session.exists')
    {
      var text := ComputeManifest(session.upper, listing);
      id := CommitId(text);
      if id !in layers {
        layers := layers[id := session.upper];
      }
      CountCommit(id, session.stack);
      session.stack := session.stack + [id];
      session.meta := session.stack;
      session.upper := Seeds();
    }

    method ReleaseAll(ids: seq<CommitId>)
      modifies this`index
      ensures index == Release(old(index), ids)
    {
      for i := 0 to |ids|
        invariant Release(index, ids[i..]) == Release(old(index), ids)
      {
        assert ids[i..][1..] == ids[i + 1..];
        if ids[i] in index {
          index := index[ids[i] := index[ids[i]].(sessions := Max(0, index[ids[i]].sessions - 1))];
        }
      }
    }

    /** `list.index` finds the first occurrence; a missing id raises and changes nothing. */
    method Rollback(session: SessionDir, id: CommitId) returns (ok: bool)
      modifies this, session
      ensures ok <==> id in old(session.stack)
      ensures !ok ==> index == old(index) && session.stack == old(session.stack) &&
                      session.upper == old(session.upper) && session.meta == old(session.meta)
      ensures ok ==> var n := P.FirstIndex(old(session.stack), id) + 1;
                     n <= |old(session.stack)| &&
                     session.stack == old(session.stack)[..n] && session.meta == session.stack &&
                     session.upper == Seeds() &&
                     index == Release(old(index), old(session.stack)[n..])
      ensures layers == old(layers) && session.exists' == old(session.exists')
    {
      var n := 0;
      while n < |session.stack| && session.stack[n] != id
        invariant n <= |session.stack| && forall k | 0 <= k < n :: session.stack[k] != id
      {
        n := n + 1;
      }
      ok := n < |session.stack|;
      if ok {
        P.FirstIndexIs(session.stack, id);
        var removed := session.stack[n + 1..];
        session.stack := session.stack[..n + 1];
        ReleaseAll(removed);
        session.upper := Seeds();
        session.meta := session.stack;
      }
    }

    method Reset(session: SessionDir)
      modifies session`upper
      ensures session.upper == Seeds()
    {
      session.upper := Seeds();
    }

    method Destroy(session: SessionDir)
      modifies this`index, session
      ensures index == Release(old(index), old(session.stack)) && !session.exists'
    {
      ReleaseAll(session.stack);
      session.exists' := false;
    }

    method PopEntry(id: CommitId)
      requires id in index
      modifies this`index
      ensures index == RemoveOne(old(index), id)
    {
      var parent := index[id].parent;
      index := index - {id};
      if parent.Some? && parent.value in index {
        index := index[parent.value := index[parent.value].(layers := Max(0, index[parent.value].layers - 1))];
      }
    }

    method RemoveLayer(id: CommitId, removed: seq<CommitId>,
                       ghost before: Index, ghost stored: map<CommitId, Tree>, ghost gone: set<CommitId>)
      returns (removed': seq<CommitId>)
      requires id in before && id !in gone && index == Drop(before, gone)
      requires Removed(before, stored, gone, layers, removed)
      modifies this
      ensures index == Drop(before, gone + {id})
      ensures Removed(before, stored, gone + {id}, layers, removed')
    {
      DropStep(before, gone, id);
      RemovedMore(before, stored, gone, {id}, layers, removed, [id]);
      PopEntry(id);
      layers := layers - {id};
      removed' := removed + [id];
    }

    /** One pass of the removal loop over a fixed set of candidates, in any order. */
    method RemoveAll(doomed: set<CommitId>) returns (removed: seq<CommitId>)
      requires doomed <= index.Keys
      modifies this
      ensures index == Drop(old(index), doomed)
      ensures Removed(old(index), old(layers), doomed, layers, removed)
    {
      removed := [];
      var todo := doomed;
      ghost var gone: set<CommitId> := {};
      DropNothing(index);
      while todo != {}
        invariant gone !! todo && gone + todo == doomed
        invariant index == Drop(old(index), gone)
        invariant Removed(old(index), old(layers), gone, layers, removed)
      {
        var id :| id in todo;
        todo := todo - {id};
        removed := RemoveLayer(id, removed, old(index), old(layers), gone);
        gone := gone + {id};
      }
      assert gone == doomed;
    }

    method Pass(live: set<CommitId>) returns (more: seq<CommitId>, ghost doomed: set<CommitId>)
      modifies this
      ensures doomed == Candidates(old(index), live)
      ensures index == Drop(old(index), doomed)
      ensures layers == old(layers) - doomed
      ensures |more| == |doomed| && forall x :: x in more <==> x in doomed
    {
      var found := FindCandidates(index, live);
      more := RemoveAll(found);
      doomed := found;
    }

    /** Removes unreferenced entries until a pass removes none. */
    method Sweep(live: set<CommitId>) returns (removed: seq<CommitId>)
      modifies this
      ensures index == Peel(old(index), live)
      ensures Removed(old(index), old(layers), old(index).Keys - index.Keys, layers, removed)
    {
      removed := [];
      var changed := true;
      ghost var gone: set<CommitId> := {};
      while changed
        invariant Collecting(old(index), old(layers), live, gone, index, layers, removed)
        invariant !changed ==> Candidates(index, live) == {}
        decreases |index|, changed
      {
        ghost var before, stored := index, layers;
        var more, doomed := Pass(live);
        CollectingStep(old(index), old(layers), live, gone, before, stored, removed, doomed, more);
        PassProgress(before, live, doomed, more);
        removed, gone, changed := removed + more, gone + doomed, more != [];
      }
      CollectingDone(old(index), old(layers), live, gone, index, layers, removed);
    }

    /** Collection: gather the live ids, then sweep. Whatever the counts say, nothing that a persisted
        stack lists is lost, and every removed id is reported once. */
    method Gc(metas: seq<seq<CommitId>>) returns (removed: seq<CommitId>)
      modifies this
      ensures index == Peel(old(index), LiveIds(metas))
      ensures ListedKept(metas, old(index), old(layers), index, layers)
      ensures Removed(old(index), old(layers), old(index).Keys - index.Keys, layers, removed)
    {
      removed := Sweep(LiveIds(metas));
      ListedStay(metas, old(index), index);
    }
  }
}
