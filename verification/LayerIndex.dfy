/** `index.json`: per layer two reference counts and a parent link, and the edits the
    store makes to it under the index lock. Message, size and time stamps, which
    nothing branches on, are not kept. */
module LayerIndex {
  import opened Wrappers
  import opened Manifest

  datatype IndexEntry = IndexEntry(sessions: int, layers: int, parent: Option<CommitId>)

  type Index = map<CommitId, IndexEntry>

  function Max(a: int, b: int): int {
    if a < b then b else a
  }

  function Tip(stack: seq<CommitId>): Option<CommitId> {
    if stack == [] then None else Some(stack[|stack| - 1])
  }

  function BumpLayers(index: Index, id: CommitId): Index {
    if id in index then index[id := index[id].(layers := index[id].layers + 1)] else index
  }

  /** The read-modify-write of `commit`. In the dedupe branch the link may point to the
      layer itself or to a descendant of it. */
  function CommitIndex(index: Index, id: CommitId, tip: Option<CommitId>): Index {
    if id !in index then
      var added := index[id := IndexEntry(1, 0, tip)];
      if tip.Some? then BumpLayers(added, tip.value) else added
    else
      var seen := index[id := index[id].(sessions := index[id].sessions + 1)];
      if index[id].parent.None? && tip.Some? then
        BumpLayers(seen[id := seen[id].(parent := tip)], tip.value)
      else seen
  }

  /** `rollback` and `destroy` drop one session reference, clamped and guarded. */
  function ReleaseOne(index: Index, id: CommitId): Index {
    if id in index then index[id := index[id].(sessions := Max(0, index[id].sessions - 1))]
    else index
  }

  function Release(index: Index, ids: seq<CommitId>): Index {
    if ids == [] then index else Release(ReleaseOne(index, ids[0]), ids[1..])
  }

  /** The parent link: a new layer gets the top of the session's stack, an old one only if it has none, and
      no other layer's link changes. */
  lemma CommitParent(index: Index, id: CommitId, stack: seq<CommitId>)
    ensures var index' := CommitIndex(index, id, Tip(stack));
      id in index' && index'[id].parent ==
        (if id in index && index[id].parent.Some? then index[id].parent
         else if stack == [] then None else Some(stack[|stack| - 1]))
      && forall x | x in index && x != id :: x in index' && index'[x].parent == index[x].parent
  {
  }

  // ---- What the counts count ----

  ghost function ChildrenOf(index: Index, id: CommitId): set<CommitId> {
    set c | c in index && index[c].parent == Some(id)
  }

  /** `refcount_layers` counts the entries whose parent the layer is, itself included,
      and every parent link leads to an entry. */
  ghost predicate LayersExact(index: Index) {
    (forall x | x in index :: index[x].layers == |ChildrenOf(index, x)|) &&
    (forall x | x in index && index[x].parent.Some? :: index[x].parent.value in index)
  }

  ghost function SessionCount(index: Index, id: CommitId): int {
    if id in index then index[id].sessions else 0
  }

  /** The session counts are exactly the multiset of charged references. */
  ghost predicate SessionsExact(index: Index, charged: multiset<CommitId>) {
    forall x :: SessionCount(index, x) == charged[x]
  }

  lemma CommitCountsSession(index: Index, id: CommitId, tip: Option<CommitId>, charged: multiset<CommitId>)
    requires SessionsExact(index, charged)
    ensures SessionsExact(CommitIndex(index, id, tip), charged + multiset{id})
    ensures CommitIndex(index, id, tip).Keys == index.Keys + {id}
  {
    var index' := CommitIndex(index, id, tip);
    forall x ensures SessionCount(index', x) == (charged + multiset{id})[x] {
      assert SessionCount(index, x) == charged[x];
    }
  }

  lemma NewEntryKeepsExact(index: Index, id: CommitId)
    requires LayersExact(index) && id !in index
    ensures LayersExact(index[id := IndexEntry(1, 0, None)])
  {
    var index' := index[id := IndexEntry(1, 0, None)];
    assert ChildrenOf(index', id) == {};
    forall x | x in index ensures ChildrenOf(index', x) == ChildrenOf(index, x) {
    }
  }

  lemma NewReferenceKeepsExact(index: Index, id: CommitId)
    requires LayersExact(index) && id in index
    ensures LayersExact(Referenced(index, id))
  {
    var index' := Referenced(index, id);
    forall x | x in index ensures ChildrenOf(index', x) == ChildrenOf(index, x) {
    }
  }

  lemma BumpKeepsChildren(index: Index, p: CommitId, x: CommitId)
    ensures ChildrenOf(BumpLayers(index, p), x) == ChildrenOf(index, x)
  {
    var index' := BumpLayers(index, p);
    assert index'.Keys == index.Keys;
    assert forall c | c in index :: index'[c].parent == index[c].parent;
  }

  lemma LinkChildren(index: Index, id: CommitId, p: CommitId, x: CommitId)
    requires id in index && index[id].parent.None?
    ensures ChildrenOf(index[id := index[id].(parent := Some(p))], x) ==
            ChildrenOf(index, x) + (if x == p then {id} else {})
    ensures id !in ChildrenOf(index, x)
  {
  }

  lemma NewLinkKeepsExact(index: Index, id: CommitId, p: CommitId)
    requires LayersExact(index) && id in index && index[id].parent.None? && p in index
    ensures LayersExact(BumpLayers(index[id := index[id].(parent := Some(p))], p))
  {
    var linked := index[id := index[id].(parent := Some(p))];
    var index' := BumpLayers(linked, p);
    forall x | x in index' ensures index'[x].layers == |ChildrenOf(index', x)| {
      BumpKeepsChildren(linked, p, x);
      LinkChildren(index, id, p, x);
      assert index[x].layers == |ChildrenOf(index, x)|;
    }
    forall x | x in index' && index'[x].parent.Some? ensures index'[x].parent.value in index' {
      assert x != id ==> index'[x].parent == index[x].parent;
    }
  }

  lemma CommitNewExact(index: Index, id: CommitId, tip: Option<CommitId>)
    requires LayersExact(index) && id !in index && (tip.Some? ==> tip.value in index)
    ensures LayersExact(CommitIndex(index, id, tip))
  {
    var added := index[id := IndexEntry(1, 0, None)];
    NewEntryKeepsExact(index, id);
    if tip.Some? {
      NewLinkKeepsExact(added, id, tip.value);
      assert added[id := added[id].(parent := tip)] == index[id := IndexEntry(1, 0, tip)];
    }
  }

  /** One more session reference to an entry that is there. */
  function Referenced(index: Index, id: CommitId): Index
    requires id in index
  {
    index[id := index[id].(sessions := index[id].sessions + 1)]
  }

  lemma CommitAgainLinks(index: Index, id: CommitId, p: CommitId)
    requires LayersExact(index) && id in index && index[id].parent.None? && p in index
    ensures LayersExact(CommitIndex(index, id, Some(p)))
  {
    NewReferenceKeepsExact(index, id);
    NewLinkKeepsExact(Referenced(index, id), id, p);
  }

  lemma CommitAgainIs(index: Index, id: CommitId, tip: Option<CommitId>)
    requires id in index && (index[id].parent.Some? || tip.None?)
    ensures CommitIndex(index, id, tip) == Referenced(index, id)
  {
  }

  lemma CommitAgainExact(index: Index, id: CommitId, tip: Option<CommitId>)
    requires LayersExact(index) && id in index && (tip.Some? ==> tip.value in index)
    ensures LayersExact(CommitIndex(index, id, tip))
  {
    if index[id].parent.None? && tip.Some? {
      CommitAgainLinks(index, id, tip.value);
    } else {
      NewReferenceKeepsExact(index, id);
      CommitAgainIs(index, id, tip);
    }
  }

  lemma {:induction false} CommitKeepsLayersExact(index: Index, id: CommitId, tip: Option<CommitId>)
    requires LayersExact(index) && (tip.Some? ==> tip.value in index)
    ensures LayersExact(CommitIndex(index, id, tip))
  {
    if id !in index {
      CommitNewExact(index, id, tip);
    } else {
      CommitAgainExact(index, id, tip);
    }
  }

  /** Where the counts are exact the clamp never bites and the guard is never false. */
  lemma ReleaseOneExact(index: Index, id: CommitId, charged: multiset<CommitId>)
    requires SessionsExact(index, charged) && id in charged
    ensures id in index && index[id].sessions >= 1
    ensures SessionsExact(ReleaseOne(index, id), charged - multiset{id})
  {
    assert SessionCount(index, id) == charged[id];
    var index' := ReleaseOne(index, id);
    forall x ensures SessionCount(index', x) == (charged - multiset{id})[x] {
      assert SessionCount(index, x) == charged[x];
    }
  }

  lemma {:induction false} ReleaseCountsSessions(index: Index, ids: seq<CommitId>, charged: multiset<CommitId>)
    requires SessionsExact(index, charged) && multiset(ids) <= charged
    ensures SessionsExact(Release(index, ids), charged - multiset(ids))
  {
    if ids != [] {
      assert ids == [ids[0]] + ids[1..];
      ReleaseOneExact(index, ids[0], charged);
      assert multiset(ids[1..]) <= charged - multiset{ids[0]};
      ReleaseCountsSessions(ReleaseOne(index, ids[0]), ids[1..], charged - multiset{ids[0]});
      assert charged - multiset{ids[0]} - multiset(ids[1..]) == charged - multiset(ids);
    } else {
      assert charged - multiset(ids) == charged;
    }
  }

  /** Releasing touches session counts only. */
  lemma {:induction false} ReleaseShape(index: Index, ids: seq<CommitId>)
    ensures Release(index, ids).Keys == index.Keys
    ensures forall x | x in index :: Release(index, ids)[x].parent == index[x].parent &&
                                     Release(index, ids)[x].layers == index[x].layers
  {
    if ids != [] { ReleaseShape(ReleaseOne(index, ids[0]), ids[1..]); }
  }

  lemma ReleaseKeepsLayersExact(index: Index, ids: seq<CommitId>)
    requires LayersExact(index)
    ensures LayersExact(Release(index, ids))
  {
    ReleaseShape(index, ids);
    var index' := Release(index, ids);
    forall x | x in index ensures ChildrenOf(index', x) == ChildrenOf(index, x) {
    }
  }
}
