/** The in-place operations against the protocol: run on the store and the session of a protocol
    state, each leaves what its steps in a row leave. */
module StoreInPlace {
  import opened FileTree
  import opened Manifest
  import opened ManifestBuilder
  import opened StoreProtocol
  import opened StoreSafety
  import opened StoreSequential
  import LayerStore

  /** The object holds the store of the protocol state. */
  ghost predicate Holds(store: LayerStore.Store, s: State)
    reads store
  {
    store.index == s.index && store.layers == s.layers
  }

  /** The object holds a session that is between operations. */
  ghost predicate HoldsSession(session: LayerStore.SessionDir, t: Session)
    reads session
  {
    session.stack == t.stack && session.upper == t.upper && session.meta == t.meta && session.exists'
    && t.pc.Idle? && t.meta == t.stack
  }

  /** A commit in place and the seven steps of a commit end alike. */
  method CommitInPlace(store: LayerStore.Store, session: LayerStore.SessionDir, listing: map<Path, seq<string>>,
                       ghost s: State, ghost i: nat)
    requires i < |s.sessions| && s.lock.None? && Holds(store, s) && HoldsSession(session, s.sessions[i])
    requires WellFormed(session.upper) && IsListing(session.upper, listing)
    modifies store, session
    ensures IsRun(s, CommitSteps(i))
    ensures Holds(store, After(s, CommitSteps(i))) && i < |After(s, CommitSteps(i)).sessions|
    ensures HoldsSession(session, After(s, CommitSteps(i)).sessions[i])
  {
    var id := store.Commit(session, listing);
    WholeCommit(s, i);
  }

  /** The same for a rollback that finds its id. */
  method RollbackInPlace(store: LayerStore.Store, session: LayerStore.SessionDir, id: CommitId,
                         ghost s: State, ghost i: nat)
    requires i < |s.sessions| && s.lock.None? && Holds(store, s) && HoldsSession(session, s.sessions[i])
    requires id in session.stack
    modifies store, session
    ensures IsRun(s, RollbackSteps(i, id))
    ensures Holds(store, After(s, RollbackSteps(i, id))) && i < |After(s, RollbackSteps(i, id)).sessions|
    ensures HoldsSession(session, After(s, RollbackSteps(i, id)).sessions[i])
  {
    var ok := store.Rollback(session, id);
    WholeRollback(s, i, id);
  }

  method DestroyInPlace(store: LayerStore.Store, session: LayerStore.SessionDir, ghost s: State, ghost i: nat)
    requires i < |s.sessions| && s.lock.None? && Holds(store, s) && HoldsSession(session, s.sessions[i])
    modifies store`index, session
    ensures IsRun(s, DestroySteps(i))
    ensures Holds(store, After(s, DestroySteps(i))) && i < |After(s, DestroySteps(i)).sessions|
    ensures !session.exists' && After(s, DestroySteps(i)).sessions[i].pc.Gone?
  {
    store.Destroy(session);
    WholeDestroy(s, i);
  }

  /** The persisted stacks, in the order the directories are listed in. */
  ghost function MetasIn(s: State, order: seq<nat>): seq<seq<CommitId>> {
    seq(|order|, k requires 0 <= k < |order| => if order[k] < |s.sessions| then s.sessions[order[k]].meta else [])
  }

  lemma LiveIsPersisted(s: State, order: seq<nat>)
    requires Lists(order, OnDisk(s))
    ensures LayerStore.LiveIds(MetasIn(s, order)) == Persisted(s)
  {
    var metas := MetasIn(s, order);
    forall x ensures x in LayerStore.LiveIds(metas) <==> x in Persisted(s) {
      if x in LayerStore.LiveIds(metas) {
        var i, k :| 0 <= i < |metas| && 0 <= k < |metas[i]| && metas[i][k] == x;
        assert order[i] in OnDisk(s);
        assert x in MetaIds(s, order[i]);
      }
      if x in Persisted(s) {
        var i: nat :| i < |s.sessions| && x in MetaIds(s, i);
        assert i in order;
        var j :| 0 <= j < |order| && order[j] == i;
        var k :| 0 <= k < |metas[j]| && metas[j][k] == x;
      }
    }
  }

  /** A collection in place, over the persisted stacks in any listing order, and the steps of a
      collection in that order end alike. */
  method CollectInPlace(store: LayerStore.Store, metas: seq<seq<CommitId>>, ghost s: State, ghost order: seq<nat>)
    returns (removed: seq<CommitId>)
    requires s.lock.None? && s.gc.Off? && Holds(store, s)
    requires Lists(order, OnDisk(s)) && metas == MetasIn(s, order)
    modifies store
    ensures IsRun(s, GcSteps(order)) && Holds(store, After(s, GcSteps(order)))
    ensures forall x :: x in removed <==> x in s.index && x !in After(s, GcSteps(order)).index
  {
    removed := store.Gc(metas);
    WholeGc(s, order);
    LiveIsPersisted(s, order);
  }
}
