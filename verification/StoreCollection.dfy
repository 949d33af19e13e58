/** Collection between operations: the layers that stay are those some stack refers to, and
    their ancestors. */
module StoreCollection {
  import opened Manifest
  import opened LayerIndex
  import opened LayerGc
  import opened StoreProtocol
  import opened StoreSafety
  import opened StoreSequential

  ghost predicate InAStack(sessions: seq<Session>, x: CommitId) {
    exists i: nat :: i < |sessions| && !sessions[i].pc.Gone? && x in sessions[i].stack
  }

  /** Some stack refers to the layer, or to a descendant of it. */
  ghost predicate Referenced(s: State, x: CommitId) {
    exists y, k: nat :: InAStack(s.sessions, y) && Descends(s.index, y, x, k)
  }

  lemma {:induction false} OccursIff(sessions: seq<Session>, x: CommitId)
    ensures Occurrences(sessions)[x] > 0 <==> InAStack(sessions, x)
  {
    if sessions != [] {
      var n := |sessions| - 1;
      var front, last := sessions[..n], sessions[n];
      OccursIff(front, x);
      if InAStack(front, x) {
        var i: nat :| i < |front| && !front[i].pc.Gone? && x in front[i].stack;
        assert sessions[i] == front[i];
      }
      assert forall i: nat | i < n :: front[i] == sessions[i];
    }
  }

  lemma QuiescentMetas(s: State, i: nat)
    requires Inv(s) && Quiescent(s) && i < |s.sessions| && !s.sessions[i].pc.Gone?
    ensures s.sessions[i].meta == s.sessions[i].stack
  {
    assert MetaLag(s.sessions[i]);
  }

  lemma UsedIff(s: State, x: CommitId)
    requires Inv(s) && Quiescent(s)
    requires forall y :: SessionCount(s.index, y) == Occurrences(s.sessions)[y]
    ensures Used(s.index, Persisted(s), x) <==> InAStack(s.sessions, x)
  {
    OccursIff(s.sessions, x);
    assert SessionCount(s.index, x) == Occurrences(s.sessions)[x];
    if x in Persisted(s) {
      var i: nat :| i < |s.sessions| && x in MetaIds(s, i);
      QuiescentMetas(s, i);
      assert InAStack(s.sessions, x);
    }
  }

  lemma ReferencedIsNeeded(s: State, x: CommitId)
    requires forall y :: Used(s.index, Persisted(s), y) <==> InAStack(s.sessions, y)
    ensures Referenced(s, x) <==> Needed(s.index, Persisted(s), x)
  {
  }

  lemma QuiescentUse(steps: seq<Step>)
    requires IsRun(Init(), steps) && Quiescent(After(Init(), steps))
    ensures var s := After(Init(), steps);
            LayersExact(s.index) && forall y :: Used(s.index, Persisted(s), y) <==> InAStack(s.sessions, y)
  {
    var s := After(Init(), steps);
    assert Inv(Init());
    RunKeepsInv(Init(), steps);
    CountsConserved(steps);
    forall y ensures Used(s.index, Persisted(s), y) <==> InAStack(s.sessions, y) {
      UsedIff(s, y);
    }
  }

  /** Between operations a collection can be taken, and leaves `Collected`. */
  lemma CollectionRuns(steps: seq<Step>, order: seq<nat>)
    requires IsRun(Init(), steps) && Quiescent(After(Init(), steps)) && Lists(order, OnDisk(After(Init(), steps)))
    ensures Leads(Init(), steps + GcSteps(order), Collected(After(Init(), steps)))
  {
    var s := After(Init(), steps);
    assert Inv(Init());
    RunKeepsInv(Init(), steps);
    WholeGc(s, order);
    Joined(Init(), steps, s, GcSteps(order), Collected(s));
  }

  lemma CollectedKeys(s: State, x: CommitId)
    requires s.layers.Keys == s.index.Keys
    ensures var end := Collected(s);
      end.layers.Keys == end.index.Keys && (x in end.layers ==> end.layers[x] == s.layers[x])
  {
    PeelKeepsUsed(s.index, Persisted(s));
  }

  /** Between operations the steps of a collection, in a row, remove every layer that no
      stack needs, if and only if every layer on a parent cycle is needed. */
  lemma {:induction false} CollectsAllIff(steps: seq<Step>, order: seq<nat>)
    requires IsRun(Init(), steps) && Quiescent(After(Init(), steps)) && Lists(order, OnDisk(After(Init(), steps)))
    ensures IsRun(Init(), steps + GcSteps(order))
    ensures var s, end := After(Init(), steps), After(Init(), steps + GcSteps(order));
            (forall x | x in end.layers :: Referenced(s, x)) <==>
            (forall x | x in s.index && OnCycle(s.index, x) :: Referenced(s, x))
  {
    var s := After(Init(), steps);
    QuiescentUse(steps);
    CountsConserved(steps);
    CollectionRuns(steps, order);
    PeelCollectsAllIff(s.index, Persisted(s));
    forall x ensures Referenced(s, x) <==> Needed(s.index, Persisted(s), x) {
      ReferencedIsNeeded(s, x);
    }
    forall x ensures x in Collected(s).layers <==> x in Peel(s.index, Persisted(s)) {
      CollectedKeys(s, x);
    }
  }

  /** Between operations, and without parent cycles, the steps of a collection leave exactly
      the layers that a stack refers to and their ancestors, each the tree it was, and every
      session as it was. */
  lemma {:induction false} QuiescentCollection(steps: seq<Step>, order: seq<nat>, x: CommitId)
    requires IsRun(Init(), steps) && Quiescent(After(Init(), steps)) && Lists(order, OnDisk(After(Init(), steps)))
    requires Acyclic(After(Init(), steps).index)
    ensures IsRun(Init(), steps + GcSteps(order))
    ensures var s, end := After(Init(), steps), After(Init(), steps + GcSteps(order));
            end.sessions == s.sessions && (x in end.layers <==> x in s.layers && Referenced(s, x)) &&
            (x in end.index <==> x in end.layers) && (x in end.layers ==> end.layers[x] == s.layers[x])
  {
    var s := After(Init(), steps);
    QuiescentUse(steps);
    CountsConserved(steps);
    CollectionRuns(steps, order);
    PeelAcyclic(s.index, Persisted(s), x);
    ReferencedIsNeeded(s, x);
    CollectedKeys(s, x);
  }

  /** A second collection right after the first changes nothing at all. */
  lemma {:induction false} SecondCollection(steps: seq<Step>, order: seq<nat>, again: seq<nat>)
    requires IsRun(Init(), steps) && Quiescent(After(Init(), steps))
    requires Lists(order, OnDisk(After(Init(), steps))) && Lists(again, OnDisk(After(Init(), steps)))
    ensures IsRun(Init(), steps + GcSteps(order)) && IsRun(Init(), steps + GcSteps(order) + GcSteps(again))
    ensures After(Init(), steps + GcSteps(order) + GcSteps(again)) == After(Init(), steps + GcSteps(order))
  {
    var s := After(Init(), steps);
    CollectionRuns(steps, order);
    var end := Collected(s);
    assert OnDisk(end) == OnDisk(s);
    CollectionRuns(steps + GcSteps(order), again);
    SamePersisted(s, end);
    PeelIdempotent(s.index, Persisted(s));
    assert end.layers - {} == end.layers;
    assert end.index.Keys - end.index.Keys == {};
  }

  lemma SamePersisted(s: State, s': State)
    requires s'.sessions == s.sessions
    ensures Persisted(s') == Persisted(s)
  {
    assert forall i: nat :: MetaIds(s', i) == MetaIds(s, i);
  }
}
