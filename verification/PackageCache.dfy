/** The installed-package lists the server caches, over the shared store, and why none is ever out
    of date: whatever collections and other sessions do in between. */
module PackageCache {
  import opened Wrappers
  import opened FileTree
  import opened StoreProtocol
  import opened StoreSafety
  import opened StoreViews
  import opened StoreHistory

  /** Seconds an entry stays fresh. */
  const TTL: real := 30.0

  /** A session, by its place in the shared store. */
  type Sid = nat

  datatype Entry = Entry(at: real, installed: seq<string>)

  type Cache = map<Sid, Entry>

  /** A list that is still fresh. */
  function Fresh(cache: Cache, sid: Sid, now: real): Option<seq<string>> {
    if sid in cache && now - cache[sid].at < TTL then Some(cache[sid].installed) else None
  }

  /** Looking an expired entry up drops it. */
  function Expired(cache: Cache, sid: Sid, now: real): Cache {
    if sid in cache && now - cache[sid].at >= TTL then cache - {sid} else cache
  }

  /** After a mutation: the list of one session is dropped, or all of them. */
  function Invalidated(cache: Cache, sid: Option<Sid>): Cache {
    match sid
    case None => map[]
    case Some(s) => cache - {s}
  }

  class ListCache {
    var entries: Cache

    constructor ()
      ensures entries == map[]
    {
      entries := map[];
    }

    method Cached(sid: Sid, now: real) returns (r: Option<seq<string>>)
      modifies this
      ensures r == Fresh(old(entries), sid, now) && entries == Expired(old(entries), sid, now)
    {
      if sid !in entries {
        return None;
      }
      var entry := entries[sid];
      if now - entry.at >= TTL {
        entries := entries - {sid};
        return None;
      }
      r := Some(entry.installed);
    }

    method Put(sid: Sid, now: real, installed: seq<string>)
      modifies this
      ensures entries == old(entries)[sid := Entry(now, installed)]
    {
      entries := entries[sid := Entry(now, installed)];
    }

    method Invalidate(sid: Option<Sid>)
      modifies this
      ensures entries == Invalidated(old(entries), sid)
      ensures sid.None? ==> entries == map[]
      ensures sid.Some? ==> sid.value !in entries
      ensures forall s | sid.Some? && s != sid.value ::
                (s in entries <==> s in old(entries)) && (s in entries ==> entries[s] == old(entries)[s])
    {
      match sid
      case None => entries := map[];
      case Some(s) => entries := entries - {s};
    }

    /** One listing; `answer` is what the query in the container gives, if it succeeds. */
    method List(sid: Sid, now: real, answer: Option<seq<string>>) returns (installed: seq<string>)
      modifies this
      ensures (installed, entries) == Listed(old(entries), sid, now, answer)
    {
      var cached := Cached(sid, now);
      if cached.Some? {
        return cached.value;
      }
      match answer {
        case None => installed := [];
        case Some(list) =>
          installed := list;
          Put(sid, now, list);
      }
    }
  }

  function Listed(cache: Cache, sid: Sid, now: real, answer: Option<seq<string>>): (seq<string>, Cache) {
    match Fresh(cache, sid, now)
    case Some(list) => (list, Expired(cache, sid, now))
    case None => match answer
      case None => ([], Expired(cache, sid, now))
      case Some(list) => (list, Expired(cache, sid, now)[sid := Entry(now, list)])
  }

  /** The shared store, the cache, the clock, and the sessions for which a tool has changed
      something but has not yet dropped the list. */
  datatype Server = Server(store: State, cache: Cache, now: real, pending: set<Sid>)

  datatype Action =
    | Install(sid: Sid, upper: Tree)
    | Step(step: StoreProtocol.Step)
    | ToolReturns(sid: Sid)
    | AgentCommand(sid: Sid, upper: Tree)
    | Tick(seconds: real)
    | List(sid: Sid, succeeds: bool, upper: Tree)

  predicate IdleAt(s: State, sid: Sid) {
    sid < |s.sessions| && s.sessions[sid].pc.Idle?
  }

  /** What a fresh query of the session's merged view returns. */
  ghost function Query(q: Tree -> seq<string>, base: Tree, s: State, sid: Sid): seq<string>
    requires sid < |s.sessions|
  {
    q(SessionView(s, base, sid))
  }

  /** The session's upper after a command that leaves the package database alone. */
  ghost predicate KeepsPackages(q: Tree -> seq<string>, base: Tree, s: State, sid: Sid, upper: Tree) {
    IdleAt(s, sid) && AcceptableUpper(upper)
    && Query(q, base, Apply(s, Run(sid, upper)), sid) == Query(q, base, s, sid)
  }

  /** The tools' operations that end by dropping the list; a rollback that fails does not. */
  predicate Mutates(s: State, step: StoreProtocol.Step) {
    step.BeginCommit? || step.Reset? || step.BeginDestroy?
    || (step.BeginRollback? && step.i < |s.sessions| && step.id in s.sessions[step.i].stack)
  }

  /** Nobody else runs commands in a session whose list is cached, and a listing is taken between tools. */
  ghost predicate May(s: Server, a: Action) {
    match a
    case Install(sid, upper) => IdleAt(s.store, sid) && AcceptableUpper(upper)
    case Step(step) => Enabled(s.store, step) && (step.Run? ==> step.i !in s.cache)
    case ToolReturns(sid) =>
      sid < |s.store.sessions| && (s.store.sessions[sid].pc.Idle? || s.store.sessions[sid].pc.Gone?)
    case AgentCommand(sid, upper) => IdleAt(s.store, sid) && AcceptableUpper(upper)
    case Tick(seconds) => seconds >= 0.0
    case List(sid, _, upper) => sid !in s.pending && IdleAt(s.store, sid) && AcceptableUpper(upper)
  }

  /** Agent commands, and the query itself, leave the package database alone. */
  ghost predicate Quiet(s: Server, a: Action, base: Tree, q: Tree -> seq<string>) {
    match a
    case AgentCommand(sid, upper) => KeepsPackages(q, base, s.store, sid, upper)
    case List(sid, _, upper) => KeepsPackages(q, base, s.store, sid, upper)
    case _ => true
  }

  ghost function Do(s: Server, a: Action, base: Tree, q: Tree -> seq<string>): Server
    requires May(s, a)
  {
    match a
    case Install(sid, upper) => s.(store := Apply(s.store, Run(sid, upper)), pending := s.pending + {sid})
    case Step(step) =>
      s.(store := Apply(s.store, step), pending := s.pending + if Mutates(s.store, step) then {step.i} else {})
    case ToolReturns(sid) => s.(cache := Invalidated(s.cache, Some(sid)), pending := s.pending - {sid})
    case AgentCommand(sid, upper) => s.(store := Apply(s.store, Run(sid, upper)))
    case Tick(seconds) => s.(now := s.now + seconds)
    case List(sid, succeeds, upper) =>
      var answer := if succeeds then Some(Query(q, base, s.store, sid)) else None;
      s.(cache := Listed(s.cache, sid, s.now, answer).1,
         store := if Fresh(s.cache, sid, s.now).Some? then s.store else Apply(s.store, Run(sid, upper)))
  }

  ghost predicate IsRun(s: Server, actions: seq<Action>, base: Tree, q: Tree -> seq<string>)
    decreases |actions|
  {
    actions == [] || (May(s, actions[0]) && IsRun(Do(s, actions[0], base, q), actions[1..], base, q))
  }

  ghost predicate AllQuiet(s: Server, actions: seq<Action>, base: Tree, q: Tree -> seq<string>)
    requires IsRun(s, actions, base, q)
    decreases |actions|
  {
    actions == [] || (Quiet(s, actions[0], base, q) && AllQuiet(Do(s, actions[0], base, q), actions[1..], base, q))
  }

  ghost function After(s: Server, actions: seq<Action>, base: Tree, q: Tree -> seq<string>): Server
    requires IsRun(s, actions, base, q)
    decreases |actions|
  {
    if actions == [] then s else After(Do(s, actions[0], base, q), actions[1..], base, q)
  }

  /** The entry, fresh or not, is what a query would return now. */
  ghost predicate Current(store: State, sid: Sid, installed: seq<string>, base: Tree, q: Tree -> seq<string>) {
    IdleAt(store, sid) && installed == Query(q, base, store, sid)
  }

  /** Every entry is current, unless a tool is still at work on its session. */
  ghost predicate Coherent(s: Server, base: Tree, q: Tree -> seq<string>) {
    Inv(s.store) &&
    forall sid | sid in s.cache && sid !in s.pending :: Current(s.store, sid, s.cache[sid].installed, base, q)
  }

  /** A step that is no tool operation of an idle session leaves the session as it is. */
  lemma IdleStays(s: State, step: StoreProtocol.Step, sid: Sid)
    requires Enabled(s, step) && IdleAt(s, sid) && !(step.Run? && step.i == sid)
    requires Mutates(s, step) ==> step.i != sid
    ensures sid < |Apply(s, step).sessions| && Apply(s, step).sessions[sid] == s.sessions[sid]
  {
    if step.Create? || step.GcAcquire? || step.GcRead? || step.GcPeel? || step.GcRelease? || step.i != sid {
      OthersLeave(s, step, sid);
    } else {
      assert step.BeginRollback?;
    }
  }

  lemma StepKeepsCurrent(s: State, step: StoreProtocol.Step, sid: Sid, installed: seq<string>, base: Tree,
                         q: Tree -> seq<string>)
    requires Inv(s) && Enabled(s, step) && Current(s, sid, installed, base, q)
    requires !(step.Run? && step.i == sid) && (Mutates(s, step) ==> step.i != sid)
    ensures Current(Apply(s, step), sid, installed, base, q)
  {
    IdleStays(s, step, sid);
    OthersKeepView(s, step, sid, base);
  }

  lemma RunKeepsCurrent(s: State, ran: Sid, upper: Tree, sid: Sid, installed: seq<string>, base: Tree,
                        q: Tree -> seq<string>)
    requires Inv(s) && Enabled(s, Run(ran, upper)) && Current(s, sid, installed, base, q)
    requires ran == sid ==> KeepsPackages(q, base, s, sid, upper)
    ensures Current(Apply(s, Run(ran, upper)), sid, installed, base, q)
  {
    if ran != sid { StepKeepsCurrent(s, Run(ran, upper), sid, installed, base, q); }
  }

  lemma DoStepKeepsCoherent(s: Server, step: StoreProtocol.Step, base: Tree, q: Tree -> seq<string>)
    requires Coherent(s, base, q) && May(s, Step(step))
    ensures Coherent(Do(s, Step(step), base, q), base, q)
  {
    StepKeepsInv(s.store, step);
    var s' := Do(s, Step(step), base, q);
    forall sid | sid in s'.cache && sid !in s'.pending
      ensures Current(s'.store, sid, s'.cache[sid].installed, base, q)
    {
      StepKeepsCurrent(s.store, step, sid, s.cache[sid].installed, base, q);
    }
  }

  lemma DoRunKeepsCoherent(s: Server, ran: Sid, upper: Tree, s': Server, base: Tree, q: Tree -> seq<string>)
    requires Coherent(s, base, q) && Enabled(s.store, Run(ran, upper)) && s.pending <= s'.pending
    requires s'.store == Apply(s.store, Run(ran, upper))
    requires ran in s'.pending || KeepsPackages(q, base, s.store, ran, upper)
    requires forall sid | sid in s'.cache && sid !in s'.pending ::
      Current(s.store, sid, s'.cache[sid].installed, base, q)
    ensures Coherent(s', base, q)
  {
    StepKeepsInv(s.store, Run(ran, upper));
    forall sid | sid in s'.cache && sid !in s'.pending
      ensures Current(s'.store, sid, s'.cache[sid].installed, base, q)
    {
      RunKeepsCurrent(s.store, ran, upper, sid, s'.cache[sid].installed, base, q);
    }
  }

  lemma ListedIsCurrent(s: Server, listed: Sid, succeeds: bool, base: Tree, q: Tree -> seq<string>)
    requires Coherent(s, base, q) && IdleAt(s.store, listed) && listed !in s.pending
    ensures var answer := if succeeds then Some(Query(q, base, s.store, listed)) else None;
      var cache := Listed(s.cache, listed, s.now, answer).1;
      forall sid | sid in cache && sid !in s.pending :: Current(s.store, sid, cache[sid].installed, base, q)
  {
  }

  lemma {:induction false} DoKeepsCoherent(s: Server, a: Action, base: Tree, q: Tree -> seq<string>)
    requires Coherent(s, base, q) && May(s, a) && Quiet(s, a, base, q)
    ensures Coherent(Do(s, a, base, q), base, q)
  {
    match a
    case Step(step) => DoStepKeepsCoherent(s, step, base, q);
    case Install(sid, upper) => DoRunKeepsCoherent(s, sid, upper, Do(s, a, base, q), base, q);
    case AgentCommand(sid, upper) => DoRunKeepsCoherent(s, sid, upper, Do(s, a, base, q), base, q);
    case List(sid, succeeds, upper) =>
      ListedIsCurrent(s, sid, succeeds, base, q);
      if Fresh(s.cache, sid, s.now).None? { DoRunKeepsCoherent(s, sid, upper, Do(s, a, base, q), base, q); }
    case ToolReturns(_) =>
    case Tick(_) =>
  }

  /** Through every run of tools, commands, time, and any steps anyone takes in the shared store. */
  lemma {:induction false} RunKeepsCoherent(s: Server, actions: seq<Action>, base: Tree, q: Tree -> seq<string>)
    requires Coherent(s, base, q) && IsRun(s, actions, base, q) && AllQuiet(s, actions, base, q)
    ensures Coherent(After(s, actions, base, q), base, q)
    decreases |actions|
  {
    if actions != [] {
      DoKeepsCoherent(s, actions[0], base, q);
      RunKeepsCoherent(Do(s, actions[0], base, q), actions[1..], base, q);
    }
  }

  function Start(now: real): Server {
    Server(Init(), map[], now, {})
  }

  /** After any run from an empty store and cache, a listing between tools returns what a query of
      the session's merged view would return now, from the cache or not; only a failed query gives
      the empty list instead. */
  lemma {:induction false} ListingsAreCurrent(now: real, actions: seq<Action>, base: Tree, q: Tree -> seq<string>,
                                              sid: Sid, succeeds: bool)
    requires IsRun(Start(now), actions, base, q) && AllQuiet(Start(now), actions, base, q)
    requires var end := After(Start(now), actions, base, q); IdleAt(end.store, sid) && sid !in end.pending
    ensures var end := After(Start(now), actions, base, q);
      var current := Query(q, base, end.store, sid);
      var answer := if succeeds then Some(current) else None;
      Listed(end.cache, sid, end.now, answer).0
      == if succeeds || Fresh(end.cache, sid, end.now).Some? then current else []
  {
    assert Inv(Init());
    RunKeepsCoherent(Start(now), actions, base, q);
  }

  // ---- How old a cached list can be ----

  lemma {:induction false} RunSplits(s: Server, a: seq<Action>, b: seq<Action>, base: Tree, q: Tree -> seq<string>)
    requires IsRun(s, a + b, base, q)
    ensures IsRun(s, a, base, q) && IsRun(After(s, a, base, q), b, base, q)
    ensures After(After(s, a, base, q), b, base, q) == After(s, a + b, base, q)
    decreases |a|
  {
    if a == [] {
      assert a + b == b;
    } else {
      assert (a + b)[1..] == a[1..] + b;
      RunSplits(Do(s, a[0], base, q), a[1..], b, base, q);
    }
  }

  lemma LastAction(s: Server, actions: seq<Action>, base: Tree, q: Tree -> seq<string>)
    requires IsRun(s, actions, base, q) && actions != []
    ensures var front, last := actions[..|actions| - 1], actions[|actions| - 1];
      IsRun(s, front, base, q) && May(After(s, front, base, q), last)
      && After(s, actions, base, q) == Do(After(s, front, base, q), last, base, q)
  {
    var front, last := actions[..|actions| - 1], actions[|actions| - 1];
    assert front + [last] == actions;
    RunSplits(s, front, [last], base, q);
    assert [last][1..] == [];
  }

  /** The entry is the answer of a query that action `k` made, and no tool of the session returned since. */
  ghost predicate QueriedAt(s: Server, actions: seq<Action>, k: nat, sid: Sid, entry: Entry, base: Tree,
                            q: Tree -> seq<string>) {
    k < |actions| && actions[k].List? && actions[k].sid == sid && actions[k].succeeds
    && IsRun(s, actions[..k], base, q) && sid < |After(s, actions[..k], base, q).store.sessions|
    && entry == Entry(After(s, actions[..k], base, q).now, Query(q, base, After(s, actions[..k], base, q).store, sid))
    && forall j | k < j < |actions| :: actions[j] != ToolReturns(sid)
  }

  lemma EarlierQuery(s: Server, actions: seq<Action>, k: nat, sid: Sid, entry: Entry, base: Tree,
                     q: Tree -> seq<string>)
    requires actions != [] && actions[|actions| - 1] != ToolReturns(sid)
    requires QueriedAt(s, actions[..|actions| - 1], k, sid, entry, base, q)
    ensures QueriedAt(s, actions, k, sid, entry, base, q)
  {
    var front := actions[..|actions| - 1];
    assert front[..k] == actions[..k];
    forall j | k < j < |actions| ensures actions[j] != ToolReturns(sid) {
      if j < |front| { assert front[j] == actions[j]; }
    }
  }

  /** Every entry of the cache was queried, and its time is the time of that query. */
  lemma {:induction false} EntriesWereQueried(s: Server, actions: seq<Action>, sid: Sid, base: Tree,
                                              q: Tree -> seq<string>) returns (k: nat)
    requires s.cache == map[] && IsRun(s, actions, base, q) && sid in After(s, actions, base, q).cache
    ensures QueriedAt(s, actions, k, sid, After(s, actions, base, q).cache[sid], base, q)
    decreases |actions|
  {
    var m := |actions| - 1;
    LastAction(s, actions, base, q);
    var before, last := After(s, actions[..m], base, q), actions[m];
    var end := After(s, actions, base, q);
    if sid in before.cache && end.cache[sid] == before.cache[sid] && last != ToolReturns(sid) {
      k := EntriesWereQueried(s, actions[..m], sid, base, q);
      EarlierQuery(s, actions, k, sid, end.cache[sid], base, q);
    } else {
      k := m;
      assert last.List? && last.sid == sid;
    }
  }

  /** Whatever commands ran in between, packages installed or removed by hand among them: a list that is
      answered from the cache was queried less than thirty seconds ago, and no tool that changes the
      session has returned since. */
  lemma {:induction false} CachedIsRecent(now: real, actions: seq<Action>, sid: Sid, base: Tree,
                                          q: Tree -> seq<string>) returns (k: nat)
    requires IsRun(Start(now), actions, base, q)
    requires var end := After(Start(now), actions, base, q); Fresh(end.cache, sid, end.now).Some?
    ensures k < |actions| && IsRun(Start(now), actions[..k], base, q)
    ensures var was, end := After(Start(now), actions[..k], base, q), After(Start(now), actions, base, q);
      sid < |was.store.sessions| && end.now - was.now < 30.0
      && Fresh(end.cache, sid, end.now) == Some(Query(q, base, was.store, sid))
      && forall j | k < j < |actions| :: actions[j] != ToolReturns(sid)
  {
    k := EntriesWereQueried(Start(now), actions, sid, base, q);
  }

  /** And it is used: for thirty seconds after a query, and no longer, its answer is what listings get
      without another one. */
  lemma StaysCached(s: Server, sid: Sid, upper: Tree, seconds: real, base: Tree, q: Tree -> seq<string>)
    requires May(s, List(sid, true, upper)) && Fresh(s.cache, sid, s.now).None? && seconds >= 0.0
    ensures var s1 := Do(s, List(sid, true, upper), base, q); var s2 := Do(s1, Tick(seconds), base, q);
      Fresh(s2.cache, sid, s2.now) == if seconds < 30.0 then Some(Query(q, base, s.store, sid)) else None
  {
  }
}
