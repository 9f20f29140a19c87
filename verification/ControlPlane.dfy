/**
 The shared state and every step that changes it: reloads, health ticks in two halves, requests and the store of
 digests. Runs interleave the steps freely; the theorems are about all runs.
 */
module ControlPlane {
  import opened Wrappers
  import opened Structs
  import opened Identity
  import opened LoadBalancer
  import opened Tools
  import opened GetHosts
  import opened HealthCheck
  import opened ProxyHttp

  /** `pending` is the probed table a tick holds between its probes and its install. */
  datatype State = State(
    full: Table,
    upst: Table,
    byId: map<string, InnerMap>,
    reverse: map<string, string>,
    pending: Option<Table>)

  datatype Action =
    /** The background service receives a configuration and writes the three tables. */
    | Reload(upstreams: Table)
    /** A configuration file was parsed: the store of digests is cleared. */
    | ClearStore
    /** A tick clones the full table and probes it. */
    | ProbeAll(oracle: Oracle)
    /** The same tick compares and, on a difference, installs. */
    | Install
    /** A request is routed. */
    | Pick(peer: string, path: string, backendId: Option<string>, answer: Option<InnerMap>)
    /** A response looks up the digest for its backend's id and sets the cookie. */
    | Answer(host: string, server: InnerMap, digest: string)
    /** A response that found no digest stores the two directions, one after the other. */
    | StoreForward(host: string, server: InnerMap)
    | StoreBack(host: string, server: InnerMap)

  ghost predicate Initial(s: State) {
    s == State(map[], map[], map[], map[], None)
  }

  ghost predicate Step(names: Names, s: State, a: Action, s': State) {
    match a
    case Reload(upstreams) =>
      && s' == s.(full := Fresh(upstreams), upst := Fresh(upstreams), byId := s'.byId)
      && IsIndex(KeyOf(names), upstreams, s'.byId)
    case ClearStore => s' == s.(reverse := map[])
    case ProbeAll(oracle) => s.pending.None? && s' == s.(pending := Some(Probed(s.full, oracle)))
    case Install => s.pending.Some? && Installs(names, s, s.pending.value, s')
    case Pick(peer, path, backendId, answer) =>
      && s' == s.(upst := s'.upst)
      && Routed(answer, s'.upst) == Route(s.upst, s.byId, peer, path, backendId)
    case Answer(host, server, digest) =>
      s' == s && digest == StoredDigest(names.digest, s.reverse, names.id(host, server))
    case StoreForward(host, server) =>
      s' == s.(reverse := s.reverse[names.id(host, server) := names.Key(host, server)])
    case StoreBack(host, server) =>
      s' == s.(reverse := s.reverse[names.Key(host, server) := names.id(host, server)])
  }

  /** Nothing changes when the probed table is equivalent to the served one; otherwise it replaces it. */
  ghost predicate Installs(names: Names, s: State, probed: Table, s': State) {
    if Equiv(probed, s.upst) then s' == s.(pending := None)
    else
      && s' == s.(upst := Fresh(probed), byId := s'.byId, reverse := map[], pending := None)
      && IsIndex(KeyOf(names), probed, s'.byId)
  }

  /** Any consecutive states of the system, from any state on. */
  ghost predicate IsRun(names: Names, states: seq<State>, actions: seq<Action>) {
    && |states| == |actions| + 1
    && forall i | 0 <= i < |actions| :: Step(names, states[i], actions[i], states[i + 1])
  }

  // ----- invariants of every run -----

  /** The index is exactly that of the served table, and the store is sound. */
  ghost predicate Inv(names: Names, s: State) {
    IsIndex(KeyOf(names), s.upst, s.byId) && StoreOk(names.digest, s.reverse)
  }

  lemma SameListsSameIndex(key: KeyFn, t: Table, u: Table, ids: map<string, InnerMap>)
    requires SameLists(t, u) && IsIndex(key, t, ids)
    ensures IsIndex(key, u, ids)
  {
    forall h, s ensures Listed(t, h, s) <==> Listed(u, h, s) {
    }
    forall k | k in ids ensures IndexedServer(key, u, k, ids[k]) {
      assert IndexedServer(key, t, k, ids[k]);
    }
  }

  lemma FreshSameLists(t: Table)
    ensures SameLists(t, Fresh(t))
  {
  }

  lemma ReloadGivesIndex(names: Names, s: State, upstreams: Table, s': State)
    requires Step(names, s, Reload(upstreams), s')
    ensures IsIndex(KeyOf(names), s'.upst, s'.byId)
  {
    hide IsIndex;
    FreshSameLists(upstreams);
    SameListsSameIndex(KeyOf(names), upstreams, Fresh(upstreams), s'.byId);
  }

  lemma InstallKeepsIndex(names: Names, s: State, probed: Table, s': State)
    requires IsIndex(KeyOf(names), s.upst, s.byId) && Installs(names, s, probed, s')
    ensures IsIndex(KeyOf(names), s'.upst, s'.byId)
  {
    hide IsIndex;
    if !Equiv(probed, s.upst) {
      FreshSameLists(probed);
      SameListsSameIndex(KeyOf(names), probed, Fresh(probed), s'.byId);
    }
  }

  lemma PickKeepsIndex(names: Names, s: State, pick: Action, s': State)
    requires IsIndex(KeyOf(names), s.upst, s.byId) && pick.Pick? && Step(names, s, pick, s')
    ensures IsIndex(KeyOf(names), s'.upst, s'.byId)
  {
    hide IsIndex;
    RouteKeepsLists(s.upst, s.byId, pick.peer, pick.path, pick.backendId);
    SameListsSameIndex(KeyOf(names), s.upst, s'.upst, s.byId);
  }

  lemma OtherStepsKeepTables(names: Names, s: State, a: Action, s': State)
    requires Step(names, s, a, s') && !a.Reload? && !a.Install? && !a.Pick?
    ensures s'.upst == s.upst && s'.byId == s.byId
  {
    hide Probed, StoredDigest, IsIndex;
  }

  lemma StepKeepsIndex(names: Names, s: State, a: Action, s': State)
    requires IsIndex(KeyOf(names), s.upst, s.byId) && Step(names, s, a, s')
    ensures IsIndex(KeyOf(names), s'.upst, s'.byId)
  {
    hide IsIndex, Step, Installs;
    match a
    case Reload(upstreams) => ReloadGivesIndex(names, s, upstreams, s');
    case Install =>
      InstallStep(names, s, s');
      InstallKeepsIndex(names, s, s.pending.value, s');
    case Pick(_, _, _, _) => PickKeepsIndex(names, s, a, s');
    case _ => OtherStepsKeepTables(names, s, a, s');
  }

  lemma InstallStep(names: Names, s: State, s': State)
    requires Step(names, s, Install, s')
    ensures s.pending.Some? && Installs(names, s, s.pending.value, s')
  {
  }

  lemma StoreEntriesOk(names: Names, store: map<string, string>, host: string, server: InnerMap)
    requires StoreOk(names.digest, store)
    ensures StoreOk(names.digest, store[names.id(host, server) := names.Key(host, server)])
    ensures StoreOk(names.digest, store[names.Key(host, server) := names.id(host, server)])
  {
    IdsAreNotDigests(names, host, server);
    StoreStaysOk(names.digest, store, names.id(host, server), {});
  }

  /** What one step does to the store. */
  ghost predicate StoreMoves(names: Names, store: map<string, string>, a: Action, store': map<string, string>) {
    match a
    case StoreForward(host, server) => store' == store[names.id(host, server) := names.Key(host, server)]
    case StoreBack(host, server) => store' == store[names.Key(host, server) := names.id(host, server)]
    case ClearStore => store' == map[]
    case Install => store' == map[] || store' == store
    case _ => store' == store
  }

  lemma InstallMovesStore(names: Names, s: State, probed: Table, s': State)
    requires Installs(names, s, probed, s')
    ensures s'.reverse == map[] || s'.reverse == s.reverse
  {
  }

  lemma StepMovesStore(names: Names, s: State, a: Action, s': State)
    requires Step(names, s, a, s')
    ensures StoreMoves(names, s.reverse, a, s'.reverse)
  {
    hide Fresh, Probed, Route, IsIndex, StoredDigest, Installs;
    match a
    case Install => InstallMovesStore(names, s, s.pending.value, s');
    case Reload(_) => assert s'.reverse == s.reverse;
    case ProbeAll(_) => assert s'.reverse == s.reverse;
    case Pick(_, _, _, _) => assert s'.reverse == s.reverse;
    case _ =>
  }

  lemma StepKeepsStore(names: Names, s: State, a: Action, s': State)
    requires StoreOk(names.digest, s.reverse) && Step(names, s, a, s')
    ensures StoreOk(names.digest, s'.reverse)
  {
    StepMovesStore(names, s, a, s');
    MoveKeepsStore(names, s.reverse, a, s'.reverse);
  }

  lemma MoveKeepsStore(names: Names, store: map<string, string>, a: Action, store': map<string, string>)
    requires StoreOk(names.digest, store) && StoreMoves(names, store, a, store')
    ensures StoreOk(names.digest, store')
  {
    if a.StoreForward? || a.StoreBack? {
      StoreEntriesOk(names, store, a.host, a.server);
    }
  }

  /** In every reachable state the index is exact and the store sound, whatever the interleaving. */
  lemma {:induction false} ReachableStatesAreSound(names: Names, states: seq<State>, actions: seq<Action>, i: nat)
    requires IsRun(names, states, actions) && Initial(states[0]) && i < |states|
    ensures Inv(names, states[i])
    decreases i
  {
    if i == 0 {
    } else {
      ReachableStatesAreSound(names, states, actions, i - 1);
      StepKeepsIndex(names, states[i - 1], actions[i - 1], states[i]);
      StepKeepsStore(names, states[i - 1], actions[i - 1], states[i]);
    }
  }

  /** The cookie of every answer in every run is the plain digest of the backend's id. */
  lemma CookieIsUncachedDigest(names: Names, states: seq<State>, actions: seq<Action>, i: nat)
    requires IsRun(names, states, actions) && Initial(states[0])
    requires i < |actions| && actions[i].Answer?
    ensures actions[i].digest == names.Key(actions[i].host, actions[i].server)
  {
    ReachableStatesAreSound(names, states, actions, i);
    assert Step(names, states[i], actions[i], states[i + 1]);
    IdsAreNotDigests(names, actions[i].host, actions[i].server);
    StoreIsTransparent(names.digest, states[i].reverse, names.id(actions[i].host, actions[i].server));
  }

  // ----- what installing steps leave -----

  /** The same lists in the same order, and every counter at zero. */
  ghost predicate StartsOver(t: Table, u: Table) {
    SameLists(t, u) && forall h, p | h in u && p in u[h] :: u[h][p].index == 0
  }

  /** A reload puts its lists in both tables with counters at zero, and touches neither the store nor a pending tick. */
  lemma ReloadLeaves(names: Names, s: State, upstreams: Table, s': State)
    requires Step(names, s, Reload(upstreams), s')
    ensures StartsOver(upstreams, s'.full) && StartsOver(upstreams, s'.upst)
    ensures s'.reverse == s.reverse && s'.pending == s.pending
  {
    FreshMeans(upstreams);
  }

  /** A tick that finds a difference serves its lists with counters at zero, empties the store, and leaves the full table. */
  lemma InstallLeaves(names: Names, s: State, s': State)
    requires Step(names, s, Install, s') && !Equiv(s.pending.value, s.upst)
    ensures StartsOver(s.pending.value, s'.upst)
    ensures s'.full == s.full && s'.reverse == map[] && s'.pending == None
  {
    FreshMeans(s.pending.value);
  }

  // ----- convergence -----

  /** Between `i` and `j` no configuration arrives and no tick installs. */
  ghost predicate Quiet(actions: seq<Action>, i: nat, j: nat) {
    j <= |actions| && forall k | i <= k < j :: !actions[k].Reload? && !actions[k].Install?
  }

  lemma {:induction false} QuietKeepsTables(names: Names, states: seq<State>, actions: seq<Action>, i: nat, j: nat)
    requires IsRun(names, states, actions) && i <= j && Quiet(actions, i, j)
    ensures states[j].full == states[i].full && SameLists(states[i].upst, states[j].upst)
    decreases j
  {
    if i == j {
    } else {
      QuietKeepsTables(names, states, actions, i, j - 1);
      var s, a := states[j - 1], actions[j - 1];
      assert Step(names, s, a, states[j]);
      if a.Pick? {
        RouteKeepsLists(s.upst, s.byId, a.peer, a.path, a.backendId);
      }
    }
  }

  /** The tick that probes at `i` is the one that installs at `j`; any reloads may come in between. */
  ghost predicate IsTick(actions: seq<Action>, i: nat, j: nat) {
    && i < j < |actions| && actions[i].ProbeAll? && actions[j].Install?
    && forall k | i < k < j :: !actions[k].Install?
  }

  lemma ProbedIsPending(names: Names, s: State, a: Action, s': State)
    requires Step(names, s, a, s') && a.ProbeAll?
    ensures s'.pending == Some(Probed(s.full, a.oracle))
  {
  }

  lemma PendingStays(names: Names, s: State, a: Action, s': State)
    requires Step(names, s, a, s') && s.pending.Some? && !a.Install?
    ensures s'.pending == s.pending
  {
    hide Probed, Fresh, Route, IsIndex, StoredDigest;
  }

  /** What a tick probed waits for its install, whatever happens meanwhile. */
  lemma {:induction false} ProbedTableWaits(names: Names, states: seq<State>, actions: seq<Action>, i: nat, j: nat)
    requires IsRun(names, states, actions) && i < j < |states|
    requires actions[i].ProbeAll? && forall k | i < k < j :: !actions[k].Install?
    ensures states[j].pending == Some(Probed(states[i].full, actions[i].oracle))
    decreases j
  {
    hide Probed, Step;
    if i + 1 == j {
      assert Step(names, states[i], actions[i], states[j]);
      ProbedIsPending(names, states[i], actions[i], states[j]);
    } else {
      ProbedTableWaits(names, states, actions, i, j - 1);
      assert Step(names, states[j - 1], actions[j - 1], states[j]);
      PendingStays(names, states[j - 1], actions[j - 1], states[j]);
    }
  }

  /** Until the next reload or install, what is served after a tick is what it probed: the table as it was at its probes. */
  lemma TickServesWhatItProbed(names: Names, states: seq<State>, actions: seq<Action>, i: nat, j: nat, k: nat)
    requires IsRun(names, states, actions) && IsTick(actions, i, j)
    requires j < k < |states| && Quiet(actions, j + 1, k)
    ensures states[k].full == states[j].full
    ensures Equiv(states[k].upst, Probed(states[i].full, actions[i].oracle))
  {
    assert Step(names, states[j], actions[j], states[j + 1]);
    ProbedTableWaits(names, states, actions, i, j);
    QuietKeepsTables(names, states, actions, j + 1, k);
    var probed := Probed(states[i].full, actions[i].oracle);
    FreshIsEquiv(probed);
    EquivIsEquivalence(probed, states[j].upst, probed);
    SameListsAreEquiv(states[j + 1].upst, states[k].upst, probed);
  }

  /**
   A tick leaves the proxy serving what its own probes say of the current configuration exactly when probing the table
   it cloned and the current one gives equivalent tables, whatever was reloaded between its probes and its install.
   */
  lemma TickIsCurrentExactlyWhen(names: Names, states: seq<State>, actions: seq<Action>, i: nat, j: nat, k: nat)
    requires IsRun(names, states, actions) && IsTick(actions, i, j)
    requires j < k < |states| && Quiet(actions, j + 1, k)
    ensures var o := actions[i].oracle;
      Equiv(states[k].upst, Probed(states[k].full, o)) <==> Equiv(Probed(states[i].full, o), Probed(states[j].full, o))
  {
    hide Probed, Equiv, Step;
    TickServesWhatItProbed(names, states, actions, i, j, k);
    var o := actions[i].oracle;
    var served, cloned, current := states[k].upst, Probed(states[i].full, o), Probed(states[j].full, o);
    EquivIsEquivalence(served, cloned, current);
    EquivIsEquivalence(cloned, served, current);
  }

  /**
   In particular, from any state, also one a stale tick left behind: after a tick with no reload between its probes and
   its install, the served table is equivalent to the probed full table, and stays so until the next reload or install.
   */
  lemma TickConverges(names: Names, states: seq<State>, actions: seq<Action>, i: nat, j: nat, k: nat)
    requires IsRun(names, states, actions) && IsTick(actions, i, j) && Quiet(actions, i + 1, j)
    requires j < k < |states| && Quiet(actions, j + 1, k)
    ensures states[k].full == states[i].full
    ensures Equiv(states[k].upst, Probed(states[k].full, actions[i].oracle))
  {
    assert Step(names, states[i], actions[i], states[i + 1]);
    QuietKeepsTables(names, states, actions, i + 1, j);
    TickServesWhatItProbed(names, states, actions, i, j, k);
  }

  lemma SameListsAreEquiv(t: Table, u: Table, probed: Table)
    requires SameLists(t, u) && Equiv(t, probed)
    ensures Equiv(u, probed)
  {
  }

  /** A tick changes nothing, counters included, exactly when its result compares equal to the served table. */
  lemma EqualTickChangesNothing(names: Names, s: State, s': State)
    requires Step(names, s, Install, s')
    ensures Equiv(s.pending.value, s.upst) <==> s' == s.(pending := None)
  {
    FreshIsEquiv(s.pending.value);
  }

  /**
   Between the write of the table and that of the index, a reload that changes anything about the one server leaves an
   index that is not the table's, be it only its redirect target.
   */
  lemma IndexLagsDuringReload(key: KeyFn, h: string, p: string, s: InnerMap, t: InnerMap)
    ensures IsIndex(key, Single(h, p, s), map[key(h, s) := s])
    ensures IsIndex(key, Single(h, p, t), map[key(h, s) := s]) <==> s == t
  {
    SingleIndex(key, h, p, s);
    SingleListsOne(h, p, t);
    var ids := map[key(h, s) := s];
    if IsIndex(key, Single(h, p, t), ids) {
      var k := key(h, s);
      assert k in ids;
      assert IndexedServer(key, Single(h, p, t), k, ids[k]);
    }
  }

  lemma ProbingOneUnchecked(s: InnerMap, h: string, p: string, o: Oracle)
    requires !Checked(s)
    ensures ProbedServers([s], h, p, o) == [s.(isSsl := false, isHttp2 := false)]
  {
    ProbedStep([s], 0, h, p, o);
    assert [s][..0 + 1] == [s];
  }

  lemma SingleProbed(h: string, p: string, s: InnerMap, o: Oracle)
    requires !Checked(s)
    ensures Probed(Single(h, p, s), o) == Single(h, p, s.(isSsl := false, isHttp2 := false))
  {
    ProbingOneUnchecked(s, h, p, o);
    var after := s.(isSsl := false, isHttp2 := false);
    assert ProbedPaths(map[p := ServerList([s], 0)], h, o) == map[p := ServerList([after], 0)];
  }

  lemma FourSteps(names: Names, s: seq<State>, a: seq<Action>)
    requires |s| == 5 && |a| == 4
    requires Step(names, s[0], a[0], s[1]) && Step(names, s[1], a[1], s[2])
    requires Step(names, s[2], a[2], s[3]) && Step(names, s[3], a[3], s[4])
    ensures IsRun(names, s, a)
  {
    hide Step;
    forall i | 0 <= i < |a| ensures Step(names, s[i], a[i], s[i + 1]) {
      if i == 0 {
      } else if i == 1 {
      } else if i == 2 {
      } else {
        assert i == 3;
      }
    }
  }

  lemma SingleProbes(names: Names, before: State, h: string, p: string, s: InnerMap, o: Oracle)
    requires !Checked(s) && before.full == Single(h, p, s) && before.pending.None?
    ensures Step(names, before, ProbeAll(o), before.(pending := Some(Single(h, p, s.(isSsl := false, isHttp2 := false)))))
  {
    SingleProbed(h, p, s, o);
  }

  /** A reload of a table with one server. */
  lemma ReloadOne(names: Names, before: State, h: string, p: string, t: InnerMap)
    ensures var table := Single(h, p, t);
      Step(names, before, Reload(table), before.(full := table, upst := table, byId := map[names.Key(h, t) := t]))
  {
    SingleFresh(h, p, t);
    SingleIndex(KeyOf(names), h, p, t);
  }

  /** The install of a probed table with one server over another one. */
  lemma InstallOne(names: Names, before: State, h: string, p: string, a: InnerMap, t: InnerMap)
    requires a != t && before.upst == Single(h, p, t) && before.pending == Some(Single(h, p, a))
    ensures Step(names, before, Install,
      before.(upst := Single(h, p, a), byId := map[names.Key(h, a) := a], reverse := map[], pending := None))
  {
    SingleDiffer(h, p, a, t);
    SingleFresh(h, p, a);
    SingleIndex(KeyOf(names), h, p, a);
  }

  /**
   A stale tick does overwrite a newer reload, in a run from the start: a reload, probes of its table, a second reload,
   then the install. `t` is served no more, although it is all the full table holds.
   */
  lemma StaleTickOverwritesReload(names: Names, h: string, p: string, s: InnerMap, t: InnerMap, o: Oracle)
    returns (states: seq<State>)
    requires !Checked(s) && !Checked(t) && s.address != t.address
    ensures IsRun(names, states, [Reload(Single(h, p, s)), ProbeAll(o), Reload(Single(h, p, t)), Install])
    ensures Initial(states[0])
    ensures states[4].full == Single(h, p, t) && !Equiv(states[4].upst, Probed(states[4].full, o))
  {
    var a, b := s.(isSsl := false, isHttp2 := false), t.(isSsl := false, isHttp2 := false);
    var s0 := State(map[], map[], map[], map[], None);
    var s1 := s0.(full := Single(h, p, s), upst := Single(h, p, s), byId := map[names.Key(h, s) := s]);
    var s2 := s1.(pending := Some(Single(h, p, a)));
    var s3 := s2.(full := Single(h, p, t), upst := Single(h, p, t), byId := map[names.Key(h, t) := t]);
    var s4 := s3.(upst := Single(h, p, a), byId := map[names.Key(h, a) := a], reverse := map[], pending := None);
    hide Step;
    ReloadOne(names, s0, h, p, s);
    SingleProbes(names, s1, h, p, s, o);
    ReloadOne(names, s2, h, p, t);
    InstallOne(names, s3, h, p, a, t);
    states := [s0, s1, s2, s3, s4];
    FourSteps(names, states, [Reload(Single(h, p, s)), ProbeAll(o), Reload(Single(h, p, t)), Install]);
    SingleProbed(h, p, t, o);
    SingleDiffer(h, p, a, b);
  }

  // ----- the sticky round trip -----

  /** When the index names a key unambiguously, a request with that key gets its server and moves no counter. */
  lemma KeyedRequestHits(key: KeyFn, t: Table, ids: map<string, InnerMap>, h: string, path: string, c: string, s: InnerMap)
    requires IsIndex(key, t, ids)
    requires h in t && Select(t[h], path) == Some(c)
    requires s in t[h][c].servers
    requires forall g, u | Listed(t, g, u) && key(g, u) == key(h, s) :: SameEndpoint(u, s)
    ensures var routed := Route(t, ids, h, path, Some(key(h, s)));
      && routed.backend.Some? && SameEndpoint(routed.backend.value, s) && routed.table == t
      && IndexedServer(key, t, key(h, s), routed.backend.value)
  {
    assert Listed(t, h, s);
    var k := key(h, s);
    assert IndexedServer(key, t, k, ids[k]);
    IndexedIsListed(key, t, k, ids[k]);
    assert SameEndpoint(s, ids[k]);
  }

  /** No other listed server's id shares the digest of the id of (h, s). */
  ghost predicate NoCollision(names: Names, t: Table, h: string, s: InnerMap) {
    forall g, u | Listed(t, g, u) && names.Key(g, u) == names.Key(h, s) ::
      names.id(g, u) == names.id(h, s)
  }

  /** The list that serves (h, path) still holds a server with the id of (h, s). */
  ghost predicate StillServes(names: Names, t: Table, h: string, s: InnerMap, path: string) {
    && h in t
    && Select(t[h], path).Some?
    && exists u :: u in t[h][Select(t[h], path).value].servers && names.id(h, u) == names.id(h, s)
  }

  /** The server is listed, under some host, with this id. */
  ghost predicate ListedAs(names: Names, t: Table, s: InnerMap, id: string) {
    exists g :: Listed(t, g, s) && names.id(g, s) == id
  }

  /**
   A request with this sticky id gets a backend with the address and port of `s`, listed with the id of (h, s), and moves
   no counter.
   */
  ghost predicate Sticks(names: Names, at: State, h: string, path: string, backendId: Option<string>, s: InnerMap) {
    var routed := Route(at.upst, at.byId, h, path, backendId);
    && routed.backend.Some? && SameEndpoint(routed.backend.value, s) && routed.table == at.upst
    && ListedAs(names, at.upst, routed.backend.value, names.id(h, s))
  }

  /** Among the listed servers the id of (h, s) stands for one endpoint. */
  ghost predicate IdIsClear(names: Names, t: Table, h: string, s: InnerMap) {
    forall g, v | Listed(t, g, v) && names.id(g, v) == names.id(h, s) :: SameEndpoint(v, s)
  }

  /**
   The sticky promise over whole runs. A digest was issued, in any step of the run, for server `s` of host `h`. In any
   state of the run a client asks for it; the first non-empty list on the path still holds a server with the id
   of `s`. The request gets a backend with the address, the port and the id of `s`, and no counter moves.
   */
  lemma StickyRoundTrip(names: Names, states: seq<State>, actions: seq<Action>, i: nat, j: nat, path: string)
    requires IsRun(names, states, actions) && Initial(states[0])
    requires i < |actions| && actions[i].Answer? && j < |states|
    requires StillServes(names, states[j].upst, actions[i].host, actions[i].server, path)
    requires NoCollision(names, states[j].upst, actions[i].host, actions[i].server)
    requires IdIsClear(names, states[j].upst, actions[i].host, actions[i].server)
    ensures Sticks(names, states[j], actions[i].host, path, Some(actions[i].digest), actions[i].server)
  {
    hide Step, IndexedServer, Route, Initial;
    var h, s, t := actions[i].host, actions[i].server, states[j].upst;
    ReachableStatesAreSound(names, states, actions, j);
    CookieIsUncachedDigest(names, states, actions, i);
    var c := Select(t[h], path).value;
    var u :| u in t[h][c].servers && names.id(h, u) == names.id(h, s);
    assert Listed(t, h, u);
    KeyedRequestHits(KeyOf(names), t, states[j].byId, h, path, c, u);
    var answer := Route(t, states[j].byId, h, path, Some(names.Key(h, s))).backend.value;
    IndexedIsListed(KeyOf(names), t, names.Key(h, s), answer);
    assert ListedAs(names, t, answer, names.id(h, s));
  }

  /** With unambiguous hosts and addresses the ids of the source's own format are clear. */
  lemma UnambiguousIdsAreClear(lib: Library, t: Table, h: string, s: InnerMap)
    requires Unambiguous(h, s) && forall g, v | Listed(t, g, v) :: Unambiguous(g, v)
    ensures IdIsClear(NamesOf(lib), t, h, s)
  {
    var names := NamesOf(lib);
    forall g, v | Listed(t, g, v) && names.id(g, v) == names.id(h, s) ensures SameEndpoint(v, s) {
      BackendIdInjective(lib, g, v, h, s);
    }
  }

  /** What is listed with the id of (h, s) is listed under `h` and agrees with `s` in everything an id records. */
  lemma ListedAsItself(lib: Library, t: Table, h: string, s: InnerMap, answer: InnerMap)
    requires Unambiguous(h, s) && forall g, v | Listed(t, g, v) :: Unambiguous(g, v)
    requires ListedAs(NamesOf(lib), t, answer, NamesOf(lib).id(h, s))
    ensures Listed(t, h, answer) && SameIdentity(answer, s)
  {
    var g :| Listed(t, g, answer) && NamesOf(lib).id(g, answer) == NamesOf(lib).id(h, s);
    BackendIdInjective(lib, g, answer, h, s);
  }

  /**
   The same promise from cookie to cookie, for the id format of the source: the backend is listed under the same host,
   and its protocol flags, limits, health check and authorization are those of `s` as well.
   */
  lemma CookieRoundTrip(lib: Library, states: seq<State>, actions: seq<Action>, i: nat, j: nat,
                        cookie: string, before: string, after: string, path: string)
    requires IsRun(NamesOf(lib), states, actions) && Initial(states[0])
    requires i < |actions| && actions[i].Answer? && j < |states|
    requires CarriesPair(cookie, actions[i].digest, before, after)
    requires StillServes(NamesOf(lib), states[j].upst, actions[i].host, actions[i].server, path)
    requires NoCollision(NamesOf(lib), states[j].upst, actions[i].host, actions[i].server)
    requires Unambiguous(actions[i].host, actions[i].server) && forall g, v | Listed(states[j].upst, g, v) :: Unambiguous(g, v)
    ensures Sticks(NamesOf(lib), states[j], actions[i].host, path, ParseCookie(cookie), actions[i].server)
    ensures var answer := Route(states[j].upst, states[j].byId, actions[i].host, path, ParseCookie(cookie)).backend.value;
      Listed(states[j].upst, actions[i].host, answer) && SameIdentity(answer, actions[i].server)
  {
    hide *;
    var names, h, s := NamesOf(lib), actions[i].host, actions[i].server;
    CookieIsUncachedDigest(names, states, actions, i);
    IdsAreNotDigests(names, h, s);
    CookieReadsBack(cookie, actions[i].digest, before, after);
    UnambiguousIdsAreClear(lib, states[j].upst, h, s);
    StickyRoundTrip(names, states, actions, i, j, path);
    StickyAnswer(names, states[j], h, path, ParseCookie(cookie), s);
    ListedAsItself(lib, states[j].upst, h, s, Route(states[j].upst, states[j].byId, h, path, ParseCookie(cookie)).backend.value);
  }

  /** The request names host `h`, in its URI or, with or without a port, in its header. */
  ghost predicate NamesTheHost(head: RequestHead, h: string) {
    if head.isHttp2 then head.uriHost == Some(h)
    else exists rest :: head.hostHeader == Some(h + rest) && (rest == "" || rest[0] == ':')
  }

  /** The step that routes this request, as `ServeRequest` takes it. */
  ghost predicate Requests(t: Table, extraparams: Extraparams, head: RequestHead, pick: Action) {
    && pick.Pick? && HostKey(t, head) == Some(pick.peer)
    && pick.path == head.path && pick.backendId == AskedId(extraparams, head)
  }

  lemma NamedHostIsKey(t: Table, head: RequestHead, h: string)
    requires ':' !in h && h in t && NamesTheHost(head, h)
    ensures HostKey(t, head) == Some(h)
  {
    if !head.isHttp2 {
      HostKeyMeans(t, head, h);
    }
  }

  lemma PickIsRoute(names: Names, s: State, pick: Action, s': State)
    requires Step(names, s, pick, s') && pick.Pick?
    ensures var routed := Route(s.upst, s.byId, pick.peer, pick.path, pick.backendId);
      pick.answer == routed.backend && s'.upst == routed.table
  {
    hide Route;
  }

  /**
   The whole way round. The cookie was issued by any response of the run, for server `s` of host `h`. Any request
   that names the host and carries the pair is routed, while sticky sessions are on, to a backend of `h` with the address,
   the port and everything else the id of `s` records, and moves no counter.
   */
  lemma RequestRoundTrip(lib: Library, states: seq<State>, actions: seq<Action>, i: nat, j: nat,
                         extraparams: Extraparams, head: RequestHead, before: string, after: string)
    requires IsRun(NamesOf(lib), states, actions) && Initial(states[0])
    requires i < |actions| && actions[i].Answer? && j < |actions|
    requires Requests(states[j].upst, extraparams, head, actions[j])
    requires extraparams.stickySessions.Some? && NamesTheHost(head, actions[i].host)
    requires head.cookie.Some? && CarriesPair(head.cookie.value, actions[i].digest, before, after)
    requires StillServes(NamesOf(lib), states[j].upst, actions[i].host, actions[i].server, head.path)
    requires NoCollision(NamesOf(lib), states[j].upst, actions[i].host, actions[i].server)
    requires Unambiguous(actions[i].host, actions[i].server) && forall g, v | Listed(states[j].upst, g, v) :: Unambiguous(g, v)
    ensures actions[j].peer == actions[i].host && actions[j].answer.Some? && states[j + 1].upst == states[j].upst
    ensures Listed(states[j].upst, actions[i].host, actions[j].answer.value)
    ensures SameIdentity(actions[j].answer.value, actions[i].server)
  {
    hide *;
    var names, h, s := NamesOf(lib), actions[i].host, actions[i].server;
    IsStep(names, states, actions, j);
    RequestKey(names, states[j], h, s, extraparams, head, actions[j]);
    PickIsRoute(names, states[j], actions[j], states[j + 1]);
    AsksForDigest(names, states, actions, i, extraparams, head, before, after);
    CookieRoundTrip(lib, states, actions, i, j, head.cookie.value, before, after, head.path);
    StickyAnswer(names, states[j], h, head.path, ParseCookie(head.cookie.value), s);
  }

  lemma IsStep(names: Names, states: seq<State>, actions: seq<Action>, j: nat)
    requires IsRun(names, states, actions) && j < |actions|
    ensures |states| == |actions| + 1 && Step(names, states[j], actions[j], states[j + 1])
  {
  }

  lemma AsksForDigest(names: Names, states: seq<State>, actions: seq<Action>, i: nat,
                      extraparams: Extraparams, head: RequestHead, before: string, after: string)
    requires IsRun(names, states, actions) && Initial(states[0]) && i < |actions| && actions[i].Answer?
    requires extraparams.stickySessions.Some?
    requires head.cookie.Some? && CarriesPair(head.cookie.value, actions[i].digest, before, after)
    ensures AskedId(extraparams, head) == Some(actions[i].digest) == ParseCookie(head.cookie.value)
  {
    CookieIsUncachedDigest(names, states, actions, i);
    hide Step;
    IdsAreNotDigests(names, actions[i].host, actions[i].server);
    AskedIdMeans(extraparams, head, actions[i].digest, before, after);
    CookieReadsBack(head.cookie.value, actions[i].digest, before, after);
  }

  lemma RequestKey(names: Names, at: State, h: string, s: InnerMap, extraparams: Extraparams, head: RequestHead, pick: Action)
    requires Requests(at.upst, extraparams, head, pick) && NamesTheHost(head, h)
    requires StillServes(names, at.upst, h, s, head.path) && Unambiguous(h, s)
    ensures pick.Pick? && pick.peer == h && pick.path == head.path && pick.backendId == AskedId(extraparams, head)
  {
    NamedHostIsKey(at.upst, head, h);
  }

  lemma StickyAnswer(names: Names, at: State, h: string, path: string, backendId: Option<string>, s: InnerMap)
    requires Sticks(names, at, h, path, backendId, s)
    ensures var routed := Route(at.upst, at.byId, h, path, backendId);
      routed.backend.Some? && ListedAs(names, at.upst, routed.backend.value, names.id(h, s)) && routed.table == at.upst
  {
  }

  // ----- what answers can be -----

  /** The selected list has a server at the endpoint of the answer. */
  ghost predicate AnswersFrom(t: Table, pick: Action)
    requires pick.Pick? && pick.answer.Some?
  {
    && pick.peer in t
    && Select(t[pick.peer], pick.path).Some?
    && exists s :: s in t[pick.peer][Select(t[pick.peer], pick.path).value].servers && SameEndpoint(s, pick.answer.value)
  }

  lemma RoutedFromSelected(s: State, pick: Action, s': State)
    requires pick.Pick? && pick.answer.Some?
    requires Routed(pick.answer, s'.upst) == Route(s.upst, s.byId, pick.peer, pick.path, pick.backendId)
    ensures AnswersFrom(s.upst, pick)
    ensures (exists g :: Listed(s.upst, g, pick.answer.value)) || (exists k :: k in s.byId && s.byId[k] == pick.answer.value)
  {
    var c := Select(s.upst[pick.peer], pick.path).value;
    var servers := s.upst[pick.peer][c].servers;
    var sticky := FindSticky(s.byId, servers, pick.backendId);
    if sticky.None? {
      assert pick.answer.value in servers;
      assert Listed(s.upst, pick.peer, pick.answer.value);
    }
  }

  /**
   In every run every answer has the endpoint of a server of the selected list, whatever the cookie says, and is itself
   a record of the served table, though perhaps under another host or path.
   */
  lemma AnswersAreServed(names: Names, states: seq<State>, actions: seq<Action>, i: nat)
    requires IsRun(names, states, actions) && Initial(states[0])
    requires i < |actions| && actions[i].Pick? && actions[i].answer.Some?
    ensures AnswersFrom(states[i].upst, actions[i])
    ensures exists g :: Listed(states[i].upst, g, actions[i].answer.value)
  {
    ReachableStatesAreSound(names, states, actions, i);
    assert Step(names, states[i], actions[i], states[i + 1]);
    RoutedFromSelected(states[i], actions[i], states[i + 1]);
    hide Step, Route, AnswersFrom, IndexedServer, StoreOk, Initial;
    if k :| k in states[i].byId && states[i].byId[k] == actions[i].answer.value {
      IndexedIsListed(KeyOf(names), states[i].upst, k, states[i].byId[k]);
    }
  }

  lemma AnswersFromLive(t: Table, full: Table, o: Oracle, pick: Action)
    requires pick.Pick? && pick.answer.Some? && AnswersFrom(t, pick) && Equiv(t, Probed(full, o))
    ensures pick.peer in full
    ensures var c := Select(Probed(full, o)[pick.peer], pick.path);
      c.Some? && c.value in full[pick.peer] && KeptEndpoint(full, o, pick.peer, c.value, pick.answer.value)
  {
    EquivTablesServeAlike(t, Probed(full, o), pick.peer, pick.path);
    var c := Select(t[pick.peer], pick.path).value;
    var s :| s in t[pick.peer][c].servers && SameEndpoint(s, pick.answer.value);
    assert s in ToSet(t[pick.peer][c].servers);
    assert Alive(Probed(full, o), pick.peer, c, pick.answer.value);
    AliveEndpointIsKept(full, o, pick.peer, c, pick.answer.value);
  }

  /**
   After a tick with no reload in between, until the next reload or install, every request is answered by an endpoint whose
   probe succeeded in that tick or whose checks are off, on the prefix the surviving table selects.
   */
  lemma OnlyLiveEndpointsAnswer(names: Names, states: seq<State>, actions: seq<Action>, i: nat, j: nat, k: nat)
    requires IsRun(names, states, actions) && IsTick(actions, i, j) && Quiet(actions, i + 1, j)
    requires j < k < |actions| && Quiet(actions, j + 1, k)
    requires actions[k].Pick? && actions[k].answer.Some?
    ensures var (full, o, pick) := (states[k].full, actions[i].oracle, actions[k]);
      && pick.peer in full
      && var c := Select(Probed(full, o)[pick.peer], pick.path);
        c.Some? && c.value in full[pick.peer] && KeptEndpoint(full, o, pick.peer, c.value, pick.answer.value)
  {
    var full, o, pick := states[k].full, actions[i].oracle, actions[k];
    TickConverges(names, states, actions, i, j, k);
    assert Step(names, states[k], actions[k], states[k + 1]);
    RoutedFromSelected(states[k], pick, states[k + 1]);
    hide Step, Route, KeptEndpoint, Probed;
    AnswersFromLive(states[k].upst, full, o, pick);
  }

  // ----- the methods take these steps -----

  /** The shared state a load balancer's maps hold. */
  ghost function View(lb: LB, pending: Option<Table>): State
    reads lb, lb.umpFull, lb.umpUpst, lb.umpById, lb.reverseStore
  {
    State(lb.umpFull.hosts, lb.umpUpst.hosts, lb.umpById.entries, lb.reverseStore.entries, pending)
  }

  /** First half of a tick of `hc2`. */
  method TickProbe(lb: LB, oracle: Oracle) returns (totest: UpstreamsDashMap)
    ensures fresh(totest)
    ensures Step(NamesOf(lb.lib), old(View(lb, None)), ProbeAll(oracle), View(lb, Some(totest.hosts)))
  {
    totest := BuildUpstreams(lb.umpFull, oracle);
  }

  /** Second half of the tick, with the table probed earlier. */
  method TickInstall(lb: LB, totest: UpstreamsDashMap)
    requires lb.Valid() && totest != lb.umpUpst
    modifies lb.umpUpst, lb.umpById, lb.reverseStore
    ensures Step(NamesOf(lb.lib), old(View(lb, None)).(pending := Some(totest.hosts)), Install, View(lb, None))
  {
    var same := CompareDashmaps(totest, lb.umpUpst);
    if !same {
      ghost var trace := CloneDashmapInto(totest, lb.umpUpst);
      CloneIdmapInto(KeyOf(NamesOf(lb.lib)), totest, lb.umpById);
      lb.reverseStore.entries := map[];
    }
  }

  /** The table writes of the reload arm: both tables and the index. */
  method InstallTables(lb: LB, upstreams: UpstreamsDashMap, ghost pending: Option<Table>)
    requires lb.Valid() && upstreams != lb.umpFull && upstreams != lb.umpUpst
    modifies lb.umpFull, lb.umpUpst, lb.umpById
    ensures Step(NamesOf(lb.lib), old(View(lb, pending)), Reload(upstreams.hosts), View(lb, pending))
  {
    ghost var toFull := CloneDashmapInto(upstreams, lb.umpFull);
    ghost var toUpst := CloneDashmapInto(upstreams, lb.umpUpst);
    CloneIdmapInto(KeyOf(NamesOf(lb.lib)), upstreams, lb.umpById);
  }

  lemma RunExtends(names: Names, states: seq<State>, actions: seq<Action>, a: Action, s': State)
    requires IsRun(names, states, actions) && Step(names, states[|actions|], a, s')
    ensures IsRun(names, states + [s'], actions + [a])
  {
  }

  /** The steps a response takes. */
  lemma AnswerSteps(names: Names, at: State, h: string, s: InnerMap)
    ensures var (id, key) := (names.id(h, s), names.Key(h, s));
      && Step(names, at, Answer(h, s, StoredDigest(names.digest, at.reverse, id)), at)
      && Step(names, at, StoreForward(h, s), at.(reverse := at.reverse[id := key]))
      && Step(names, at, StoreBack(h, s), at.(reverse := at.reverse[key := id]))
  {
  }

  lemma PickSteps(names: Names, s: State, pick: Action, s': State)
    requires pick.Pick? && s' == s.(upst := s'.upst)
    requires Routed(pick.answer, s'.upst) == Route(s.upst, s.byId, pick.peer, pick.path, pick.backendId)
    ensures Step(names, s, pick, s')
  {
  }

  /** A response leaves the store as the steps of a run do: an answer, and on a miss the two writes. */
  lemma ResponseIsRun(names: Names, picked: State, h: string, s: InnerMap) returns (states: seq<State>, actions: seq<Action>)
    ensures IsRun(names, states, actions) && states[0] == picked
    ensures states[|actions|] == picked.(reverse := Remembered(names.digest, picked.reverse, names.id(h, s)))
    ensures |actions| > 0 && actions[0] == Answer(h, s, StoredDigest(names.digest, picked.reverse, names.id(h, s)))
    ensures actions[1..] == if names.id(h, s) in picked.reverse then [] else [StoreForward(h, s), StoreBack(h, s)]
  {
    hide Step, StoredDigest;
    var id := names.id(h, s);
    var answer := Answer(h, s, StoredDigest(names.digest, picked.reverse, id));
    AnswerSteps(names, picked, h, s);
    RunExtends(names, [picked], [], answer, picked);
    states, actions := [picked] + [picked], [] + [answer];
    if id !in picked.reverse {
      var once := picked.(reverse := picked.reverse[id := names.Key(h, s)]);
      var twice := once.(reverse := once.reverse[names.Key(h, s) := id]);
      AnswerSteps(names, once, h, s);
      RunExtends(names, states, actions, StoreForward(h, s), once);
      states, actions := states + [once], actions + [StoreForward(h, s)];
      RunExtends(names, states, actions, StoreBack(h, s), twice);
      states, actions := states + [twice], actions + [StoreBack(h, s)];
    }
  }

  /** One request through its phases: routing, the id of the backend, the cookie. */
  method ServeRequest(lb: LB, head: RequestHead, ghost pending: Option<Table>)
    returns (host: Option<string>, backend: Option<InnerMap>, setCookie: Option<string>, ghost picked: State)
    requires lb.Valid()
    modifies lb.umpUpst, lb.reverseStore
    ensures host == old(HostKey(lb.umpUpst.hosts, head))
    ensures host.None? ==> backend == None && picked == old(View(lb, pending))
    ensures host.Some? ==>
      Step(NamesOf(lb.lib), old(View(lb, pending)), Pick(host.value, head.path, AskedId(lb.extraparams, head), backend), picked)
    ensures setCookie.Some? <==> backend.Some? && lb.extraparams.stickySessions.Some?
    ensures setCookie.None? ==> View(lb, pending) == picked
    ensures setCookie.Some? ==>
      var (digest, id) := (lb.lib.digest, BackendId(lb.lib, host.value, backend.value));
      && setCookie.value == SetCookie(StoredDigest(digest, picked.reverse, id), lb.extraparams.stickySessions.value)
      && View(lb, pending) == picked.(reverse := Remembered(digest, picked.reverse, id))
  {
    hide Step, Route, NamesOf, SetCookie, BackendId, StoredDigest, Remembered, HostKey, AskedId;
    var ctx := new Context(lb.extraparams);
    RequestFilter(lb, ctx, head);
    host, backend, setCookie, picked := ctx.hostname, ctx.upstreamPeer, None, View(lb, pending);
    if host.None? {
      return;
    }
    PickSteps(NamesOf(lb.lib), old(View(lb, pending)),
              Pick(host.value, head.path, AskedId(lb.extraparams, head), backend), picked);
    var found := UpstreamPeer(lb, ctx);
    if !found {
      return;
    }
    setCookie := ResponseFilter(lb, ctx);
  }
}
