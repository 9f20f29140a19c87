/** Requests served while a new table is being installed host by host. */
module Installing {
  import opened Wrappers
  import opened Structs
  import opened Identity
  import opened Tools
  import opened GetHosts

  /** A step of the one writer, or of any reader, on the shared table. */
  datatype Event =
    | InsertHost(host: string)
    | Read(peer: string, path: string, backendId: Option<string>, answer: Option<InnerMap>)

  ghost predicate Happens(target: Table, ids: map<string, InnerMap>, t: Table, e: Event, t': Table) {
    match e
    case InsertHost(host) => host in target && host !in t && t' == t[host := target[host]]
    case Read(peer, path, backendId, answer) => Routed(answer, t') == Route(t, ids, peer, path, backendId)
  }

  /** The shared table from the clear on, with readers between the writer's inserts. */
  ghost predicate IsInstallRun(target: Table, ids: map<string, InnerMap>, tables: seq<Table>, events: seq<Event>) {
    && |tables| == |events| + 1
    && tables[0] == map[]
    && forall i | 0 <= i < |events| :: Happens(target, ids, tables[i], events[i], tables[i + 1])
  }

  /** Every host that is there has the target's lists. */
  ghost predicate PartOf(t: Table, target: Table) {
    forall h | h in t ::
      h in target && t[h].Keys == target[h].Keys && forall p | p in t[h] :: t[h][p].servers == target[h][p].servers
  }

  lemma {:induction false} RunStaysPart(target: Table, ids: map<string, InnerMap>, tables: seq<Table>, events: seq<Event>, i: nat)
    requires IsInstallRun(target, ids, tables, events) && i < |tables|
    ensures PartOf(tables[i], target)
    decreases i
  {
    if i == 0 {
    } else {
      RunStaysPart(target, ids, tables, events, i - 1);
      var e := events[i - 1];
      assert Happens(target, ids, tables[i - 1], e, tables[i]);
      if e.Read? {
        RouteKeepsLists(tables[i - 1], ids, e.peer, e.path, e.backendId);
      }
    }
  }

  /** The server is on the list the finished table gives for host and path. */
  ghost predicate OnNewList(target: Table, peer: string, path: string, s: InnerMap) {
    peer in target && Select(target[peer], path).Some? && s in target[peer][Select(target[peer], path).value].servers
  }

  /** The id leads to a record that is not on the new list, though a server with its address and port is. */
  ghost predicate LeadsToOldRecord(target: Table, ids: map<string, InnerMap>, peer: string, path: string, backendId: Option<string>) {
    && backendId.Some? && backendId.value in ids
    && !OnNewList(target, peer, path, ids[backendId.value])
    && exists s :: OnNewList(target, peer, path, s) && SameEndpoint(s, ids[backendId.value])
  }

  /** During an install a request for a host that is there is answered whenever the new table has an answer for it. */
  lemma PartAnswersAsTarget(t: Table, target: Table, ids: map<string, InnerMap>, peer: string, path: string, backendId: Option<string>)
    requires PartOf(t, target)
    ensures var answer := Route(t, ids, peer, path, backendId).backend;
      && (answer.None? <==> peer !in t || Select(target[peer], path).None?)
      && (answer.Some? ==> exists s :: OnNewList(target, peer, path, s) && SameEndpoint(s, answer.value))
  {
    if peer in t {
      assert Served(t[peer]) == Served(target[peer]);
      var c := Select(t[peer], path);
      var answer := Route(t, ids, peer, path, backendId).backend;
      if c.Some? {
        var servers := t[peer][c.value].servers;
        var sticky := FindSticky(ids, servers, backendId);
        if sticky.Some? {
          var s :| s in servers && SameEndpoint(s, sticky.value);
          assert OnNewList(target, peer, path, s);
        } else {
          assert OnNewList(target, peer, path, answer.value);
        }
      }
    }
  }

  /** The record is not on the new list exactly when the id in the cookie leads to such an old record. */
  lemma OldRecordExactlyWhen(t: Table, target: Table, ids: map<string, InnerMap>, peer: string, path: string, backendId: Option<string>)
    requires PartOf(t, target)
    ensures var answer := Route(t, ids, peer, path, backendId).backend;
      answer.Some? ==>
        && (!OnNewList(target, peer, path, answer.value) <==> LeadsToOldRecord(target, ids, peer, path, backendId))
        && (LeadsToOldRecord(target, ids, peer, path, backendId) ==> answer.value == ids[backendId.value])
  {
    if Route(t, ids, peer, path, backendId).backend.Some? {
      assert Served(t[peer]) == Served(target[peer]);
      var servers := t[peer][Select(t[peer], path).value].servers;
      assert forall s :: s in servers <==> OnNewList(target, peer, path, s);
    }
  }

  /**
   No mixture of configurations: at every point of an install, whatever other readers do, a request without a cookie
   gets nothing or a server of the list that the finished new table gives for its host and path.
   */
  lemma ReaderSeesOnlyNew(target: Table, ids: map<string, InnerMap>, tables: seq<Table>, events: seq<Event>, i: nat)
    requires IsInstallRun(target, ids, tables, events)
    requires i < |events| && events[i].Read? && events[i].backendId == None
    ensures events[i].answer.None? || OnNewList(target, events[i].peer, events[i].path, events[i].answer.value)
  {
    RunStaysPart(target, ids, tables, events, i);
    assert Happens(target, ids, tables[i], events[i], tables[i + 1]);
    OldRecordExactlyWhen(tables[i], target, ids, events[i].peer, events[i].path, None);
  }

  /** With a cookie too, the address and port are those of a server of the new list. */
  lemma StickyReaderSeesNewEndpoint(target: Table, ids: map<string, InnerMap>, tables: seq<Table>, events: seq<Event>, i: nat)
    requires IsInstallRun(target, ids, tables, events)
    requires i < |events| && events[i].Read? && events[i].answer.Some?
    ensures exists s :: OnNewList(target, events[i].peer, events[i].path, s) && SameEndpoint(s, events[i].answer.value)
  {
    RunStaysPart(target, ids, tables, events, i);
    assert Happens(target, ids, tables[i], events[i], tables[i + 1]);
    PartAnswersAsTarget(tables[i], target, ids, events[i].peer, events[i].path, events[i].backendId);
  }

  /**
   The record itself is of the new list except when the id of the cookie is in the index, which is not rebuilt yet, and
   leads there to a record that is not on the list, while some server of its address and port is. Then that record is
   the answer.
   */
  lemma StickyReaderSeesOldRecordExactlyWhen(target: Table, ids: map<string, InnerMap>, tables: seq<Table>, events: seq<Event>, i: nat)
    requires IsInstallRun(target, ids, tables, events)
    requires i < |events| && events[i].Read? && events[i].answer.Some?
    ensures var (e, answer) := (events[i], events[i].answer.value);
      && (!OnNewList(target, e.peer, e.path, answer) <==> LeadsToOldRecord(target, ids, e.peer, e.path, e.backendId))
      && (LeadsToOldRecord(target, ids, e.peer, e.path, e.backendId) ==> answer == ids[e.backendId.value])
  {
    RunStaysPart(target, ids, tables, events, i);
    assert Happens(target, ids, tables[i], events[i], tables[i + 1]);
    OldRecordExactlyWhen(tables[i], target, ids, events[i].peer, events[i].path, events[i].backendId);
  }

  lemma RootPrefix(m: PathMap)
    requires "/" in m && m["/"].servers != []
    ensures Select(m, "/") == Some("/")
  {
    FirstStep(Served(m), "/", Candidates("/")[1..]);
    assert Candidates("/") == ["/"] + Candidates("/")[1..];
  }

  /** A request for `/` whose id leads to the endpoint of the one server there gets the record of the index. */
  lemma SingleGivesIndexed(peer: string, s: InnerMap, key: string, indexed: InnerMap)
    requires SameEndpoint(indexed, s)
    ensures Route(Single(peer, "/", s), map[key := indexed], peer, "/", Some(key)) == Routed(Some(indexed), Single(peer, "/", s))
  {
    RootPrefix(Single(peer, "/", s)[peer]);
    assert s in Single(peer, "/", s)[peer]["/"].servers;
  }

  /**
   Such a run exists for every server whose configuration changes in anything but address and port: the index is that of
   the table with the old record, the new table is installed, and a client with the old cookie gets the old record.
   */
  lemma StickyReaderCanSeeOldRecord(names: Names, peer: string, old': InnerMap, new': InnerMap)
    returns (tables: seq<Table>, events: seq<Event>)
    requires SameEndpoint(old', new') && old' != new'
    ensures var (key, target) := (names.Key(peer, old'), Single(peer, "/", new'));
      var ids := map[key := old'];
      && IsIndex(KeyOf(names), Single(peer, "/", old'), ids)
      && IsInstallRun(target, ids, tables, events)
      && events == [InsertHost(peer), Read(peer, "/", Some(key), Some(old'))]
      && !OnNewList(target, peer, "/", old')
  {
    var key, target := names.Key(peer, old'), Single(peer, "/", new');
    var ids := map[key := old'];
    SingleIndex(KeyOf(names), peer, "/", old');
    tables, events := [map[], target, target], [InsertHost(peer), Read(peer, "/", Some(key), Some(old'))];
    assert Happens(target, ids, map[], events[0], target);
    SingleGivesIndexed(peer, new', key, old');
    assert Happens(target, ids, target, events[1], target);
    RootPrefix(target[peer]);
  }

  /** The writer of `CloneDashmapInto` alone makes such a run. */
  lemma {:induction false} TraceIsInstallRun(target: Table, ids: map<string, InnerMap>, trace: seq<Table>) returns (events: seq<Event>)
    requires IsInstallTrace(trace, target)
    ensures IsInstallRun(target, ids, trace, events) && trace[|events|] == target
  {
    events := [];
    while |events| < |trace| - 1
      invariant |events| < |trace|
      invariant forall i | 0 <= i < |events| :: Happens(target, ids, trace[i], events[i], trace[i + 1])
    {
      var i := |events|;
      assert InstallsOneHost(trace[i], trace[i + 1], target);
      var h :| h in target && h !in trace[i] && trace[i + 1] == trace[i][h := target[h]];
      events := events + [InsertHost(h)];
    }
  }
}
