/**
 Request routing: which path prefix of a host serves a request, which of its backends is taken,
 and which configured headers apply.
 */
module GetHosts {
  import opened Wrappers
  import opened Text
  import opened Structs
  import opened LoadBalancer
  import opened Tools

  // ----- candidate prefixes -----

  /** The path, then the path cut before each `/`, from right to left. */
  function Cuts(path: string): (cuts: seq<string>)
    ensures |cuts| > 0 && cuts[0] == path
    decreases |path|
  {
    match RFind(path, '/')
    case None => [path]
    case Some(pos) => [path] + Cuts(path[..pos])
  }

  /** Everything `get_host` looks up, in order. */
  function Candidates(path: string): seq<string> {
    Cuts(path) + ["/"]
  }

  /** The position of the first candidate among `hits`, or the number of candidates. */
  function FirstIndex(hits: set<string>, candidates: seq<string>): (i: nat)
    ensures i <= |candidates|
    ensures i < |candidates| ==> candidates[i] in hits
    ensures forall j | 0 <= j < i :: candidates[j] !in hits
  {
    if candidates == [] || candidates[0] in hits then 0
    else 1 + FirstIndex(hits, candidates[1..])
  }

  function First(hits: set<string>, candidates: seq<string>): Option<string> {
    var i := FirstIndex(hits, candidates);
    if i < |candidates| then Some(candidates[i]) else None
  }

  /** The paths that have at least one server. */
  function Served(m: PathMap): set<string> {
    set p | p in m && m[p].servers != []
  }

  /** The prefix that serves `path`. */
  function Select(m: PathMap, path: string): Option<string> {
    First(Served(m), Candidates(path))
  }

  lemma FirstStep(hits: set<string>, c: string, rest: seq<string>)
    ensures First(hits, [c] + rest) == if c in hits then Some(c) else First(hits, rest)
  {
    assert ([c] + rest)[1..] == rest;
  }

  /** `c` is the path itself or what precedes one of its slashes. */
  ghost predicate IsCut(path: string, c: string) {
    c == path || exists i :: 0 <= i < |path| && path[i] == '/' && c == path[..i]
  }

  /** The cuts are exactly those prefixes, longest first. */
  lemma {:induction false} CutsAreThePrefixes(path: string)
    ensures forall c :: c in Cuts(path) <==> IsCut(path, c)
    ensures forall i, j | 0 <= i < j < |Cuts(path)| :: |Cuts(path)[i]| > |Cuts(path)[j]|
    decreases |path|
  {
    match RFind(path, '/')
    case None =>
    case Some(pos) =>
      var rest := path[..pos];
      CutsAreThePrefixes(rest);
      assert Cuts(path) == [path] + Cuts(rest);
      forall c ensures c in Cuts(path) <==> IsCut(path, c) {
        assert c in Cuts(path) <==> c == path || IsCut(rest, c);
        CutOfCut(path, pos, c);
      }
      forall j | 0 <= j < |Cuts(rest)| ensures |Cuts(rest)[j]| < |path| {
        assert Cuts(rest)[j] in Cuts(rest);
        assert IsCut(rest, Cuts(rest)[j]);
      }
  }

  lemma CutOfCut(path: string, pos: nat, c: string)
    requires pos < |path| && path[pos] == '/' && '/' !in path[pos + 1..]
    ensures IsCut(path, c) <==> c == path || IsCut(path[..pos], c)
  {
    var rest := path[..pos];
    if c != path && IsCut(path, c) {
      var i :| 0 <= i < |path| && path[i] == '/' && c == path[..i];
      assert i <= pos;
      if i < pos {
        assert rest[i] == '/' && c == rest[..i];
      }
    }
    if IsCut(rest, c) && c != rest {
      var i :| 0 <= i < |rest| && rest[i] == '/' && c == rest[..i];
      assert path[i] == '/' && c == path[..i];
    }
  }

  /** `c` is the longest cut among the hits, or `/` when no cut is one. */
  ghost predicate IsLongest(hits: set<string>, path: string, c: string) {
    && c in hits
    && (if IsCut(path, c) then forall d | IsCut(path, d) && |d| > |c| :: d !in hits
        else c == "/" && forall d | IsCut(path, d) :: d !in hits)
  }

  /** Longest-prefix routing: the first candidate is the longest cut with servers, with `/` as last resort. */
  lemma FirstIsLongest(hits: set<string>, path: string)
    ensures forall c :: First(hits, Candidates(path)) == Some(c) <==> IsLongest(hits, path, c)
    ensures First(hits, Candidates(path)) == None <==> "/" !in hits && forall d | IsCut(path, d) :: d !in hits
  {
    var cuts, all := Cuts(path), Candidates(path);
    var i := FirstIndex(hits, all);
    CutsAreThePrefixes(path);
    assert all[|cuts|] == "/";
    assert forall j | 0 <= j < |cuts| :: all[j] == cuts[j] && cuts[j] in cuts;
    forall d | IsCut(path, d) ensures exists j :: 0 <= j < |cuts| && all[j] == d {
      assert d in cuts;
    }
    if i < |cuts| {
      assert IsCut(path, cuts[i]);
      forall d | IsCut(path, d) && |d| > |cuts[i]| ensures d !in hits {
        var j :| 0 <= j < |cuts| && all[j] == d;
        assert j < i;
      }
      assert IsLongest(hits, path, cuts[i]);
    } else {
      forall d | IsCut(path, d) ensures d !in hits {
        var j :| 0 <= j < |cuts| && all[j] == d;
      }
    }
    forall c | IsLongest(hits, path, c) ensures First(hits, all) == Some(c) {
      if IsCut(path, c) {
        SameLengthCuts(path, c, all[i]);
      }
    }
  }

  /** `c` is the longest cut with servers, or `/` when no cut has any. */
  ghost predicate ServesPath(m: PathMap, path: string, c: string) {
    && c in m && m[c].servers != []
    && (if IsCut(path, c) then forall d | IsCut(path, d) && |d| > |c| :: d !in m || m[d].servers == []
        else c == "/" && forall d | IsCut(path, d) :: d !in m || m[d].servers == [])
  }

  lemma SelectMeans(m: PathMap, path: string)
    ensures forall c :: Select(m, path) == Some(c) <==> ServesPath(m, path, c)
  {
    FirstIsLongest(Served(m), path);
    forall c ensures IsLongest(Served(m), path, c) <==> ServesPath(m, path, c) {
    }
  }

  lemma SameLengthCuts(path: string, c: string, d: string)
    requires IsCut(path, c) && IsCut(path, d) && |c| == |d|
    ensures c == d
  {
    assert c == path[..|c|] && d == path[..|d|];
  }

  // ----- picking a backend -----

  /** `fetch_add(1)` on a counter that wraps around. */
  function FetchAdd(i: usize): usize {
    (i + 1) % USIZE_RANGE
  }

  /** The backend the id index names, provided the list holds its address and port. */
  function FindSticky(ids: map<string, InnerMap>, servers: seq<InnerMap>, backendId: Option<string>): Option<InnerMap> {
    if backendId.None? || backendId.value !in ids then None
    else
      var target := ids[backendId.value];
      if exists s | s in servers :: SameEndpoint(s, target) then Some(target) else None
  }

  datatype Routed = Routed(backend: Option<InnerMap>, table: Table)

  /** The backend a request gets, and the table with the counters it leaves behind. */
  function Route(t: Table, ids: map<string, InnerMap>, peer: string, path: string, backendId: Option<string>): Routed {
    if peer !in t || Select(t[peer], path).None? then Routed(None, t)
    else RouteAt(t, ids, peer, Select(t[peer], path).value, backendId)
  }

  function RouteAt(t: Table, ids: map<string, InnerMap>, peer: string, c: string, backendId: Option<string>): Routed
    requires peer in t && c in Served(t[peer])
  {
    var list := t[peer][c];
    match FindSticky(ids, list.servers, backendId)
    case Some(target) => Routed(Some(target), t)
    case None =>
      Routed(Some(list.servers[list.index % |list.servers|]),
             t[peer := t[peer][c := list.(index := FetchAdd(list.index))]])
  }

  /** The id is known, and some server of the list has the address and port of its record. */
  predicate HasStickyRecord(ids: map<string, InnerMap>, servers: seq<InnerMap>, backendId: Option<string>) {
    && backendId.Some? && backendId.value in ids
    && exists s | s in servers :: s.address == ids[backendId.value].address && s.port == ids[backendId.value].port
  }

  /**
   What every request gets, from the table alone. On the list that serves its path, a known id whose endpoint is listed
   brings the record of the index and moves nothing; every other request takes the server its counter points at and
   leaves the counter one further, modulo 2^64.
   */
  lemma RequestsTakeTurns(t: Table, ids: map<string, InnerMap>, peer: string, path: string, backendId: Option<string>, c: string)
    requires peer in t && ServesPath(t[peer], path, c)
    ensures var list := t[peer][c];
      Route(t, ids, peer, path, backendId) ==
        if HasStickyRecord(ids, list.servers, backendId) then Routed(Some(ids[backendId.value]), t)
        else Routed(Some(list.servers[list.index % |list.servers|]),
                    t[peer := t[peer][c := ServerList(list.servers, (list.index + 1) % 0x1_0000_0000_0000_0000)]])
  {
    SelectMeans(t[peer], path);
  }

  /** Unknown hosts, and paths that no list with servers serves, get nothing and move nothing. */
  lemma UnservedGetNothing(t: Table, ids: map<string, InnerMap>, peer: string, path: string, backendId: Option<string>)
    requires peer in t ==> forall c :: !ServesPath(t[peer], path, c)
    ensures Route(t, ids, peer, path, backendId) == Routed(None, t)
  {
    if peer in t {
      SelectMeans(t[peer], path);
    }
  }

  method FindStickyBackend(lb: LB, servers: seq<InnerMap>, backendId: Option<string>) returns (found: Option<InnerMap>)
    ensures found == FindSticky(lb.umpById.entries, servers, backendId)
    ensures found == if HasStickyRecord(lb.umpById.entries, servers, backendId) then Some(lb.umpById.entries[backendId.value]) else None
  {
    if backendId.None? {
      return None;
    }
    if backendId.value !in lb.umpById.entries {
      return None;
    }
    var target := lb.umpById.entries[backendId.value];
    for i := 0 to |servers|
      invariant forall j | 0 <= j < i :: !SameEndpoint(servers[j], target)
    {
      if SameEndpoint(servers[i], target) {
        return Some(target);
      }
    }
    return None;
  }

  /** Picks from the list at (peer, slice), whose counter it advances unless the sticky id decides. */
  method PickBackend(lb: LB, peer: string, slice: string, backendId: Option<string>) returns (picked: Option<InnerMap>)
    requires peer in lb.umpUpst.hosts && slice in lb.umpUpst.hosts[peer]
    modifies lb.umpUpst
    ensures slice !in old(Served(lb.umpUpst.hosts[peer])) ==> picked == None && unchanged(lb.umpUpst)
    ensures slice in old(Served(lb.umpUpst.hosts[peer])) ==>
      Routed(picked, lb.umpUpst.hosts) == old(RouteAt(lb.umpUpst.hosts, lb.umpById.entries, peer, slice, backendId))
  {
    var list := lb.umpUpst.hosts[peer][slice];
    if list.servers == [] {
      return None;
    }
    var sticky := FindStickyBackend(lb, list.servers, backendId);
    if sticky.Some? {
      return sticky;
    }
    var idx := list.index % |list.servers|;
    lb.umpUpst.hosts := lb.umpUpst.hosts[peer := lb.umpUpst.hosts[peer][slice := list.(index := FetchAdd(list.index))]];
    return Some(list.servers[idx]);
  }

  /** Walks from the full path towards the root and takes the first prefix whose list yields a backend. */
  method GetHost(lb: LB, peer: string, path: string, backendId: Option<string>) returns (host: Option<InnerMap>)
    modifies lb.umpUpst
    ensures Routed(host, lb.umpUpst.hosts) == old(Route(lb.umpUpst.hosts, lb.umpById.entries, peer, path, backendId))
  {
    if peer !in lb.umpUpst.hosts {
      return None;
    }
    ghost var paths := lb.umpUpst.hosts[peer];
    hide First;
    var end := |path|;
    assert path[..end] == path;
    while true
      invariant end <= |path|
      invariant unchanged(lb.umpUpst)
      invariant Select(paths, path) == First(Served(paths), Cuts(path[..end]) + ["/"])
      decreases end
    {
      var slice := path[..end];
      ghost var cut := RFind(slice, '/');
      ghost var rest := (if cut.Some? then Cuts(slice[..cut.value]) else []) + ["/"];
      assert Cuts(slice) + ["/"] == [slice] + rest;
      FirstStep(Served(paths), slice, rest);
      if slice in lb.umpUpst.hosts[peer] {
        var backend := PickBackend(lb, peer, slice, backendId);
        if backend.Some? {
          return backend;
        }
      }
      match RFind(slice, '/')
      case Some(pos) =>
        assert slice[..pos] == path[..pos];
        end := pos;
      case None =>
        break;
    }
    FirstStep(Served(paths), "/", []);
    if "/" in lb.umpUpst.hosts[peer] {
      var backend := PickBackend(lb, peer, "/", backendId);
      if backend.Some? {
        return backend;
      }
    }
    return None;
  }

  // ----- equivalent and re-counted tables -----

  /** The same hosts, paths and server lists; counters may differ. */
  ghost predicate SameLists(t: Table, u: Table) {
    && t.Keys == u.Keys
    && forall h | h in t :: t[h].Keys == u[h].Keys && forall p | p in t[h] :: t[h][p].servers == u[h][p].servers
  }

  lemma RouteKeepsLists(t: Table, ids: map<string, InnerMap>, peer: string, path: string, backendId: Option<string>)
    ensures SameLists(t, Route(t, ids, peer, path, backendId).table)
  {
  }

  /** The selected prefix depends on neither cookie nor counters, and at most that list's counter moves, by one. */
  lemma RouteMovesSelectedOnly(t: Table, ids: map<string, InnerMap>, peer: string, path: string, backendId: Option<string>)
    ensures var u := Route(t, ids, peer, path, backendId).table;
      && (peer in t ==> peer in u && Select(u[peer], path) == Select(t[peer], path))
      && (Route(t, ids, peer, path, backendId).backend.None? <==> peer !in t || Select(t[peer], path).None?)
      && (forall h, p | h in t && p in t[h] ::
            h in u && p in u[h] &&
            (u[h][p] == t[h][p] ||
             (h == peer && Select(t[peer], path) == Some(p) && u[h][p] == t[h][p].(index := FetchAdd(t[h][p].index)))))
  {
    var u := Route(t, ids, peer, path, backendId).table;
    RouteKeepsLists(t, ids, peer, path, backendId);
    if peer in t {
      assert Served(u[peer]) == Served(t[peer]);
    }
  }

  /** Equivalent tables send every request to the same prefix and the same set of servers. */
  lemma EquivTablesServeAlike(a: Table, b: Table, h: string, path: string)
    requires Equiv(a, b) && h in a
    ensures h in b && Select(a[h], path) == Select(b[h], path)
    ensures var c := Select(a[h], path);
      c.Some? ==> ToSet(a[h][c.value].servers) == ToSet(b[h][c.value].servers) && |a[h][c.value].servers| == |b[h][c.value].servers|
  {
    assert EquivPaths(a[h], b[h]);
    forall p | p in a[h] ensures p in Served(a[h]) <==> p in Served(b[h]) {
      assert EquivLists(a[h][p].servers, b[h][p].servers);
    }
    assert Served(a[h]) == Served(b[h]);
  }

  // ----- headers -----

  /** The paths with at least one header. */
  function WithHeaders(m: HeaderPaths): set<string> {
    set p | p in m && m[p] != []
  }

  /** The second walk: like `Cuts`, but a leading slash is kept and `/` ends the walk. */
  function HeaderCuts(path: string): (cuts: seq<string>)
    ensures |cuts| > 0 && cuts[0] == path
    decreases |path|
  {
    if path == "/" then [path]
    else
      match RFind(path, '/')
      case None => [path]
      case Some(pos) => [path] + HeaderCuts(if pos == 0 then "/" else path[..pos])
  }

  function FirstHeaders(m: HeaderPaths, path: string): Option<HeaderList> {
    var at := First(WithHeaders(m), HeaderCuts(path));
    if at.Some? && at.value in m then Some(m[at.value]) else None
  }

  datatype GetHostsReturHeaders = GetHostsReturHeaders(clientHeaders: Option<HeaderList>, serverHeaders: Option<HeaderList>)

  function SideHeaders(hosts: map<string, HeaderPaths>, peer: string, path: string): Option<HeaderList> {
    if peer in hosts then FirstHeaders(hosts[peer], path) else None
  }

  method GetHeader(lb: LB, peer: string, path: string) returns (r: Option<GetHostsReturHeaders>)
    ensures var (c, s) := (SideHeaders(lb.clientHeaders.hosts, peer, path), SideHeaders(lb.serverHeaders.hosts, peer, path));
      r == if c.None? && s.None? then None else Some(GetHostsReturHeaders(c, s))
  {
    if peer !in lb.clientHeaders.hosts && peer !in lb.serverHeaders.hosts {
      return None;
    }
    var clntMatch: Option<HeaderList> := None;
    if peer in lb.clientHeaders.hosts {
      clntMatch := ClientMatch(lb.clientHeaders.hosts[peer], path);
    }
    var servMatch: Option<HeaderList> := None;
    if peer in lb.serverHeaders.hosts {
      servMatch := ServerMatch(lb.serverHeaders.hosts[peer], path);
    }
    if clntMatch.Some? || servMatch.Some? {
      return Some(GetHostsReturHeaders(clntMatch, servMatch));
    }
    return None;
  }

  method ClientMatch(entries: HeaderPaths, path: string) returns (found: Option<HeaderList>)
    ensures found == FirstHeaders(entries, path)
  {
    var currentPath := path;
    while true
      invariant First(WithHeaders(entries), HeaderCuts(path)) == First(WithHeaders(entries), HeaderCuts(currentPath))
      decreases |currentPath|
    {
      HeaderStep(entries, currentPath);
      if currentPath in entries && entries[currentPath] != [] {
        return Some(entries[currentPath]);
      }
      if currentPath == "/" {
        break;
      }
      match RFind(currentPath, '/')
      case Some(pos) =>
        currentPath := if pos == 0 then "/" else currentPath[..pos];
      case None =>
        break;
    }
    return None;
  }

  /** The server side looks at `/` a second time before giving up; that look finds nothing new. */
  method ServerMatch(entries: HeaderPaths, path: string) returns (found: Option<HeaderList>)
    ensures found == FirstHeaders(entries, path)
  {
    var currentPath := path;
    while true
      invariant First(WithHeaders(entries), HeaderCuts(path)) == First(WithHeaders(entries), HeaderCuts(currentPath))
      decreases |currentPath|
    {
      HeaderStep(entries, currentPath);
      if currentPath in entries && entries[currentPath] != [] {
        return Some(entries[currentPath]);
      }
      if currentPath == "/" {
        if "/" in entries && entries["/"] != [] {
          assert false; // the list would have been returned above
        }
        break;
      }
      match RFind(currentPath, '/')
      case Some(pos) =>
        currentPath := if pos == 0 then "/" else currentPath[..pos];
      case None =>
        break;
    }
    return None;
  }

  lemma HeaderStep(m: HeaderPaths, path: string)
    ensures First(WithHeaders(m), HeaderCuts(path)) ==
      if path in WithHeaders(m) then Some(path)
      else if path == "/" || RFind(path, '/').None? then None
      else
        var pos := RFind(path, '/').value;
        First(WithHeaders(m), HeaderCuts(if pos == 0 then "/" else path[..pos]))
  {
    FirstStep(WithHeaders(m), path, HeaderCuts(path)[1..]);
    assert HeaderCuts(path) == [path] + HeaderCuts(path)[1..];
  }

  /** For an absolute path the header walk meets the same candidates as `get_host`, the empty one left out. */
  lemma {:induction false} HeaderWalkAgrees(hits: set<string>, path: string)
    requires |path| > 0 && path[0] == '/'
    ensures First(hits, HeaderCuts(path)) == First(hits - {""}, Candidates(path))
    decreases |path|
  {
    var kept := hits - {""};
    var pos := RFind(path, '/').value;
    var rest := path[..pos];
    assert Candidates(path) == [path] + Candidates(rest);
    FirstStep(kept, path, Candidates(rest));
    if pos == 0 {
      assert Candidates(rest) == [""] + ["/"];
      FirstStep(kept, "", ["/"]);
      FirstStep(kept, "/", []);
      FirstStep(hits, "/", []);
      FirstStep(hits, path, HeaderCuts(path)[1..]);
      assert path != "/" ==> HeaderCuts(path) == [path] + ["/"];
    } else {
      HeaderWalkAgrees(hits, rest);
      FirstStep(hits, path, HeaderCuts(rest));
    }
  }

  /** For any other path the two walks cut alike, but the header walk has no last resort at `/`. */
  lemma {:induction false} RelativeHeaderWalk(path: string)
    requires path == "" || path[0] != '/'
    ensures HeaderCuts(path) == Cuts(path)
    decreases |path|
  {
    match RFind(path, '/')
    case None =>
    case Some(pos) =>
      RelativeHeaderWalk(path[..pos]);
  }

  /** `c` is the longest cut with headers, the empty one left out, or `/` when no such cut has any. */
  ghost predicate IsNearest(m: HeaderPaths, path: string, c: string) {
    && c in m && m[c] != []
    && (if IsCut(path, c) && c != "" then forall d | IsCut(path, d) && |d| > |c| :: d !in m || m[d] == []
        else c == "/" && forall d | IsCut(path, d) && d != "" :: d !in m || m[d] == [])
  }

  lemma NearestIsLongest(m: HeaderPaths, path: string, c: string)
    requires |path| > 0 && path[0] == '/'
    ensures IsNearest(m, path, c) <==> IsLongest(WithHeaders(m) - {""}, path, c)
  {
  }

  /** The headers of an absolute path come from its nearest ancestor that has any. */
  lemma HeadersFromNearestAncestor(hosts: map<string, HeaderPaths>, peer: string, path: string, c: string)
    requires peer in hosts && |path| > 0 && path[0] == '/' && IsNearest(hosts[peer], path, c)
    ensures SideHeaders(hosts, peer, path) == Some(hosts[peer][c])
  {
    HeaderWalkAgrees(WithHeaders(hosts[peer]), path);
    NearestIsLongest(hosts[peer], path, c);
    FirstIsLongest(WithHeaders(hosts[peer]) - {""}, path);
  }

  /** There are none exactly when no ancestor has any, or the host itself is not there. */
  lemma NoHeadersWithoutAncestor(hosts: map<string, HeaderPaths>, peer: string, path: string)
    requires |path| > 0 && path[0] == '/'
    ensures SideHeaders(hosts, peer, path) == None <==>
      peer in hosts ==> forall d | d == "/" || (IsCut(path, d) && d != "") :: d !in hosts[peer] || hosts[peer][d] == []
  {
    if peer in hosts {
      var m := hosts[peer];
      HeaderWalkAgrees(WithHeaders(m), path);
      FirstIsLongest(WithHeaders(m) - {""}, path);
      var at := First(WithHeaders(m) - {""}, Candidates(path));
      if at.Some? {
        assert IsLongest(WithHeaders(m) - {""}, path, at.value);
      }
    }
  }

  lemma FirstCut(hits: set<string>, path: string)
    ensures forall c | IsCut(path, c) && c in hits && (forall d | IsCut(path, d) && |d| > |c| :: d !in hits) ::
      First(hits, Cuts(path)) == Some(c)
    ensures (forall d | IsCut(path, d) :: d !in hits) ==> First(hits, Cuts(path)) == None
  {
    var cuts := Cuts(path);
    var i := FirstIndex(hits, cuts);
    CutsAreThePrefixes(path);
    forall c | IsCut(path, c) && c in hits && (forall d | IsCut(path, d) && |d| > |c| :: d !in hits)
      ensures First(hits, cuts) == Some(c)
    {
      assert c in cuts;
      assert i < |cuts| && cuts[i] in cuts;
    }
    assert i < |cuts| ==> cuts[i] in cuts;
  }

  /** The headers of any other path come from its longest cut with headers, and from nowhere else. */
  lemma HeadersOfRelativePath(hosts: map<string, HeaderPaths>, peer: string, path: string)
    requires peer in hosts && (path == "" || path[0] != '/')
    ensures var m := hosts[peer];
      forall c | IsCut(path, c) && c in m && m[c] != [] && (forall d | IsCut(path, d) && |d| > |c| :: d !in m || m[d] == []) ::
        SideHeaders(hosts, peer, path) == Some(m[c])
    ensures (forall d | IsCut(path, d) :: d !in hosts[peer] || hosts[peer][d] == []) ==> SideHeaders(hosts, peer, path) == None
  {
    hide IsCut, First;
    RelativeHeaderWalk(path);
    FirstCut(WithHeaders(hosts[peer]), path);
  }
}
