/** Health checking: probing a table, and what the surviving table means for routing and for the liveness report. */
module HealthCheck {
  import opened Wrappers
  import opened Structs
  import opened Tools
  import opened GetHosts

  /** What the network answered for one server: TLS detection and the health request. */
  datatype Probe = Probe(tls: bool, http2: bool, alive: bool)

  /** The answers of one tick, by host, path and position in the list. */
  type Oracle = (string, string, nat) -> Probe

  predicate Checked(s: InnerMap) {
    s.healthcheck.UnwrapOr(true)
  }

  /** A server stays when its checks are off or its probe succeeded. */
  predicate Keeps(s: InnerMap, probe: Probe) {
    Checked(s) ==> probe.alive
  }

  /** A server that stays, with the protocol flags just detected; both are off for an unchecked one. */
  function Annotated(s: InnerMap, probe: Probe): InnerMap {
    s.(isSsl := Checked(s) && probe.tls, isHttp2 := Checked(s) && probe.http2)
  }

  /** The positions of the servers that stay. */
  function Kept(servers: seq<InnerMap>, h: string, p: string, o: Oracle): (kept: seq<nat>)
    ensures forall i | 0 <= i < |kept| :: kept[i] < |servers| && Keeps(servers[kept[i]], o(h, p, kept[i]))
    ensures forall i, j | 0 <= i < j < |kept| :: kept[i] < kept[j]
    ensures forall k | 0 <= k < |servers| && Keeps(servers[k], o(h, p, k)) :: k in kept
  {
    if servers == [] then []
    else
      var last := |servers| - 1;
      Kept(servers[..last], h, p, o) + if Keeps(servers[last], o(h, p, last)) then [last] else []
  }

  function ProbedServers(servers: seq<InnerMap>, h: string, p: string, o: Oracle): seq<InnerMap> {
    var kept := Kept(servers, h, p, o);
    seq(|kept|, i requires 0 <= i < |kept| => Annotated(servers[kept[i]], o(h, p, kept[i])))
  }

  function ProbedPaths(m: PathMap, h: string, o: Oracle): PathMap {
    map p | p in m :: ServerList(ProbedServers(m[p].servers, h, p, o), 0)
  }

  /** The table a tick builds: same hosts, same paths, each list filtered and annotated. */
  function Probed(t: Table, o: Oracle): Table {
    map h | h in t :: ProbedPaths(t[h], h, o)
  }

  lemma ProbedStep(servers: seq<InnerMap>, k: nat, h: string, p: string, o: Oracle)
    requires k < |servers|
    ensures ProbedServers(servers[..k + 1], h, p, o) == ProbedServers(servers[..k], h, p, o) +
      if Keeps(servers[k], o(h, p, k)) then [Annotated(servers[k], o(h, p, k))] else []
  {
    assert servers[..k + 1][..k] == servers[..k];
  }

  method ProbeList(servers: seq<InnerMap>, host: string, path: string, o: Oracle) returns (innervec: seq<InnerMap>)
    ensures innervec == ProbedServers(servers, host, path, o)
  {
    innervec := [];
    for i := 0 to |servers|
      invariant innervec == ProbedServers(servers[..i], host, path, o)
    {
      var upstream := servers[i];
      var probe := o(host, path, i);
      var tls, isH2 := false, false;
      if upstream.healthcheck.UnwrapOr(true) {
        tls, isH2 := probe.tls, probe.http2;
      }
      var scheme := InnerMap(upstream.address, upstream.port, tls, isH2, upstream.toHttps, upstream.rateLimit,
                             upstream.x4xxLimit, upstream.healthcheck, upstream.redirectTo, upstream.authorization);
      ProbedStep(servers, i, host, path, o);
      if scheme.healthcheck.UnwrapOr(true) {
        if probe.alive {
          innervec := innervec + [scheme];
        }
      } else {
        innervec := innervec + [scheme];
      }
    }
    assert servers[..|servers|] == servers;
  }

  method ProbeHost(paths: PathMap, host: string, o: Oracle) returns (inner: PathMap)
    ensures inner == ProbedPaths(paths, host, o)
  {
    inner := map[];
    var todo := paths.Keys;
    while todo != {}
      invariant todo <= paths.Keys
      invariant inner == map p | p in paths && p !in todo :: ServerList(ProbedServers(paths[p].servers, host, p, o), 0)
    {
      var path :| path in todo;
      var innervec := ProbeList(paths[path].servers, host, path, o);
      inner := inner[path := ServerList(innervec, 0)];
      todo := todo - {path};
    }
  }

  method BuildUpstreams(fullist: UpstreamsDashMap, o: Oracle) returns (totest: UpstreamsDashMap)
    ensures fresh(totest) && totest.hosts == Probed(fullist.hosts, o)
  {
    hide Fresh, ProbedPaths;
    totest := new UpstreamsDashMap();
    var fclone := CloneDashmap(fullist);
    var source := fclone.hosts;
    var todo := source.Keys;
    while todo != {}
      invariant todo <= source.Keys
      invariant totest.hosts == map h | h in source && h !in todo :: ProbedPaths(source[h], h, o)
    {
      var host :| host in todo;
      var inner := ProbeHost(source[host], host, o);
      totest.hosts := totest.hosts[host := inner];
      todo := todo - {host};
    }
    assert totest.hosts == Probed(source, o);
    ProbingIgnoresCounters(fullist.hosts, o);
  }

  lemma ProbingIgnoresCounters(t: Table, o: Oracle)
    ensures Probed(Fresh(t), o) == Probed(t, o)
  {
    forall h | h in t ensures ProbedPaths(Fresh(t)[h], h, o) == ProbedPaths(t[h], h, o) {
    }
  }

  /**
   Filter and map: hosts and paths stay, counters restart. The servers kept are those with checks off or a successful
   request, in their order; the protocol flags are those detected, or off where checks are; nothing else changes.
   */
  lemma ProbingFilters(t: Table, o: Oracle, h: string, p: string)
    requires h in t && p in t[h]
    ensures Probed(t, o).Keys == t.Keys && Probed(t, o)[h].Keys == t[h].Keys
    ensures var (before, after) := (t[h][p].servers, Probed(t, o)[h][p].servers);
      var kept := Kept(before, h, p, o);
      && Probed(t, o)[h][p].index == 0
      && |after| == |kept|
      && (forall k | 0 <= k < |before| :: k in kept <==> before[k].healthcheck == Some(false) || o(h, p, k).alive)
      && (forall i | 0 <= i < |kept| :: 0 <= kept[i] < |before|)
      && (forall i, j | 0 <= i < j < |kept| :: kept[i] < kept[j])
      && (forall i | 0 <= i < |kept| ::
            var s := before[kept[i]];
            && after[i].isSsl == (s.healthcheck != Some(false) && o(h, p, kept[i]).tls)
            && after[i].isHttp2 == (s.healthcheck != Some(false) && o(h, p, kept[i]).http2)
            && after[i] == s.(isSsl := after[i].isSsl, isHttp2 := after[i].isHttp2))
  {
  }

  // ----- routing over the surviving table -----

  lemma FewerHitsComeLater(fewer: set<string>, more: set<string>, candidates: seq<string>)
    requires fewer <= more
    ensures FirstIndex(fewer, candidates) >= FirstIndex(more, candidates)
    ensures First(more, candidates).Some? && First(more, candidates).value in fewer
      ==> FirstIndex(fewer, candidates) == FirstIndex(more, candidates)
  {
  }

  /** Losing servers moves a request to the same prefix or to a later candidate, never to an earlier one. */
  lemma FilteringNeverMoreSpecific(t: Table, o: Oracle, h: string, path: string)
    requires h in t
    ensures var (full, live, all) := (Served(t[h]), Served(Probed(t, o)[h]), Candidates(path));
      && FirstIndex(live, all) >= FirstIndex(full, all)
      && (First(full, all).Some? && First(full, all).value in live ==> First(live, all) == First(full, all))
      && (First(full, all).None? ==> First(live, all).None?)
  {
    var full, live := Served(t[h]), Served(Probed(t, o)[h]);
    forall p | p in live ensures p in full {
      ProbingFilters(t, o, h, p);
    }
    FewerHitsComeLater(live, full, Candidates(path));
  }

  // ----- the liveness report -----

  /** Some server with the address and port of `s` at (h, p) of the full table has its checks off or passed them. */
  ghost predicate KeptEndpoint(t: Table, o: Oracle, h: string, p: string, s: InnerMap)
    requires h in t && p in t[h]
  {
    exists k :: 0 <= k < |t[h][p].servers| &&
      var u := t[h][p].servers[k];
      u.address == s.address && u.port == s.port && (u.healthcheck == Some(false) || o(h, p, k).alive)
  }

  lemma KeptEndpointIsAlive(t: Table, o: Oracle, h: string, p: string, s: InnerMap)
    requires h in t && p in t[h] && KeptEndpoint(t, o, h, p, s)
    ensures Alive(Probed(t, o), h, p, s)
  {
    var before, after := t[h][p].servers, Probed(t, o)[h][p].servers;
    var k :| 0 <= k < |before| && before[k].address == s.address && before[k].port == s.port &&
      (before[k].healthcheck == Some(false) || o(h, p, k).alive);
    var kept := Kept(before, h, p, o);
    assert k in kept;
    var j :| 0 <= j < |kept| && kept[j] == k;
    assert after[j] in after && SameEndpoint(after[j], s);
  }

  lemma AliveEndpointIsKept(t: Table, o: Oracle, h: string, p: string, s: InnerMap)
    requires h in t && p in t[h] && Alive(Probed(t, o), h, p, s)
    ensures KeptEndpoint(t, o, h, p, s)
  {
    var before, after := t[h][p].servers, Probed(t, o)[h][p].servers;
    var kept := Kept(before, h, p, o);
    ProbingFilters(t, o, h, p);
    hide Probed, Kept, Keeps;
    var b :| b in after && SameEndpoint(b, s);
    var j :| 0 <= j < |after| && after[j] == b;
    assert kept[j] in kept;
    assert before[kept[j]].address == s.address && before[kept[j]].port == s.port;
  }

  /** The report marks a backend alive exactly when a server with its address and port was kept. */
  lemma LivenessIsKept(t: Table, o: Oracle, h: string, p: string, i: nat)
    requires h in t && p in t[h] && i < |t[h][p].servers|
    ensures ReportPaths(t[h], Probed(t, o), h)[p][i].alive <==> KeptEndpoint(t, o, h, p, t[h][p].servers[i])
  {
    hide Probed;
    var s := t[h][p].servers[i];
    if KeptEndpoint(t, o, h, p, s) {
      KeptEndpointIsAlive(t, o, h, p, s);
    }
    if Alive(Probed(t, o), h, p, s) {
      AliveEndpointIsKept(t, o, h, p, s);
    }
  }
}
