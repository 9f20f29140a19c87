/** The reload arm of the background service: the tables, the extra parameters and the merged headers. */
module BgService {
  import opened Wrappers
  import opened Structs
  import opened Identity
  import opened LoadBalancer
  import opened Tools
  import opened GetHosts
  import opened ControlPlane

  const GLOBAL_CLIENT_HEADERS := "GLOBAL_CLIENT_HEADERS"
  const GLOBAL_SERVER_HEADERS := "GLOBAL_SERVER_HEADERS"

  /** A configuration as it arrives on the channel. Its maps belong to the receiver alone. */
  class Received {
    const upstreams: UpstreamsDashMap
    const clientHeaders: Headers
    const serverHeaders: Headers
    const extraparams: Extraparams

    constructor (upstreams: UpstreamsDashMap, clientHeaders: Headers, serverHeaders: Headers, extraparams: Extraparams)
      ensures this.upstreams == upstreams && this.clientHeaders == clientHeaders
      ensures this.serverHeaders == serverHeaders && this.extraparams == extraparams
    {
      this.upstreams, this.clientHeaders, this.serverHeaders, this.extraparams := upstreams, clientHeaders, serverHeaders, extraparams;
    }

    ghost predicate OwnedApartFrom(lb: LB) {
      && clientHeaders != serverHeaders
      && {upstreams} !! {lb.umpFull, lb.umpUpst}
      && {clientHeaders, serverHeaders} !! {lb.clientHeaders, lb.serverHeaders}
    }
  }

  /** The headers of a host at a path; none when nothing is configured. */
  function At(m: HeaderPaths, p: string): HeaderList {
    if p in m then m[p] else []
  }

  /** The map with an empty entry for every host that had none. */
  function WithHosts(own: map<string, HeaderPaths>, hosts: set<string>): map<string, HeaderPaths> {
    map h | h in own.Keys + hosts :: if h in own then own[h] else map[]
  }

  /** Each host's own headers with the global ones appended. */
  function Installed(own: map<string, HeaderPaths>, global: string): map<string, HeaderPaths> {
    map h | h in own :: if global in own then Merged(own[h], own[global]) else own[h]
  }

  lemma WithNoHosts(own: map<string, HeaderPaths>)
    ensures WithHosts(own, {}) == own
  {
  }

  lemma WithOneMoreHost(own: map<string, HeaderPaths>, hosts: set<string>, h: string)
    ensures var before := WithHosts(own, hosts);
      WithHosts(own, hosts + {h}) == if h in before then before else before[h := map[]]
  {
  }

  /** `entry(host).or_insert_with(DashMap::new)`. */
  method EnsureHost(headers: Headers, host: string)
    modifies headers
    ensures host in headers.hosts
    ensures headers.hosts == if host in old(headers.hosts) then old(headers.hosts) else old(headers.hosts)[host := map[]]
  {
    if host !in headers.hosts {
      headers.hosts := headers.hosts[host := map[]];
    }
  }

  /** Gives every upstream host an entry on both sides, and publishes the server side as it stands so far. */
  method AddHosts(lb: LB, ss: Received)
    requires lb.Valid() && ss.OwnedApartFrom(lb)
    modifies lb.serverHeaders, ss.clientHeaders, ss.serverHeaders
    ensures ss.clientHeaders.hosts == WithHosts(old(ss.clientHeaders.hosts), ss.upstreams.hosts.Keys)
    ensures ss.serverHeaders.hosts == WithHosts(old(ss.serverHeaders.hosts), ss.upstreams.hosts.Keys)
    ensures lb.serverHeaders.hosts.Keys <= old(lb.serverHeaders.hosts.Keys) + ss.upstreams.hosts.Keys
  {
    hide WithHosts;
    var hosts := ss.upstreams.hosts.Keys;
    var todo := hosts;
    ghost var done := {};
    ghost var client, server := ss.clientHeaders.hosts, ss.serverHeaders.hosts;
    WithNoHosts(client);
    WithNoHosts(server);
    while todo != {}
      invariant todo <= hosts && done == hosts - todo
      invariant ss.clientHeaders.hosts == WithHosts(client, done)
      invariant ss.serverHeaders.hosts == WithHosts(server, done)
      invariant lb.serverHeaders.hosts.Keys <= old(lb.serverHeaders.hosts.Keys) + hosts
    {
      var host :| host in todo;
      WithOneMoreHost(client, done, host);
      WithOneMoreHost(server, done, host);
      EnsureHost(ss.clientHeaders, host);
      EnsureHost(ss.serverHeaders, host);
      lb.serverHeaders.hosts := lb.serverHeaders.hosts[host := ss.serverHeaders.hosts[host]];
      done := done + {host};
      todo := todo - {host};
    }
    assert done == hosts;
  }

  /** Publishes every host's headers, the global ones merged in. */
  method PublishHeaders(source: Headers, target: Headers, global: string)
    requires source != target
    requires target.hosts.Keys <= source.hosts.Keys
    modifies target
    ensures target.hosts == Installed(source.hosts, global)
  {
    var todo := source.hosts.Keys;
    while todo != {}
      invariant todo <= source.hosts.Keys
      invariant target.hosts.Keys <= source.hosts.Keys
      invariant forall h | h in source.hosts && h !in todo :: h in target.hosts && target.hosts[h] == Installed(source.hosts, global)[h]
    {
      var host :| host in todo;
      target.hosts := target.hosts[host := source.hosts[host]];
      if global in source.hosts {
        MergeHeaders(target, host, source.hosts[global]);
      }
      todo := todo - {host};
    }
  }

  /** The whole arm, in the order of the source. */
  method Reload(lb: LB, ss: Received, ghost pending: Option<Table>)
    requires lb.Valid() && ss.OwnedApartFrom(lb)
    modifies lb, lb.umpFull, lb.umpUpst, lb.umpById, lb.clientHeaders, lb.serverHeaders, ss.clientHeaders, ss.serverHeaders
    ensures Step(NamesOf(lb.lib), old(View(lb, pending)), ControlPlane.Reload(ss.upstreams.hosts), View(lb, pending))
    ensures lb.extraparams == ss.extraparams
    ensures lb.clientHeaders.hosts == Installed(WithHosts(old(ss.clientHeaders.hosts), ss.upstreams.hosts.Keys), GLOBAL_CLIENT_HEADERS)
    ensures lb.serverHeaders.hosts == Installed(WithHosts(old(ss.serverHeaders.hosts), ss.upstreams.hosts.Keys), GLOBAL_SERVER_HEADERS)
  {
    hide Step, Installed, WithHosts;
    InstallTables(lb, ss.upstreams, pending);
    lb.extraparams := lb.extraparams.(
      toHttps := ss.extraparams.toHttps,
      stickySessions := ss.extraparams.stickySessions,
      authentication := ss.extraparams.authentication,
      rateLimit := ss.extraparams.rateLimit,
      x4xxLimit := ss.extraparams.x4xxLimit);
    lb.clientHeaders.hosts := map[];
    lb.serverHeaders.hosts := map[];
    AddHosts(lb, ss);
    assert ss.serverHeaders.hosts.Keys >= lb.serverHeaders.hosts.Keys by {
      KeysWithHosts(old(ss.serverHeaders.hosts), ss.upstreams.hosts.Keys);
    }
    PublishHeaders(ss.clientHeaders, lb.clientHeaders, GLOBAL_CLIENT_HEADERS);
    PublishHeaders(ss.serverHeaders, lb.serverHeaders, GLOBAL_SERVER_HEADERS);
  }

  lemma KeysWithHosts(own: map<string, HeaderPaths>, hosts: set<string>)
    ensures WithHosts(own, hosts).Keys == own.Keys + hosts
  {
  }

  // ----- what a reload leaves -----

  /** What a configuration itself gives a host at a path; nothing for a host it does not name. */
  function OwnAt(own: map<string, HeaderPaths>, h: string, p: string): HeaderList {
    if h in own then At(own[h], p) else []
  }

  /**
   The installed headers do not depend on any visiting order. Every configured host and every upstream host has, at
   every path, its own list with the global list of the path appended exactly once, and no other host has any.
   */
  lemma GlobalAppendedOnce(own: map<string, HeaderPaths>, hosts: set<string>, global: string, h: string, p: string)
    ensures var installed := Installed(WithHosts(own, hosts), global);
      && (h in installed <==> h in own || h in hosts)
      && (h in installed ==> At(installed[h], p) == OwnAt(own, h, p) + OwnAt(own, global, p))
      && (h in installed ==> (p in installed[h] <==> (h in own && p in own[h]) || (global in own && p in own[global])))
  {
    var all := WithHosts(own, hosts);
    assert OwnAt(own, h, p) + [] == OwnAt(own, h, p);
    assert global in all ==> all[global] == if global in own then own[global] else map[];
  }

  /** With a global list at `/`, every absolute path of every installed host has headers; its nearest ancestor decides. */
  lemma EveryPathHasHeaders(own: map<string, HeaderPaths>, hosts: set<string>, global: string, h: string, path: string)
    returns (c: string)
    requires OwnAt(own, global, "/") != []
    requires h in own || h in hosts
    requires |path| > 0 && path[0] == '/'
    ensures var installed := Installed(WithHosts(own, hosts), global);
      && IsNearest(installed[h], path, c)
      && SideHeaders(installed, h, path) == Some(OwnAt(own, h, c) + OwnAt(own, global, c))
  {
    var installed := Installed(WithHosts(own, hosts), global);
    GlobalAppendedOnce(own, hosts, global, h, "/");
    var hits := WithHeaders(installed[h]);
    assert "/" in hits;
    FirstIsLongest(hits - {""}, path);
    c := First(hits - {""}, Candidates(path)).value;
    assert IsLongest(hits - {""}, path, c);
    NearestIsLongest(installed[h], path, c);
    HeadersFromNearestAncestor(installed, h, path, c);
    GlobalAppendedOnce(own, hosts, global, h, c);
  }
}
