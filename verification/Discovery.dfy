/** Service discovery: turning fetched endpoints into tables, and publishing a table only when it changed. */
module Discovery {
  import opened Wrappers
  import opened Structs
  import opened Tools

  datatype GlobalServiceMapping = GlobalServiceMapping(
    upstream: string,
    hostname: string,
    path: Option<string>,
    toHttps: Option<bool>,
    rateLimit: Option<isize>,
    x4xxLimit: Option<u32>)

  datatype KubeSubset = KubeSubset(addresses: Option<seq<string>>, ports: Option<seq<u16>>)
  datatype KubeEndpoints = KubeEndpoints(subsets: Option<seq<KubeSubset>>)

  datatype ConsulTaggedAddress = ConsulTaggedAddress(address: string, port: u16)
  datatype ConsulService = ConsulService(taggedAddresses: map<string, ConsulTaggedAddress>)

  /** `DashMap<path, (servers, counter)>`, filled while one service is read. */
  class PathDashMap {
    var paths: PathMap

    constructor ()
      ensures paths == map[]
    {
      paths := map[];
    }
  }

  // ----- one service -----

  /** The path a service is published at. */
  function PathOf(conf: GlobalServiceMapping): string {
    conf.path.UnwrapOr("/")
  }

  function Endpoint(address: string, port: u16, conf: GlobalServiceMapping): InnerMap {
    InnerMap(address, port, false, false, conf.toHttps.UnwrapOr(false), conf.rateLimit, conf.x4xxLimit, None, None, None)
  }

  method MatchPath(conf: GlobalServiceMapping, upstreams: PathDashMap, values: seq<InnerMap>)
    modifies upstreams
    ensures upstreams.paths == old(upstreams.paths)[PathOf(conf) := ServerList(values, 0)]
  {
    match conf.path
    case Some(p) =>
      upstreams.paths := upstreams.paths[p := ServerList(values, 0)];
    case None =>
      upstreams.paths := upstreams.paths["/" := ServerList(values, 0)];
  }

  /** Every address with every port, address by address. */
  function Product(addresses: seq<string>, ports: seq<u16>, conf: GlobalServiceMapping): seq<InnerMap> {
    if addresses == [] then []
    else Product(addresses[..|addresses| - 1], ports, conf) + Row(addresses[|addresses| - 1], ports, conf)
  }

  function Row(address: string, ports: seq<u16>, conf: GlobalServiceMapping): (row: seq<InnerMap>)
    ensures |row| == |ports|
  {
    seq(|ports|, j requires 0 <= j < |ports| => Endpoint(address, ports[j], conf))
  }

  /** A discovered server: the endpoint found, the service's own redirect flag and limits, and nothing else set. */
  ghost predicate IsDiscovered(s: InnerMap, address: string, port: u16, conf: GlobalServiceMapping) {
    && s.address == address && s.port == port
    && !s.isSsl && !s.isHttp2
    && (s.toHttps <==> conf.toHttps == Some(true))
    && s.rateLimit == conf.rateLimit && s.x4xxLimit == conf.x4xxLimit
    && s.healthcheck == None && s.redirectTo == None && s.authorization == None
  }

  /** Entry `i * |ports| + j` of the product is address `i` with port `j`. */
  lemma {:induction false} ProductIsAddressMajor(addresses: seq<string>, ports: seq<u16>, conf: GlobalServiceMapping, i: nat, j: nat)
    requires i < |addresses| && j < |ports|
    ensures |Product(addresses, ports, conf)| == |addresses| * |ports|
    ensures i * |ports| + j < |addresses| * |ports|
    ensures IsDiscovered(Product(addresses, ports, conf)[i * |ports| + j], addresses[i], ports[j], conf)
  {
    var last := |addresses| - 1;
    var front := Product(addresses[..last], ports, conf);
    ProductLength(addresses[..last], ports, conf);
    ProductLength(addresses, ports, conf);
    assert |addresses| * |ports| == last * |ports| + |ports|;
    if i < last {
      ProductIsAddressMajor(addresses[..last], ports, conf, i, j);
    } else {
      assert (front + Row(addresses[last], ports, conf))[|front| + j] == Row(addresses[last], ports, conf)[j];
    }
  }

  lemma {:induction false} ProductLength(addresses: seq<string>, ports: seq<u16>, conf: GlobalServiceMapping)
    ensures |Product(addresses, ports, conf)| == |addresses| * |ports|
  {
    if addresses == [] {
    } else {
      var last := |addresses| - 1;
      ProductLength(addresses[..last], ports, conf);
      assert |addresses| * |ports| == last * |ports| + |ports|;
    }
  }

  predicate Usable(subset: KubeSubset) {
    subset.addresses.Some? && subset.ports.Some?
  }

  /** The last subset with both addresses and ports. */
  function LastUsable(subsets: seq<KubeSubset>): (k: Option<nat>)
    ensures k.None? <==> forall i | 0 <= i < |subsets| :: !Usable(subsets[i])
    ensures k.Some? ==> k.value < |subsets| && Usable(subsets[k.value])
    ensures k.Some? ==> forall i | k.value < i < |subsets| :: !Usable(subsets[i])
  {
    if subsets == [] then None
    else if Usable(subsets[|subsets| - 1]) then Some(|subsets| - 1)
    else LastUsable(subsets[..|subsets| - 1])
  }

  /** What one Kubernetes service contributes: the product of its last usable subset, not a union over subsets. */
  function KuberPaths(subsets: seq<KubeSubset>, conf: GlobalServiceMapping): PathMap {
    match LastUsable(subsets)
    case None => map[]
    case Some(k) =>
      map[PathOf(conf) := ServerList(Product(subsets[k].addresses.value, subsets[k].ports.value, conf), 0)]
  }

  method SubsetServers(addresses: seq<string>, ports: seq<u16>, conf: GlobalServiceMapping) returns (innerVec: seq<InnerMap>)
    ensures innerVec == Product(addresses, ports, conf)
  {
    innerVec := [];
    for i := 0 to |addresses|
      invariant innerVec == Product(addresses[..i], ports, conf)
    {
      ghost var row := Row(addresses[i], ports, conf);
      ghost var before := innerVec;
      for j := 0 to |ports|
        invariant innerVec == before + row[..j]
      {
        innerVec := innerVec + [Endpoint(addresses[i], ports[j], conf)];
        assert row[..j + 1] == row[..j] + [row[j]];
      }
      assert row[..|ports|] == row;
      assert addresses[..i + 1][..i] == addresses[..i];
    }
    assert addresses[..|addresses|] == addresses;
  }

  /** `resp` is the decoded answer of the API; a failed request, status or decoding yields nothing. */
  method ForKuber(resp: Option<KubeEndpoints>, conf: GlobalServiceMapping) returns (r: Option<PathMap>)
    ensures r == if resp.None? then None else Some(KuberPaths(resp.value.subsets.UnwrapOr([]), conf))
  {
    if resp.None? {
      return None;
    }
    var upstreams := new PathDashMap();
    if resp.value.subsets.Some? {
      var subsets := resp.value.subsets.value;
      for i := 0 to |subsets|
        invariant upstreams.paths == KuberPaths(subsets[..i], conf)
      {
        var subset := subsets[i];
        assert subsets[..i + 1][..i] == subsets[..i];
        if subset.addresses.Some? && subset.ports.Some? {
          var innerVec := SubsetServers(subset.addresses.value, subset.ports.value, conf);
          MatchPath(conf, upstreams, innerVec);
        }
      }
      assert subsets[..|subsets|] == subsets;
    }
    return Some(upstreams.paths);
  }

  const LAN_IPV4 := "lan_ipv4"

  /** The answer of a fetch. A Consul service without a LAN address makes the discovery task panic. */
  datatype Fetched = Nothing | Panicked | Got(paths: PathMap)

  function ConsulServers(endpoints: seq<ConsulService>, conf: GlobalServiceMapping): (servers: seq<InnerMap>)
    requires forall e | e in endpoints :: LAN_IPV4 in e.taggedAddresses
    ensures |servers| == |endpoints|
  {
    seq(|endpoints|, i requires 0 <= i < |endpoints| =>
      var lan := endpoints[i].taggedAddresses[LAN_IPV4];
      Endpoint(lan.address, lan.port, conf))
  }

  /** What one Consul service contributes. */
  function ConsulPaths(endpoints: seq<ConsulService>, conf: GlobalServiceMapping): PathMap
    requires forall e | e in endpoints :: LAN_IPV4 in e.taggedAddresses
  {
    map[PathOf(conf) := ServerList(ConsulServers(endpoints, conf), 0)]
  }

  /** Server `i` is service `i` at its LAN address. */
  lemma {:induction false} ConsulServersMean(endpoints: seq<ConsulService>, conf: GlobalServiceMapping, i: nat)
    requires forall e | e in endpoints :: "lan_ipv4" in e.taggedAddresses
    requires i < |endpoints|
    ensures |ConsulServers(endpoints, conf)| == |endpoints|
    ensures var lan := endpoints[i].taggedAddresses["lan_ipv4"];
      IsDiscovered(ConsulServers(endpoints, conf)[i], lan.address, lan.port, conf)
  {
  }

  method ForConsul(resp: Option<seq<ConsulService>>, conf: GlobalServiceMapping) returns (r: Fetched)
    ensures r.Nothing? <==> resp.None?
    ensures r.Panicked? <==> resp.Some? && exists e | e in resp.value :: LAN_IPV4 !in e.taggedAddresses
    ensures r.Got? ==> r.paths == ConsulPaths(resp.value, conf)
  {
    if resp.None? {
      return Nothing;
    }
    var endpoints := resp.value;
    var innerVec := [];
    for i := 0 to |endpoints|
      invariant forall e | e in endpoints[..i] :: LAN_IPV4 in e.taggedAddresses
      invariant innerVec == ConsulServers(endpoints[..i], conf)
    {
      if LAN_IPV4 !in endpoints[i].taggedAddresses {
        return Panicked;
      }
      var lan := endpoints[i].taggedAddresses[LAN_IPV4];
      innerVec := innerVec + [Endpoint(lan.address, lan.port, conf)];
      assert endpoints[..i + 1] == endpoints[..i] + [endpoints[i]];
    }
    assert endpoints[..|endpoints|] == endpoints;
    var upstreams := new PathDashMap();
    MatchPath(conf, upstreams, innerVec);
    return Got(upstreams.paths);
  }

  // ----- folding services into a table -----

  function Folded(t: Table, list: Option<PathMap>, hostname: string): Table {
    if list.None? then t
    else if hostname in t then t[hostname := t[hostname] + list.value]
    else t[hostname := list.value]
  }

  /** Adds one service's paths; a path the host already has is replaced, its other paths stay. */
  method ListToUpstreams(lt: Option<PathMap>, upstreams: UpstreamsDashMap, i: GlobalServiceMapping)
    modifies upstreams
    ensures upstreams.hosts == Folded(old(upstreams.hosts), lt, i.hostname)
  {
    if lt.Some? {
      var list := lt.value;
      if i.hostname in upstreams.hosts {
        ghost var before := upstreams.hosts;
        var todo := list.Keys;
        ghost var done: PathMap := map[];
        assert before[i.hostname] + done == before[i.hostname];
        while todo != {}
          invariant todo <= list.Keys
          invariant done == map k | k in list && k !in todo :: list[k]
          invariant upstreams.hosts == before[i.hostname := before[i.hostname] + done]
        {
          var k :| k in todo;
          var paths := upstreams.hosts[i.hostname];
          upstreams.hosts := upstreams.hosts[i.hostname := paths[k := list[k]]];
          assert paths[k := list[k]] == before[i.hostname] + done[k := list[k]];
          done := done[k := list[k]];
          todo := todo - {k};
        }
        assert done == list;
      } else {
        upstreams.hosts := upstreams.hosts[i.hostname := list];
      }
    }
  }

  /** The table after the first services and what was fetched for each. */
  function FoldAll(services: seq<GlobalServiceMapping>, fetched: seq<Option<PathMap>>): Table
    requires |services| == |fetched|
  {
    if services == [] then map[]
    else
      var n := |services| - 1;
      Folded(FoldAll(services[..n], fetched[..n]), fetched[n], services[n].hostname)
  }

  method BuildTable(services: seq<GlobalServiceMapping>, fetched: seq<Option<PathMap>>) returns (upstreams: UpstreamsDashMap)
    requires |services| == |fetched|
    ensures fresh(upstreams) && upstreams.hosts == FoldAll(services, fetched)
  {
    upstreams := new UpstreamsDashMap();
    for i := 0 to |services|
      invariant fresh(upstreams)
      invariant upstreams.hosts == FoldAll(services[..i], fetched[..i])
    {
      ListToUpstreams(fetched[i], upstreams, services[i]);
      assert services[..i + 1][..i] == services[..i] && fetched[..i + 1][..i] == fetched[..i];
    }
    assert services[..|services|] == services && fetched[..|services|] == fetched;
  }

  /** Service `i` produced path `p` for host `h`. */
  predicate Produces(services: seq<GlobalServiceMapping>, fetched: seq<Option<PathMap>>, i: nat, h: string, p: string)
    requires |services| == |fetched| && i < |services|
  {
    services[i].hostname == h && fetched[i].Some? && p in fetched[i].value
  }

  /** The last service that produced (h, p). */
  function LastProducer(services: seq<GlobalServiceMapping>, fetched: seq<Option<PathMap>>, h: string, p: string): (k: Option<nat>)
    requires |services| == |fetched|
    ensures k.None? <==> forall i | 0 <= i < |services| :: !Produces(services, fetched, i, h, p)
    ensures k.Some? ==> k.value < |services| && Produces(services, fetched, k.value, h, p)
    ensures k.Some? ==> forall i | k.value < i < |services| :: !Produces(services, fetched, i, h, p)
  {
    if services == [] then None
    else
      var n := |services| - 1;
      assert forall i | 0 <= i < n :: Produces(services[..n], fetched[..n], i, h, p) == Produces(services, fetched, i, h, p);
      if Produces(services, fetched, n, h, p) then Some(n)
      else LastProducer(services[..n], fetched[..n], h, p)
  }

  /** A host is there exactly when some service of that name could be fetched. */
  lemma {:induction false} FoldHosts(services: seq<GlobalServiceMapping>, fetched: seq<Option<PathMap>>, h: string)
    requires |services| == |fetched|
    ensures h in FoldAll(services, fetched) <==>
      exists i :: 0 <= i < |services| && services[i].hostname == h && fetched[i].Some?
  {
    if services == [] {
    } else {
      var n := |services| - 1;
      FoldHosts(services[..n], fetched[..n], h);
      if i :| 0 <= i < |services| && services[i].hostname == h && fetched[i].Some? {
        assert i < n ==> services[..n][i].hostname == h && fetched[..n][i].Some?;
      }
    }
  }

  /** Last writer wins: (h, p) is there exactly when some service produced it, and holds the last producer's list. */
  lemma {:induction false} FoldIsLastWriter(services: seq<GlobalServiceMapping>, fetched: seq<Option<PathMap>>, h: string, p: string)
    requires |services| == |fetched|
    ensures var (t, last) := (FoldAll(services, fetched), LastProducer(services, fetched, h, p));
      && (h in t && p in t[h] <==> last.Some?)
      && (last.Some? ==> t[h][p] == fetched[last.value].value[p])
  {
    if services == [] {
    } else {
      var n := |services| - 1;
      FoldIsLastWriter(services[..n], fetched[..n], h, p);
    }
  }

  /** Host and path a service is published at, `/` when it names none. */
  ghost predicate PublishedAt(conf: GlobalServiceMapping, h: string, p: string) {
    conf.hostname == h && (if conf.path.Some? then conf.path.value == p else p == "/")
  }

  /** `k` is the last subset with both an address array and a port array, empty or not. */
  ghost predicate IsLastUsable(subsets: seq<KubeSubset>, k: nat) {
    && k < |subsets| && subsets[k].addresses.Some? && subsets[k].ports.Some?
    && forall l | k < l < |subsets| :: subsets[l].addresses.None? || subsets[l].ports.None?
  }

  /** What the polls of all Kubernetes services fetched: no paths for a failed one. */
  function KuberFetched(services: seq<GlobalServiceMapping>, answers: seq<Option<seq<KubeSubset>>>): (fetched: seq<Option<PathMap>>)
    requires |services| == |answers|
  {
    seq(|answers|, j requires 0 <= j < |answers| =>
      if answers[j].None? then None else Some(KuberPaths(answers[j].value, services[j])))
  }

  /**
   For Kubernetes: the list at (h, p) is the whole product, with its counter at zero, of the last usable subset of the
   last service for (h, p) that had one. Empty arrays count as usable, and then the list is empty.
   */
  lemma {:induction false} KuberTableHoldsLastProduct(services: seq<GlobalServiceMapping>, answers: seq<Option<seq<KubeSubset>>>,
                                   i: nat, k: nat, h: string, p: string)
    requires |services| == |answers| && i < |services| && PublishedAt(services[i], h, p)
    requires answers[i].Some? && IsLastUsable(answers[i].value, k)
    requires forall j, l | i < j < |services| && PublishedAt(services[j], h, p) && answers[j].Some? && 0 <= l < |answers[j].value| ::
      answers[j].value[l].addresses.None? || answers[j].value[l].ports.None?
    ensures var (subset, t: Table) := (answers[i].value[k], FoldAll(services, KuberFetched(services, answers)));
      h in t && p in t[h] && t[h][p] == ServerList(Product(subset.addresses.value, subset.ports.value, services[i]), 0)
  {
    var fetched := KuberFetched(services, answers);
    assert LastUsable(answers[i].value) == Some(k);
    assert Produces(services, fetched, i, h, p);
    forall j | i < j < |services| ensures !Produces(services, fetched, j, h, p) {
      if PublishedAt(services[j], h, p) && answers[j].Some? {
        assert LastUsable(answers[j].value) == None;
      }
    }
    assert LastProducer(services, fetched, h, p) == Some(i);
    FoldIsLastWriter(services, fetched, h, p);
  }

  /** What the polls of all Consul services fetched, when every service has a LAN address. */
  function ConsulFetched(services: seq<GlobalServiceMapping>, answers: seq<Option<seq<ConsulService>>>): (fetched: seq<Option<PathMap>>)
    requires |services| == |answers|
    requires forall j, e | 0 <= j < |answers| && answers[j].Some? && e in answers[j].value :: LAN_IPV4 in e.taggedAddresses
  {
    seq(|answers|, j requires 0 <= j < |answers| =>
      if answers[j].None? then None else Some(ConsulPaths(answers[j].value, services[j])))
  }

  /** For Consul: the list at (h, p) has one server for each service of the last answer for (h, p), in its order. */
  lemma {:induction false} ConsulTableHoldsLastAnswer(services: seq<GlobalServiceMapping>, answers: seq<Option<seq<ConsulService>>>,
                                   i: nat, h: string, p: string)
    requires |services| == |answers| && i < |services| && PublishedAt(services[i], h, p) && answers[i].Some?
    requires forall j, e | 0 <= j < |answers| && answers[j].Some? && e in answers[j].value :: "lan_ipv4" in e.taggedAddresses
    requires forall j | i < j < |services| && PublishedAt(services[j], h, p) :: answers[j].None?
    ensures var (t: Table, found) := (FoldAll(services, ConsulFetched(services, answers)), answers[i].value);
      && h in t && p in t[h] && |t[h][p].servers| == |found| && t[h][p].index == 0
      && forall n | 0 <= n < |found| ::
           var lan := found[n].taggedAddresses["lan_ipv4"];
           IsDiscovered(t[h][p].servers[n], lan.address, lan.port, services[i])
  {
    var fetched := ConsulFetched(services, answers);
    assert Produces(services, fetched, i, h, p);
    assert LastProducer(services, fetched, h, p) == Some(i);
    FoldIsLastWriter(services, fetched, h, p);
    assert fetched[i].value[p] == ServerList(ConsulServers(answers[i].value, services[i]), 0);
    forall n | 0 <= n < |answers[i].value| ensures
      var lan := answers[i].value[n].taggedAddresses["lan_ipv4"];
      IsDiscovered(ConsulServers(answers[i].value, services[i])[n], lan.address, lan.port, services[i])
    {
      ConsulServersMean(answers[i].value, services[i], n);
    }
  }

  // ----- publishing -----

  /** The published table, or nothing when the fetched one is equivalent to the remembered one. */
  method CloneCompare(upstreams: UpstreamsDashMap, prevUpstreams: UpstreamsDashMap) returns (tosend: Option<Table>)
    requires upstreams != prevUpstreams
    modifies prevUpstreams
    ensures tosend == if Equiv(upstreams.hosts, old(prevUpstreams.hosts)) then None else Some(Fresh(upstreams.hosts))
    ensures prevUpstreams.hosts == tosend.UnwrapOr(old(prevUpstreams.hosts))
  {
    var same := CompareDashmaps(upstreams, prevUpstreams);
    if !same {
      ghost var toPrev := CloneDashmapInto(upstreams, prevUpstreams);
      var copy := new UpstreamsDashMap();
      ghost var toCopy := CloneDashmapInto(upstreams, copy);
      return Some(copy.hosts);
    }
    return None;
  }

  /** What is remembered, and what has been published, after polls that fetched these tables. */
  ghost function Remembered(fetched: seq<Table>): Table {
    if fetched == [] then map[]
    else
      var (before, latest) := (Remembered(fetched[..|fetched| - 1]), fetched[|fetched| - 1]);
      if Equiv(latest, before) then before else Fresh(latest)
  }

  ghost function Published(fetched: seq<Table>): seq<Table> {
    if fetched == [] then []
    else
      var (front, latest) := (fetched[..|fetched| - 1], fetched[|fetched| - 1]);
      Published(front) + if Equiv(latest, Remembered(front)) then [] else [Fresh(latest)]
  }

  /** The polling loop over the answers of finitely many rounds. */
  method FetchUpstreams(services: seq<GlobalServiceMapping>, rounds: seq<seq<Option<PathMap>>>) returns (sent: seq<Table>)
    requires forall r | r in rounds :: |r| == |services|
    ensures sent == Published(seq(|rounds|, i requires 0 <= i < |rounds| => FoldAll(services, rounds[i])))
  {
    hide Equiv, Fresh, FoldAll;
    var prevUpstreams := new UpstreamsDashMap();
    sent := [];
    ghost var tables: seq<Table> := seq(|rounds|, i requires 0 <= i < |rounds| => FoldAll(services, rounds[i]));
    for i := 0 to |rounds|
      invariant fresh(prevUpstreams)
      invariant prevUpstreams.hosts == Remembered(tables[..i])
      invariant sent == Published(tables[..i])
    {
      var upstreams := BuildTable(services, rounds[i]);
      var lt := CloneCompare(upstreams, prevUpstreams);
      if lt.Some? {
        sent := sent + [lt.value];
      }
      assert tables[..i + 1][..i] == tables[..i];
    }
    assert tables[..|rounds|] == tables;
  }

  ghost predicate IsCloneOfOne(sent: Table, fetched: seq<Table>) {
    exists j :: 0 <= j < |fetched| && sent == Fresh(fetched[j])
  }

  /**
   Discovery publishes exactly the changes: what is remembered is the last published table, it is equivalent to what
   was fetched last, and no two consecutive published tables are equivalent, nor is the first one to the empty table.
   Every published table is a clone of one that was fetched.
   */
  lemma {:induction false} PublishesExactlyChanges(fetched: seq<Table>)
    ensures var (kept, out) := (Remembered(fetched), Published(fetched));
      && kept == (if out == [] then map[] else out[|out| - 1])
      && (fetched != [] ==> Equiv(kept, fetched[|fetched| - 1]))
      && (forall i | 0 <= i < |out| - 1 :: !Equiv(out[i], out[i + 1]))
      && (out != [] ==> !Equiv(out[0], map[]))
      && (forall i | 0 <= i < |out| :: IsCloneOfOne(out[i], fetched))
  {
    hide Equiv, Fresh;
    if fetched == [] {
    } else {
      var front, latest := fetched[..|fetched| - 1], fetched[|fetched| - 1];
      var before := Remembered(front);
      PublishesExactlyChanges(front);
      FreshIsEquiv(latest);
      ClonesStay(Published(front), front, latest);
      assert front + [latest] == fetched;
      EquivIsEquivalence(latest, before, latest);
      EquivIsEquivalence(latest, Fresh(latest), before);
      EquivIsEquivalence(before, Fresh(latest), latest);
    }
  }

  lemma ClonesStay(out: seq<Table>, front: seq<Table>, latest: Table)
    requires forall i | 0 <= i < |out| :: IsCloneOfOne(out[i], front)
    ensures forall i | 0 <= i < |out| :: IsCloneOfOne(out[i], front + [latest])
    ensures IsCloneOfOne(Fresh(latest), front + [latest])
  {
    hide Fresh;
    forall i | 0 <= i < |out| ensures IsCloneOfOne(out[i], front + [latest]) {
      var j :| 0 <= j < |front| && out[i] == Fresh(front[j]);
      assert (front + [latest])[j] == front[j];
    }
    assert (front + [latest])[|front|] == latest;
  }
}
