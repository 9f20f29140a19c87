/**
 The algebra of upstream tables: cloning, comparing, indexing by id, and the liveness report.
 A `DashMap` is visited in no particular order, so every loop takes any key not yet visited.
 */
module Tools {
  import opened Structs
  import opened Identity

  // ----- cloning -----

  /** The same server lists, every counter back at zero. */
  function FreshPaths(m: PathMap): PathMap {
    map p | p in m :: ServerList(m[p].servers, 0)
  }

  function Fresh(t: Table): Table {
    map h | h in t :: FreshPaths(t[h])
  }

  /** A clone has the same hosts, paths and lists in their order; every counter starts over. */
  lemma FreshMeans(t: Table)
    ensures Fresh(t).Keys == t.Keys
    ensures forall h | h in t :: Fresh(t)[h].Keys == t[h].Keys
    ensures forall h, p | h in t && p in t[h] :: Fresh(t)[h][p].servers == t[h][p].servers && Fresh(t)[h][p].index == 0
  {
  }

  method ClonePaths(inner: PathMap) returns (newInner: PathMap)
    ensures newInner == FreshPaths(inner)
  {
    newInner := map[];
    var todo := inner.Keys;
    while todo != {}
      invariant todo <= inner.Keys
      invariant newInner == map p | p in inner && p !in todo :: ServerList(inner[p].servers, 0)
    {
      var path :| path in todo;
      newInner := newInner[path := ServerList(inner[path].servers, 0)];
      todo := todo - {path};
    }
  }

  method CloneDashmap(original: UpstreamsDashMap) returns (newMap: UpstreamsDashMap)
    ensures fresh(newMap) && newMap.hosts == Fresh(original.hosts)
  {
    newMap := new UpstreamsDashMap();
    var source := original.hosts;
    var todo := source.Keys;
    while todo != {}
      invariant todo <= source.Keys
      invariant newMap.hosts == map h | h in source && h !in todo :: FreshPaths(source[h])
    {
      var hostname :| hostname in todo;
      var inner := ClonePaths(source[hostname]);
      newMap.hosts := newMap.hosts[hostname := inner];
      todo := todo - {hostname};
    }
  }

  /** What readers of the target can see while it is rebuilt: the empty map, then one more host at a time. */
  ghost predicate IsInstallTrace(trace: seq<Table>, target: Table) {
    InstallingUpTo(trace, target, target)
  }

  ghost predicate InstallingUpTo(trace: seq<Table>, current: Table, target: Table) {
    && |trace| > 0
    && trace[0] == map[]
    && trace[|trace| - 1] == current
    && forall i | 0 <= i < |trace| - 1 :: InstallsOneHost(trace[i], trace[i + 1], target)
  }

  ghost predicate InstallsOneHost(before: Table, after: Table, target: Table) {
    exists h :: h in target && h !in before && after == before[h := target[h]]
  }

  lemma TraceGrows(trace: seq<Table>, current: Table, target: Table, h: string)
    requires InstallingUpTo(trace, current, target) && h in target && h !in current
    ensures InstallingUpTo(trace + [current[h := target[h]]], current[h := target[h]], target)
  {
    assert InstallsOneHost(current, current[h := target[h]], target);
  }

  /** Clears the target, then refills it host by host; `trace` records every state the target passes through. */
  method CloneDashmapInto(original: UpstreamsDashMap, cloned: UpstreamsDashMap) returns (ghost trace: seq<Table>)
    requires original != cloned
    modifies cloned
    ensures cloned.hosts == Fresh(original.hosts)
    ensures IsInstallTrace(trace, cloned.hosts)
  {
    cloned.hosts := map[];
    trace := [cloned.hosts];
    ghost var target := Fresh(original.hosts);
    hide InstallingUpTo, FreshPaths;
    assert InstallingUpTo(trace, cloned.hosts, target) by {
      TraceStarts(target);
    }
    var todo := original.hosts.Keys;
    while todo != {}
      invariant todo <= original.hosts.Keys
      invariant cloned.hosts == map h | h in target && h !in todo :: target[h]
      invariant InstallingUpTo(trace, cloned.hosts, target)
    {
      var hostname :| hostname in todo;
      var newInner := ClonePaths(original.hosts[hostname]);
      TraceGrows(trace, cloned.hosts, target, hostname);
      cloned.hosts := cloned.hosts[hostname := newInner];
      trace := trace + [cloned.hosts];
      todo := todo - {hostname};
    }
    assert cloned.hosts == target;
  }

  lemma TraceStarts(target: Table)
    ensures InstallingUpTo([map[]], map[], target)
  {
  }

  // ----- comparing -----

  function ToSet<T>(v: seq<T>): set<T> {
    set x | x in v
  }

  /** Lists of equal length with equal element sets; order and multiplicities may differ. */
  predicate EquivLists(v: seq<InnerMap>, w: seq<InnerMap>) {
    |v| == |w| && ToSet(v) == ToSet(w)
  }

  ghost predicate EquivPaths(m: PathMap, n: PathMap) {
    m.Keys == n.Keys && forall p | p in m :: EquivLists(m[p].servers, n[p].servers)
  }

  /** Same hosts, same paths for each host, equivalent lists for each path. */
  ghost predicate Equiv(a: Table, b: Table) {
    a.Keys == b.Keys && forall h | h in a :: EquivPaths(a[h], b[h])
  }

  /** Counters never matter, nor does the order within a list; its length and its set of servers do. */
  lemma EquivMeans(a: Table, b: Table)
    ensures Equiv(a, b) <==>
      && a.Keys == b.Keys
      && (forall h | h in a :: a[h].Keys == b[h].Keys)
      && (forall h, p | h in a && p in a[h] ::
            && |a[h][p].servers| == |b[h][p].servers|
            && forall s :: s in a[h][p].servers <==> s in b[h][p].servers)
  {
    forall v: seq<InnerMap>, w: seq<InnerMap> ensures EquivLists(v, w) <==> |v| == |w| && forall s :: s in v <==> s in w {
      SameSets(v, w);
    }
    if Equiv(a, b) {
      forall h, p | h in a && p in a[h] ensures EquivLists(a[h][p].servers, b[h][p].servers) {
        assert EquivPaths(a[h], b[h]);
      }
    }
  }

  lemma SameSets<T>(v: seq<T>, w: seq<T>)
    ensures ToSet(v) == ToSet(w) <==> forall x :: x in v <==> x in w
  {
    forall x ensures x in ToSet(v) <==> x in v {
    }
    forall x ensures x in ToSet(w) <==> x in w {
    }
  }

  predicate NoDuplicates<T(==)>(v: seq<T>) {
    forall i, j | 0 <= i < j < |v| :: v[i] != v[j]
  }

  lemma {:induction false} SizeOfList<T>(v: seq<T>)
    ensures |ToSet(v)| <= |v|
    ensures |ToSet(v)| == |v| <==> NoDuplicates(v)
  {
    if v == [] {
    } else {
      var last := |v| - 1;
      SizeOfList(v[..last]);
      assert v == v[..last] + [v[last]];
      assert ToSet(v) == ToSet(v[..last]) + {v[last]};
      if v[last] in v[..last] {
        var i :| 0 <= i < last && v[i] == v[last];
        assert ToSet(v) == ToSet(v[..last]);
      }
    }
  }

  lemma {:induction false} CountedOnce<T>(v: seq<T>)
    requires NoDuplicates(v)
    ensures multiset(v) == multiset(ToSet(v))
  {
    if v == [] {
    } else {
      var last := |v| - 1;
      CountedOnce(v[..last]);
      assert v == v[..last] + [v[last]];
      assert ToSet(v) == ToSet(v[..last]) + {v[last]};
    }
  }

  /** Where one list names no server twice, equivalent lists are exactly its permutations. */
  lemma EquivListsArePermutations(v: seq<InnerMap>, w: seq<InnerMap>)
    requires NoDuplicates(v)
    ensures EquivLists(v, w) <==> multiset(v) == multiset(w)
  {
    SizeOfList(v);
    SizeOfList(w);
    CountedOnce(v);
    if EquivLists(v, w) {
      CountedOnce(w);
    }
    if multiset(v) == multiset(w) {
      assert |v| == |multiset(v)| == |multiset(w)| == |w|;
      forall s ensures s in v <==> s in w {
        assert s in v <==> s in multiset(v);
        assert s in w <==> s in multiset(w);
      }
    }
  }

  /** A server named twice to give it more weight can lose it to another one unnoticed. */
  lemma WeightsAreNotCompared(s: InnerMap, t: InnerMap)
    requires s != t
    ensures EquivLists([s, s, t], [s, t, t]) && multiset([s, s, t]) != multiset([s, t, t])
  {
    assert ToSet([s, s, t]) == {s, t} == ToSet([s, t, t]);
    assert multiset([s, s, t])[s] == 2 && multiset([s, t, t])[s] == 1;
  }

  lemma {:induction false} SubsetOfSameSize<T>(a: set<T>, b: set<T>)
    requires a <= b && |a| == |b|
    ensures a == b
  {
    if x :| x in b && x !in a {
      SubsetSize(a, b - {x});
    }
  }

  lemma {:induction false} SubsetSize<T>(a: set<T>, b: set<T>)
    requires a <= b
    ensures |a| <= |b|
    decreases a
  {
    if a == {} {
    } else {
      var x :| x in a;
      SubsetSize(a - {x}, b - {x});
    }
  }

  /** The inner half of the comparison: every path of the first map has its match in the second. */
  method ComparePaths(inner1: PathMap, inner2: PathMap) returns (equal: bool)
    ensures equal <==> EquivPaths(inner1, inner2)
  {
    assert |inner1.Keys| == |inner1| && |inner2.Keys| == |inner2|;
    if |inner1| != |inner2| {
      return false;
    }
    var todo := inner1.Keys;
    while todo != {}
      invariant todo <= inner1.Keys
      invariant forall p | p in inner1 && p !in todo :: p in inner2 && EquivLists(inner1[p].servers, inner2[p].servers)
    {
      var path :| path in todo;
      if path !in inner2 {
        return false;
      }
      var vec1, vec2 := inner1[path].servers, inner2[path].servers;
      if |vec1| != |vec2| {
        return false;
      }
      if ToSet(vec1) != ToSet(vec2) {
        return false;
      }
      todo := todo - {path};
    }
    SubsetOfSameSize(inner1.Keys, inner2.Keys);
    return true;
  }

  /** Looks only from the first map into the second; equal sizes make the answer two-sided. */
  method CompareDashmaps(map1: UpstreamsDashMap, map2: UpstreamsDashMap) returns (equal: bool)
    ensures equal <==> Equiv(map1.hosts, map2.hosts)
  {
    assert |map1.hosts.Keys| == |map1.hosts| && |map2.hosts.Keys| == |map2.hosts|;
    if |map1.hosts| != |map2.hosts| {
      return false;
    }
    var todo := map1.hosts.Keys;
    while todo != {}
      invariant todo <= map1.hosts.Keys
      invariant forall h | h in map1.hosts && h !in todo :: h in map2.hosts && EquivPaths(map1.hosts[h], map2.hosts[h])
    {
      var host :| host in todo;
      if host !in map2.hosts {
        return false;
      }
      var same := ComparePaths(map1.hosts[host], map2.hosts[host]);
      if !same {
        return false;
      }
      todo := todo - {host};
    }
    SubsetOfSameSize(map1.hosts.Keys, map2.hosts.Keys);
    return true;
  }

  lemma EquivIsEquivalence(a: Table, b: Table, c: Table)
    ensures Equiv(a, a)
    ensures Equiv(a, b) <==> Equiv(b, a)
    ensures Equiv(a, b) && Equiv(b, c) ==> Equiv(a, c)
  {
  }

  lemma FreshIsEquiv(t: Table)
    ensures Equiv(t, Fresh(t)) && Equiv(Fresh(t), t)
  {
  }

  // ----- merging headers -----

  /** The lists of both maps; where both have one, the source's list follows the target's. */
  function Merged(target: HeaderPaths, source: HeaderPaths): HeaderPaths {
    map p | p in target.Keys + source.Keys ::
      (if p in target then target[p] else []) + (if p in source then source[p] else [])
  }

  lemma MergedNothing(target: HeaderPaths)
    ensures Merged(target, map[]) == target
  {
    assert forall p | p in target :: target[p] + [] == target[p];
  }

  lemma MergedStep(target: HeaderPaths, done: HeaderPaths, p: string, list: HeaderList)
    requires p !in done
    ensures var before := Merged(target, done);
      Merged(target, done[p := list]) == before[p := (if p in before then before[p] else []) + list]
  {
    assert p in target ==> target[p] + [] == target[p];
  }

  /** Appends every list of `source` to the list of the same path under `host`. */
  method MergeHeaders(headers: Headers, host: string, source: HeaderPaths)
    requires host in headers.hosts
    modifies headers
    ensures headers.hosts == old(headers.hosts)[host := Merged(old(headers.hosts[host]), source)]
  {
    hide Merged;
    var todo := source.Keys;
    ghost var before, target := headers.hosts, headers.hosts[host];
    ghost var done: HeaderPaths := map[];
    MergedNothing(target);
    while todo != {}
      invariant todo <= source.Keys
      invariant done == map p | p in source && p !in todo :: source[p]
      invariant headers.hosts == before[host := Merged(target, done)]
    {
      var path :| path in todo;
      var paths := headers.hosts[host];
      var entry := if path in paths then paths[path] else [];
      MergedStep(target, done, path, source[path]);
      headers.hosts := headers.hosts[host := paths[path := entry + source[path]]];
      done := done[path := source[path]];
      todo := todo - {path};
    }
    assert done == source;
  }

  // ----- the id index -----

  /** How a server of a host is named in the index. */
  type KeyFn = (string, InnerMap) -> string

  function KeyOf(names: Names): KeyFn {
    (h, s) => names.Key(h, s)
  }

  /** A list together with the host it stands under; all those of a host, and of a table. */
  type HostList = (string, seq<InnerMap>)

  ghost function PathLists(h: string, m: PathMap): set<HostList> {
    set p | p in m :: (h, m[p].servers)
  }

  ghost function Lists(t: Table): set<HostList> {
    set h, p | h in t && p in t[h] :: (h, t[h][p].servers)
  }

  /** `s` is the last server of the list whose key is `k`. */
  ghost predicate IsLastWith(key: KeyFn, h: string, v: seq<InnerMap>, k: string, s: InnerMap) {
    exists i :: 0 <= i < |v| && v[i] == s && key(h, s) == k && forall j | i < j < |v| :: key(h, v[j]) != k
  }

  /** Every server of the lists has its key, and every key leads to the last server with that key of one of the lists. */
  ghost predicate Indexes(key: KeyFn, lists: set<HostList>, ids: map<string, InnerMap>) {
    && (forall list, s | list in lists && s in list.1 :: key(list.0, s) in ids)
    && (forall k | k in ids :: HasSource(key, lists, k, ids[k]))
  }

  ghost predicate HasSource(key: KeyFn, lists: set<HostList>, k: string, s: InnerMap) {
    exists list :: list in lists && IsLastWith(key, list.0, list.1, k, s)
  }

  /** `ids` is exactly the index of table `t`. */
  ghost predicate IsIndex(key: KeyFn, t: Table, ids: map<string, InnerMap>) {
    && (forall h, s | Listed(t, h, s) :: key(h, s) in ids)
    && (forall k | k in ids :: IndexedServer(key, t, k, ids[k]))
  }

  ghost predicate IndexedServer(key: KeyFn, t: Table, k: string, s: InnerMap) {
    exists h, p :: h in t && p in t[h] && IsLastWith(key, h, t[h][p].servers, k, s)
  }

  lemma IndexedIsListed(key: KeyFn, t: Table, k: string, s: InnerMap)
    requires IndexedServer(key, t, k, s)
    ensures exists h :: Listed(t, h, s) && key(h, s) == k
  {
    var h, p :| h in t && p in t[h] && IsLastWith(key, h, t[h][p].servers, k, s);
    assert s in t[h][p].servers;
    assert Listed(t, h, s);
  }

  lemma IndexOfListsIsIndex(key: KeyFn, t: Table, ids: map<string, InnerMap>)
    requires Indexes(key, Lists(t), ids)
    ensures IsIndex(key, t, ids)
  {
    hide IsLastWith;
    forall h, s | Listed(t, h, s) ensures key(h, s) in ids {
      var p :| h in t && p in t[h] && s in t[h][p].servers;
      var list := (h, t[h][p].servers);
      assert list in Lists(t) && s in list.1;
    }
    forall k | k in ids ensures IndexedServer(key, t, k, ids[k]) {
      assert HasSource(key, Lists(t), k, ids[k]);
      var list :| list in Lists(t) && IsLastWith(key, list.0, list.1, k, ids[k]);
      var p :| list.0 in t && p in t[list.0] && t[list.0][p].servers == list.1;
    }
  }

  lemma LastStays(key: KeyFn, h: string, v: seq<InnerMap>, x: InnerMap, k: string, s: InnerMap)
    requires IsLastWith(key, h, v, k, s) && key(h, x) != k
    ensures IsLastWith(key, h, v + [x], k, s)
  {
    var i :| 0 <= i < |v| && v[i] == s && key(h, s) == k && forall j | i < j < |v| :: key(h, v[j]) != k;
    assert (v + [x])[i] == s;
  }

  lemma NewIsLast(key: KeyFn, h: string, v: seq<InnerMap>, x: InnerMap)
    ensures IsLastWith(key, h, v + [x], key(h, x), x)
  {
    assert (v + [x])[|v|] == x;
  }

  /** One more entry, written over whatever shared its key, indexes a list with one more server. */
  lemma IndexGrows(key: KeyFn, lists: set<HostList>, ids: map<string, InnerMap>, h: string, v: seq<InnerMap>, x: InnerMap)
    requires Indexes(key, lists + {(h, v)}, ids)
    ensures Indexes(key, lists + {(h, v + [x])}, ids[key(h, x) := x])
  {
    hide IsLastWith;
    var before, after, ids' := lists + {(h, v)}, lists + {(h, v + [x])}, ids[key(h, x) := x];
    forall list, s | list in after && s in list.1 ensures key(list.0, s) in ids' {
      if list == (h, v + [x]) && s != x {
        assert (h, v) in before && s in v;
      }
    }
    forall k | k in ids' ensures HasSource(key, after, k, ids'[k]) {
      var new' := (h, v + [x]);
      assert new' in after;
      if k == key(h, x) {
        NewIsLast(key, h, v, x);
        assert IsLastWith(key, new'.0, new'.1, k, x);
      } else {
        assert HasSource(key, before, k, ids[k]);
        var list :| list in before && IsLastWith(key, list.0, list.1, k, ids[k]);
        if list == (h, v) {
          LastStays(key, h, v, x, k, ids[k]);
          assert IsLastWith(key, new'.0, new'.1, k, ids[k]);
        } else {
          assert list in after;
        }
      }
    }
  }

  lemma EmptyListAddsNothing(key: KeyFn, lists: set<HostList>, ids: map<string, InnerMap>, h: string)
    requires Indexes(key, lists, ids)
    ensures Indexes(key, lists + {(h, [])}, ids)
  {
    forall k | k in ids ensures HasSource(key, lists + {(h, [])}, k, ids[k]) {
      assert HasSource(key, lists, k, ids[k]);
    }
  }

  lemma PathListsGrow(h: string, m: PathMap, p: string, list: ServerList)
    requires p !in m
    ensures PathLists(h, m[p := list]) == PathLists(h, m) + {(h, list.servers)}
  {
    var n := m[p := list];
    assert (h, n[p].servers) in PathLists(h, n);
    forall x | x in PathLists(h, m) ensures x in PathLists(h, n) {
      var q :| q in m && x == (h, m[q].servers);
      assert q in n && x == (h, n[q].servers);
    }
  }

  lemma ListsGrow(t: Table, h: string, m: PathMap)
    requires h !in t
    ensures Lists(t[h := m]) == Lists(t) + PathLists(h, m)
  {
    var u := t[h := m];
    forall x | x in Lists(t) ensures x in Lists(u) {
      var p :| x.0 in t && p in t[x.0] && x.1 == t[x.0][p].servers;
      assert x.0 in u && p in u[x.0] && x.1 == u[x.0][p].servers;
    }
    forall x | x in PathLists(h, m) ensures x in Lists(u) {
      var p :| p in m && x == (h, m[p].servers);
      assert h in u && p in u[h] && x.1 == u[h][p].servers;
    }
  }

  method IndexServers(key: KeyFn, host: string, vec: seq<InnerMap>, cloned: UpstreamsIdMap, ghost before: set<HostList>)
    requires Indexes(key, before, cloned.entries)
    modifies cloned
    ensures Indexes(key, before + {(host, vec)}, cloned.entries)
  {
    hide Indexes;
    EmptyListAddsNothing(key, before, cloned.entries, host);
    assert vec[..0] == [];
    for i := 0 to |vec|
      invariant Indexes(key, before + {(host, vec[..i])}, cloned.entries)
    {
      var x := vec[i];
      var hh := key(host, x);
      IndexGrows(key, before, cloned.entries, host, vec[..i], x);
      assert vec[..i + 1] == vec[..i] + [x];
      cloned.entries := cloned.entries[hh := x];
    }
    assert vec[..|vec|] == vec;
  }

  method IndexPaths(key: KeyFn, host: string, inner: PathMap, cloned: UpstreamsIdMap, ghost before: set<HostList>)
    requires Indexes(key, before, cloned.entries)
    modifies cloned
    ensures Indexes(key, before + PathLists(host, inner), cloned.entries)
  {
    var todo := inner.Keys;
    ghost var done: PathMap := map[];
    assert before + PathLists(host, done) == before;
    hide PathLists, Indexes;
    while todo != {}
      invariant todo <= inner.Keys
      invariant done == map p | p in inner && p !in todo :: inner[p]
      invariant Indexes(key, before + PathLists(host, done), cloned.entries)
    {
      var path :| path in todo;
      IndexServers(key, host, inner[path].servers, cloned, before + PathLists(host, done));
      ghost var more := done[path := inner[path]];
      PathListsGrow(host, done, path, inner[path]);
      assert before + PathLists(host, more) == before + PathLists(host, done) + {(host, inner[path].servers)};
      done := more;
      todo := todo - {path};
    }
    assert done == inner;
  }

  /**
   Rebuilds the id index. Of servers that share a key, one is kept: the last one of the list visited last, so within a
   list always the last.
   */
  method CloneIdmapInto(key: KeyFn, original: UpstreamsDashMap, cloned: UpstreamsIdMap)
    modifies cloned
    ensures IsIndex(key, original.hosts, cloned.entries)
  {
    cloned.entries := map[];
    var todo := original.hosts.Keys;
    ghost var done: Table := map[];
    assert Indexes(key, Lists(done), cloned.entries);
    hide Indexes, Lists;
    while todo != {}
      invariant todo <= original.hosts.Keys
      invariant done == map h | h in original.hosts && h !in todo :: original.hosts[h]
      invariant Indexes(key, Lists(done), cloned.entries)
    {
      var host :| host in todo;
      IndexPaths(key, host, original.hosts[host], cloned, Lists(done));
      ghost var more := done[host := original.hosts[host]];
      ListsGrow(done, host, original.hosts[host]);
      done := more;
      todo := todo - {host};
    }
    assert done == original.hosts;
    IndexOfListsIsIndex(key, original.hosts, cloned.entries);
  }

  // ----- tables with one server -----

  /** One host with one list of one server. */
  function Single(h: string, p: string, s: InnerMap): Table {
    map[h := map[p := ServerList([s], 0)]]
  }

  lemma SingleListsOne(h: string, p: string, s: InnerMap)
    ensures forall g, u :: Listed(Single(h, p, s), g, u) <==> g == h && u == s
  {
    assert s in Single(h, p, s)[h][p].servers;
    assert Listed(Single(h, p, s), h, s);
  }

  lemma SingleIndex(key: KeyFn, h: string, p: string, s: InnerMap)
    ensures IsIndex(key, Single(h, p, s), map[key(h, s) := s])
  {
    SingleListsOne(h, p, s);
    assert [s][0] == s;
    assert IsLastWith(key, h, [s], key(h, s), s);
    assert p in Single(h, p, s)[h] && Single(h, p, s)[h][p].servers == [s];
    assert IndexedServer(key, Single(h, p, s), key(h, s), s);
  }

  lemma SingleDiffer(h: string, p: string, s: InnerMap, t: InnerMap)
    ensures Equiv(Single(h, p, s), Single(h, p, t)) <==> s == t
  {
    assert s in ToSet([s]);
    assert Single(h, p, s)[h][p].servers == [s] && Single(h, p, t)[h][p].servers == [t];
    if Equiv(Single(h, p, s), Single(h, p, t)) {
      assert EquivPaths(Single(h, p, s)[h], Single(h, p, t)[h]);
      assert EquivLists([s], [t]);
    }
  }

  lemma SingleFresh(h: string, p: string, s: InnerMap)
    ensures Fresh(Single(h, p, s)) == Single(h, p, s)
  {
    assert FreshPaths(Single(h, p, s)[h]) == Single(h, p, s)[h];
  }

  // ----- the liveness report -----

  datatype BackendStatus = BackendStatus(address: string, port: u16, alive: bool)

  predicate SameEndpoint(s: InnerMap, t: InnerMap) {
    s.address == t.address && s.port == t.port
  }

  /** Some server with the address and port of `s` stands at (host, path) of `current`. */
  predicate Alive(current: Table, h: string, p: string, s: InnerMap) {
    h in current && p in current[h] && exists t | t in current[h][p].servers :: SameEndpoint(t, s)
  }

  function ReportList(servers: seq<InnerMap>, current: Table, h: string, p: string): (report: seq<BackendStatus>)
    ensures |report| == |servers|
    ensures forall i | 0 <= i < |servers| ::
      report[i] == BackendStatus(servers[i].address, servers[i].port, Alive(current, h, p, servers[i]))
  {
    seq(|servers|, i requires 0 <= i < |servers| =>
      BackendStatus(servers[i].address, servers[i].port, Alive(current, h, p, servers[i])))
  }

  function ReportPaths(m: PathMap, current: Table, h: string): map<string, seq<BackendStatus>> {
    map p | p in m :: ReportList(m[p].servers, current, h, p)
  }

  method ReportHost(host: string, paths: PathMap, current: UpstreamsDashMap) returns (report: map<string, seq<BackendStatus>>)
    ensures report == ReportPaths(paths, current.hosts, host)
  {
    report := map[];
    var todo := paths.Keys;
    while todo != {}
      invariant todo <= paths.Keys
      invariant report == map p | p in paths && p !in todo :: ReportList(paths[p].servers, current.hosts, host, p)
    {
      var path :| path in todo;
      report := report[path := ReportList(paths[path].servers, current.hosts, host, path)];
      todo := todo - {path};
    }
  }

  method UpstreamsLivenessJson(configured: UpstreamsDashMap, current: UpstreamsDashMap)
    returns (report: map<string, map<string, seq<BackendStatus>>>)
    ensures report == map h | h in configured.hosts :: ReportPaths(configured.hosts[h], current.hosts, h)
  {
    report := map[];
    var todo := configured.hosts.Keys;
    while todo != {}
      invariant todo <= configured.hosts.Keys
      invariant report == map h | h in configured.hosts && h !in todo :: ReportPaths(configured.hosts[h], current.hosts, h)
    {
      var host :| host in todo;
      var paths := ReportHost(host, configured.hosts[host], current);
      report := report[host := paths];
      todo := todo - {host};
    }
  }

  /** Entry `i` at (h, p) of the report: the backend's own address and port, and whether the current table lists them there. */
  lemma ReportMeans(m: PathMap, current: Table, h: string, p: string, i: nat)
    requires p in m && i < |m[p].servers|
    ensures ReportPaths(m, current, h).Keys == m.Keys && |ReportPaths(m, current, h)[p]| == |m[p].servers|
    ensures var (s, status) := (m[p].servers[i], ReportPaths(m, current, h)[p][i]);
      && status.address == s.address && status.port == s.port
      && (status.alive <==>
            h in current && p in current[h] &&
            exists k :: 0 <= k < |current[h][p].servers| &&
              current[h][p].servers[k].address == s.address && current[h][p].servers[k].port == s.port)
  {
    var s := m[p].servers[i];
    if h in current && p in current[h] {
      var servers := current[h][p].servers;
      if Alive(current, h, p, s) {
        var u :| u in servers && SameEndpoint(u, s);
        var k :| 0 <= k < |servers| && servers[k] == u;
      }
      if k :| 0 <= k < |servers| && servers[k].address == s.address && servers[k].port == s.port {
        assert servers[k] in servers && SameEndpoint(servers[k], s);
      }
    }
  }
}
