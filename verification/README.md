# A verified model of the Aralez upstream tables

Aralez is a reverse proxy. This project models, in Dafny, the table of upstream servers and everything that has to stay
consistent with it: routing, sticky sessions, health ticks, configuration reloads, service discovery, header merging, the
JWT cache and the limiter of 4xx answers. It proves properties of single operations and of whole runs.

## How the system is represented

- A `DashMap` is a map in a field of a class that is shared by reference (`Structs.UpstreamsDashMap`, `UpstreamsIdMap`,
  `Headers`, `LoadBalancer.ReverseStore`). It is iterated in no particular order: every loop takes any key not yet visited.
  Single map operations are atomic. The inner maps and the counters beside the server lists are values held in the outer map.
- The round-robin counter is a 64-bit cell that wraps; the 4xx count is a 32-bit one that wraps, as release builds do.
- SHA-256 cut to fifty hex characters is an arbitrary function to fifty hex characters. That it has no collision is never
  assumed, only required where a theorem needs it, and only for the ids concerned. Which characters `{:?}` writes as
  `\u{..}` is arbitrary too.
- Network answers are an oracle: one arbitrary probe result for each host, path and position per tick. The answers of Consul
  and Kubernetes, clock readings, and cache evictions are arbitrary inputs.
- The runs of `Jwt` have a real-valued clock that does not go back; the code reads its whole seconds.
- `ControlPlane.State` is the state shared by all tasks. `ControlPlane.Step` is what one task can do to it at once; a health
  tick is two steps, because the code awaits between its probes and its install. The methods of `ControlPlane` and
  `BgService.Reload` are proved to take exactly these steps, and the theorems speak about all runs of them.

| file | part of the source |
|---|---|
| Structs.dfy, Wrappers.dfy, Text.dfy | entities, optional values, searching, splitting and formatting of text |
| Identity.dfy | the id string of a backend and its digest |
| Tools.dfy | cloning, comparing, indexing, header merging and the liveness report |
| LoadBalancer.dfy, GetHosts.dfy, RoundRobin.dfy | the proxy object, routing, header lookup, fairness |
| HealthCheck.dfy | probing a table |
| ProxyHttp.dfy | host lookup, sticky cookie, store of digests |
| ControlPlane.dfy | steps, runs and the theorems about them |
| Installing.dfy | readers while a table is being installed |
| BgService.dfy | the reload arm with its headers |
| Discovery.dfy | Consul and Kubernetes |
| Jwt.dfy, Limiter.dfy | the token cache and the 4xx limiter |

## What the proofs turned up

- A tick that probed before a reload and installs after it puts the old servers back (`ControlPlane.StaleTickOverwritesReload`).
  It is harmless exactly when probing the old table and the new one gives equivalent tables
  (`ControlPlane.TickIsCurrentExactlyWhen`). The next undisturbed tick repairs it (`ControlPlane.TickConverges`).
- A token checked again in the very second of its `exp` is accepted if it is cached, although a full verification rejects it
  (`Jwt.AcceptedAtExpWhenCached`). Section 4.1.4 of RFC 7519 asks for rejection on that second. No other second differs.
  When checks of a token overlap, it can even be accepted there after a rejection (`Jwt.OverlapAcceptsAfterRejection`), but
  under no other condition (`Jwt.AcceptedAfterRejectionExactlyWhen`).
- While a reload is in progress a request with a cookie can get the old record of an endpoint
  (`Installing.StickyReaderCanSeeOldRecord`), exactly when the index still holds one that the new list replaces
  (`Installing.StickyReaderSeesOldRecordExactlyWhen`); address and port are those of the new list all the same. Without a
  cookie nothing old is seen.
- The sticky id does not tell an unset health check from a disabled one, nor an unset limit from a limit of zero
  (`Identity.SameIdentity`), and it holds neither the TLS flag nor the redirect target.
- The comparison of tables sees lists as sets of a length. Where a server is named twice for more weight, a tick or a discovery
  poll can miss that another one got its second place (`Tools.WeightsAreNotCompared`).
- The repository's README.md says 4xx answers are limited per second, and per client and virtual host. The code counts per
  client alone, across all hosts, and each counted answer restarts the second; a client that never makes more than two
  requests a second is refused in the end (`Limiter.SlowClientIsRefused`). The model follows the code.
- For a relative path the header lookup has no last resort at `/`, unlike routing (`GetHosts.RelativeHeaderWalk`).

## Model

| member | source | states |
|---|---|---|
| Identity.BackendIdInjective | src/utils/tools.rs:153-167 | for colon-free hosts and addresses that are colon-free or bracketed IPv6, two id strings are equal exactly when host, address, port, protocol flags, defaulted limits, defaulted health check and authorization are equal |
| Identity.DebugCharsInjective | src/web/proxyhttp.rs:188-197 | a string written with `{:?}` is read back up to its closing quote, whatever follows; so credentials cannot imitate the end of an id |
| Identity.AddressKindsDiffer | src/utils/parceyaml.rs:229-233 | no colon-free address followed by port and flags spells the beginning of a bracketed address |
| Identity.JoinInjective | src/utils/tools.rs:154-157 | colon-separated fields are read back when only the last may hold a colon |
| Identity.IdFormat | src/utils/tools.rs:154-167 | the nine fields of an id in their order, zero for an unset limit and `false` for an unset health check |
| Identity.DigestsAreDigests | src/utils/tools.rs:169-174 | a digest is fifty lower-case hex characters, so it holds no colon and no semicolon |
| Identity.EscapeSamples | src/web/proxyhttp.rs:188-197 | the two-character escapes `{:?}` writes |
| Identity.HexEscapeSample | src/web/proxyhttp.rs:188-197 | the escape `{:?}` writes for any other unprintable character |
| Identity.AuthFormat | src/web/proxyhttp.rs:188-197 | the text of an authorization record, and of none |
| Tools.CloneDashmap | src/utils/tools.rs:68-87 | a new table with the same hosts, paths and lists, and every counter zero |
| Tools.FreshMeans | src/utils/tools.rs:68-104 | both clones keep hosts, paths and every list in its order, and start every counter over |
| Tools.CloneDashmapInto | src/utils/tools.rs:89-104 | the target ends as such a clone; every state a reader can see on the way is the empty table extended one complete host at a time |
| Tools.CompareDashmaps | src/utils/tools.rs:106-135 | true exactly when both tables have the same hosts, the same paths, and lists of equal length and equal element sets, although the loop looks from one side only |
| Tools.EquivMeans | src/utils/tools.rs:106-135 | what that says in terms of the tables: counters and the order within lists never matter, lengths and sets of servers do |
| Tools.EquivListsArePermutations | src/utils/tools.rs:122-130 | where one list names no server twice, the comparison accepts exactly its permutations |
| Tools.WeightsAreNotCompared | src/utils/tools.rs:122-130 | otherwise not: a server named twice can lose its second place to another one unnoticed |
| Tools.ComparePaths | src/utils/tools.rs:115-133 | the same for the paths of one host |
| Tools.SubsetOfSameSize | src/utils/tools.rs:107-109 | the cardinality argument that makes the one-sided loop two-sided |
| Tools.EquivIsEquivalence | src/utils/tools.rs:106-135 | the comparison is reflexive, symmetric and transitive |
| Tools.FreshIsEquiv | src/utils/tools.rs:68-104 | both clones compare equal to their original, in either direction |
| Tools.MergeHeaders | src/utils/tools.rs:137-144 | every list of the source is appended once to the target's list of the same path; other paths and hosts stay |
| Tools.CloneIdmapInto | src/utils/tools.rs:146-180 | the index has the key of every server of every list, and each of its keys leads to the last server with that key of one of the lists, in whatever order tables are visited and whichever digests collide |
| Tools.UpstreamsLivenessJson | src/utils/tools.rs:311-355 | the report has one entry per configured backend in order |
| Tools.ReportMeans | src/utils/tools.rs:319-343 | an entry holds the backend's own address and port, and is alive exactly when some server with both stands at that host and path of the current table |
| GetHosts.FindStickyBackend | src/web/gethosts.rs:19-24 | the index's record for the id, provided the list holds its address and port; nothing otherwise |
| GetHosts.PickBackend | src/web/gethosts.rs:25-34 | nothing from an empty list; the sticky record without touching the counter; else the server at the counter, which advances by one and wraps |
| GetHosts.GetHost | src/web/gethosts.rs:35-59 | terminates, and equals the specification that selects the first candidate with servers and picks there, for every table, index, path and cookie |
| GetHosts.CutsAreThePrefixes | src/web/gethosts.rs:37-51 | the walk meets exactly the path and what precedes each of its slashes, longest first |
| GetHosts.FirstIsLongest | src/web/gethosts.rs:35-59 | the selected prefix is the longest cut with servers, or `/` when no cut has any; nothing is selected exactly when neither has |
| GetHosts.SelectMeans | src/web/gethosts.rs:35-59 | the list that serves a path is the one at its longest cut with servers, or at `/` |
| GetHosts.RequestsTakeTurns | src/web/gethosts.rs:19-59 | on that list a known id whose address and port are listed brings the index's record and moves nothing; every other request gets the server the counter points at and moves it by one, modulo 2^64 |
| GetHosts.UnservedGetNothing | src/web/gethosts.rs:35-59 | a request for an unknown host, or a path no list with servers serves, gets nothing and moves nothing |
| GetHosts.RouteMovesSelectedOnly | src/web/gethosts.rs:25-59 | selection depends on neither cookie nor counters; at most the counter of the selected list moves, by one; no answer exactly when nothing is selected |
| GetHosts.EquivTablesServeAlike | src/web/gethosts.rs:35-59 | tables that compare equal select the same prefix and the same set of servers for every path |
| GetHosts.GetHeader | src/web/gethosts.rs:61-123 | both header walks terminate and yield the first non-empty list of each side; nothing exactly when both sides have none |
| GetHosts.HeaderWalkAgrees | src/web/gethosts.rs:67-112 | for an absolute path the header walk finds what routing's candidates, the empty one left out, would find |
| GetHosts.RelativeHeaderWalk | src/web/gethosts.rs:80-84 | for any other path it meets the same cuts and has no last resort at `/` |
| GetHosts.HeadersFromNearestAncestor | src/web/gethosts.rs:67-112 | the headers of an absolute path are those of its nearest ancestor with a non-empty list |
| GetHosts.NoHeadersWithoutAncestor | src/web/gethosts.rs:67-112 | and there are none exactly when no ancestor has any |
| GetHosts.HeadersOfRelativePath | src/web/gethosts.rs:67-112 | those of any other path are those of its longest cut with a non-empty list, and there are none without one |
| RoundRobin.FairWithoutWrap | src/web/gethosts.rs:32-33 | of m consecutive picks from n servers every position gets m/n, rounded down or up, from any counter value |
| RoundRobin.FairAcrossWrap | src/web/gethosts.rs:32-33 | for up to 2^64 picks across the wrap of the counter two positions differ by two picks at most |
| RoundRobin.HandedInTurn | src/web/gethosts.rs:25-34 | in any sequence of requests, also to other lists or with sticky hits, a list hands out its servers by the consecutive values of its counter |
| RoundRobin.ServedFairly | src/web/gethosts.rs:25-34 | so what it hands out in any such sequence is fair: the share rounded down or up if the counter does not wrap, within two picks of each other for up to 2^64 picks if it does |
| RoundRobin.FairInAnyOrder | src/web/gethosts.rs:32-33 | the same for concurrent workers that finish in any order after the atomic increments of such a sequence, with or without a wrap |
| HealthCheck.BuildUpstreams | src/utils/healthcheck.rs:46-104 | the loops build exactly the filtered and annotated table, for every oracle and visiting order |
| HealthCheck.ProbingFilters | src/utils/healthcheck.rs:49-103 | same hosts and paths, counters at zero; the servers kept are those with checks off or a successful request, in order; TLS and HTTP/2 flags are those detected, or off where checks are off; nothing else changes |
| HealthCheck.FilteringNeverMoreSpecific | src/web/gethosts.rs:35-59 | over the probed table a request goes to the same prefix as over the full table or to a later candidate; to the same one if that list kept a server; to none if there was none |
| HealthCheck.LivenessIsKept | src/utils/tools.rs:325-335 | over the full and the probed table the report says alive exactly for backends of which a same-address-and-port server was kept |
| ProxyHttp.HostKeyMeans | src/web/proxyhttp.rs:315-324 | a host header with or without a port finds the host's own key, else `DEFAULT`, else nothing |
| ProxyHttp.HostKeyOtherwise | src/web/proxyhttp.rs:315-324 | the same for the URI's host of an HTTP/2 request; a request that names no host finds nothing |
| ProxyHttp.BeforeColon | src/web/proxyhttp.rs:319-320 | the colon-free beginning of the header that ends where the header does or just before a colon |
| ProxyHttp.RequestFilter | src/web/proxyhttp.rs:60-80 | resolves the host, reads the sticky id when sticky sessions are on, and routes as specified |
| ProxyHttp.UpstreamPeer | src/web/proxyhttp.rs:184-201 | records the id of the chosen backend, in the format the index uses, when sticky sessions are on |
| ProxyHttp.ResponseFilter | src/web/proxyhttp.rs:260-282 | sets the cookie from the stored or a new digest; on a miss stores both directions, otherwise leaves the store alone |
| ProxyHttp.CookieReadsBack | src/web/proxyhttp.rs:66-72 | a cookie header that carries the pair, with its name nowhere before it, is parsed to the digest it was issued with |
| ProxyHttp.AskedIdMeans | src/web/proxyhttp.rs:64-75 | a request that carries the pair asks for its digest exactly while sticky sessions are on; without sticky sessions, header or name it asks for nothing |
| ProxyHttp.ClientsKeepThePair | src/web/proxyhttp.rs:274-280 | what clients keep of the cookie that is set is the pair of name and digest |
| ProxyHttp.CookieAttributes | src/web/proxyhttp.rs:274-280 | between its semicolons the value that is set reads: pair, root path, age in seconds, HttpOnly, SameSite |
| ProxyHttp.StoreStaysOk | src/web/proxyhttp.rs:270-271 | each of the two writes alone, and any clearing, keeps: ids lead to their digests, digests to an id they belong to |
| ProxyHttp.RememberedBothWays | src/web/proxyhttp.rs:262-273 | after a response the store leads from the id to the digest of the cookie, and back again if the id was new; everything else stays |
| ProxyHttp.StoreIsInvertible | src/web/proxyhttp.rs:262-273 | where both directions are present they are inverse, given distinct digests for the stored ids |
| ControlPlane.ReachableStatesAreSound | src/utils/healthcheck.rs:17-28 | in every reachable state of every interleaving, stale probes included, the index is exactly that of the served table and the store is sound |
| ControlPlane.CookieIsUncachedDigest | src/web/proxyhttp.rs:262-273 | in every run the digest put in a cookie is the one computed without the store |
| ControlPlane.ReloadLeaves | src/web/bgservice.rs:88-90 | a reload puts its lists in both tables with counters at zero, and touches neither the store of digests nor a pending tick |
| ControlPlane.InstallLeaves | src/utils/healthcheck.rs:21-25 | a tick that finds a difference serves its lists with counters at zero, empties the store of digests and leaves the full table |
| ControlPlane.ProbedTableWaits | src/utils/healthcheck.rs:20-21 | the table a tick probed stays the one it will install, whatever is reloaded or served meanwhile |
| ControlPlane.TickServesWhatItProbed | src/utils/healthcheck.rs:17-28 | after any tick the served table is equivalent to what the tick probed, until the next reload or install |
| ControlPlane.TickIsCurrentExactlyWhen | src/utils/healthcheck.rs:17-28 | with any reloads between probes and install, the served table is equivalent to the probed current table exactly when probing the cloned table and the current one gives equivalent tables |
| ControlPlane.TickConverges | src/utils/healthcheck.rs:17-28 | from any state, after a tick without reload between probes and install the served table is equivalent to the probed full table, until the next reload or install |
| ControlPlane.EqualTickChangesNothing | src/utils/healthcheck.rs:21-25 | a tick leaves everything as it was, counters included, exactly when its result compares equal to the served table |
| ControlPlane.StaleTickOverwritesReload | src/utils/healthcheck.rs:20-24 | a run from the start in which a tick replaces a newer reload by the servers it probed before |
| ControlPlane.IndexLagsDuringReload | src/web/bgservice.rs:89-90 | between the two writes of a reload the index of one server's table is still that of the new table exactly when nothing about the server changed |
| ControlPlane.OnlyLiveEndpointsAnswer | src/utils/healthcheck.rs:46-104 | after a tick without reload in between every request is answered by an endpoint that passed its probe or is not checked, on the prefix the surviving table selects, whatever the cookie |
| ControlPlane.AnswersAreServed | src/web/gethosts.rs:19-34 | in every run every answer has the endpoint of a server of the selected list and is itself a record of the served table |
| ControlPlane.KeyedRequestHits | src/web/gethosts.rs:19-34 | when an exact index names a key's endpoint unambiguously, a request with that key gets the endpoint, as a listed record with that key, and moves no counter |
| ControlPlane.StickyRoundTrip | src/web/gethosts.rs:19-34 | whole-run sticky promise: a digest issued in any step for a server brings a request, in any state of the run where the serving list still has that id, to a listed server with its address, port and id, and moves no counter |
| ControlPlane.UnambiguousIdsAreClear | src/web/proxyhttp.rs:184-201 | the source's id format meets the clarity that promise needs, for unambiguous hosts and addresses |
| ControlPlane.CookieRoundTrip | src/web/proxyhttp.rs:65-75 | the same from the cookie that was set to the cookie header that comes back, for the id format of the source, whatever else the header holds after or before; the answer is listed under the same host and has the same protocol flags, limits, health check and authorization |
| ControlPlane.RequestRoundTrip | src/web/proxyhttp.rs:60-80 | the whole way from a response's cookie through the head of any request that names the host and carries the pair, while sticky sessions are on: the request is answered by a listed backend of that host with the identity of the first one, and no counter moves |
| ControlPlane.TickProbe | src/utils/healthcheck.rs:20 | the first half of a tick takes the probing step and changes nothing shared |
| ControlPlane.TickInstall | src/utils/healthcheck.rs:21-25 | the second half takes the install step |
| ControlPlane.InstallTables | src/web/bgservice.rs:88-90 | the three table writes take the reload step |
| ControlPlane.ServeRequest | src/web/proxyhttp.rs:60-80 | a request's phases take the pick step, then leave the cookie and the store a response's steps leave |
| ControlPlane.ResponseIsRun | src/web/proxyhttp.rs:262-273 | what a response does to the store is a run of single steps: the answer, and for a new id the two writes |
| Installing.ReaderSeesOnlyNew | src/utils/tools.rs:89-104 | at every point of an install, with any readers in between, a request without a cookie gets nothing or a server of the list the finished new table gives |
| Installing.StickyReaderSeesNewEndpoint | src/web/gethosts.rs:19-24 | with a cookie the answer still has the address and port of a server of that list |
| Installing.StickyReaderSeesOldRecordExactlyWhen | src/web/gethosts.rs:19-24 | in every such run a record that is not on the new list is returned exactly when the cookie's id leads, in the index not yet rebuilt, to a record that is not on the list while a server with its address and port is; the answer is then that record |
| Installing.StickyReaderCanSeeOldRecord | src/web/bgservice.rs:88-90 | such a run exists, with the index of the old table, for every server that changes in anything but address and port |
| Installing.TraceIsInstallRun | src/utils/tools.rs:89-104 | the states the install method passes through form such a run |
| BgService.AddHosts | src/web/bgservice.rs:101-111 | every upstream host has an entry on both sides, existing ones untouched |
| BgService.PublishHeaders | src/web/bgservice.rs:112-131 | each host is published with the global lists merged in once, in whatever order |
| BgService.Reload | src/web/bgservice.rs:87-132 | the whole arm: the reload step, the extra parameters, and on both sides the installed headers |
| BgService.GlobalAppendedOnce | src/web/bgservice.rs:99-131 | exactly the configured and the upstream hosts get headers, and each has at every path its own list with the global one, if any, appended exactly once |
| BgService.EveryPathHasHeaders | src/web/gethosts.rs:61-123 | with global headers at `/`, every absolute path of every installed host gets the own and global list of its nearest ancestor with headers |
| Discovery.MatchPath | src/utils/kuberconsul.rs:70-79 | the servers replace what stood at the service's path, `/` by default |
| Discovery.ForKuber | src/utils/httpclient.rs:54-84 | one path with the servers of the last subset that has addresses and ports; no path when there is none; nothing for a failed fetch |
| Discovery.ProductIsAddressMajor | src/utils/httpclient.rs:62-79 | entry i * ports + j is address i with port j and the service's redirect flag and limits, all else unset, and there are no others |
| Discovery.ForConsul | src/utils/httpclient.rs:22-43 | the service's path with one server per entry; an entry without a LAN address panics |
| Discovery.ConsulServersMean | src/utils/httpclient.rs:25-40 | server i is entry i at its LAN address and port with the service's redirect flag and limits, all else unset |
| Discovery.ListToUpstreams | src/utils/kuberconsul.rs:55-68 | a service's paths replace those of the same name under its host, other paths stay |
| Discovery.FoldHosts | src/utils/kuberconsul.rs:55-68 | a host is in the table exactly when some service of that name was fetched |
| Discovery.FoldIsLastWriter | src/utils/kuberconsul.rs:55-79 | a path is there exactly when some service produced it, and holds the list of the last one that did |
| Discovery.KuberTableHoldsLastProduct | src/utils/kuberconsul.rs:114-141 | the whole Kubernetes list at a host and path is the product of the last usable subset of the last service that had one, empty arrays included |
| Discovery.ConsulTableHoldsLastAnswer | src/utils/kuberconsul.rs:165-207 | the whole Consul list at a host and path is that of the last service that was answered, in its order |
| Discovery.CloneCompare | src/utils/kuberconsul.rs:211-228 | publishes and remembers a clone exactly when the fetched table is not equivalent to the remembered one |
| Discovery.FetchUpstreams | src/utils/kuberconsul.rs:165-207 | the polling loop sends exactly the tables the specification publishes |
| Discovery.PublishesExactlyChanges | src/utils/kuberconsul.rs:211-228 | over any polls: the remembered table is the last one published and equivalent to the last one fetched; no two consecutive published tables are equivalent; each is a clone of one that was fetched |
| Jwt.JwtCache.CheckJwt | src/utils/jwt.rs:45-72 | answer and cache are those of the specified check, with its three looks at the clock |
| Jwt.CheckMeans | src/utils/jwt.rs:45-72 | a cached token is accepted unless its `exp` lies before the check; any other exactly when it verifies with an `exp` after it, and only then is it cached, with that `exp` |
| Jwt.PayloadIsTheMiddle | src/utils/jwt.rs:75-79 | the pre-check reads the middle one of three dot-free segments |
| Jwt.OtherTokensAreUnreadable | src/utils/jwt.rs:75-78 | and nothing of a token that has not three |
| Text.SplitRejoins | src/utils/jwt.rs:75 | the pieces of a token hold no dot and, rejoined, give the token back |
| Text.JoinedSplits | src/utils/jwt.rs:75 | and pieces without dots, joined by dots, are what splitting gives |
| Jwt.VisibleUpToExp | src/utils/jwt.rs:34-43 | the lifetime given to an entry keeps it visible into the second of its `exp` at most |
| Jwt.VisibleAsExpBegins | src/utils/jwt.rs:34-43 | it is visible as that second begins exactly when it was inserted earlier but not right at the start of a second |
| Jwt.VisibleAtExp | src/utils/jwt.rs:34-43 | and it can keep it visible in that second |
| Jwt.HitsAreAccepted | src/utils/jwt.rs:48-53 | so while entries are found within their lifetimes only, a token found in the cache is always accepted |
| Jwt.AcceptedExactlyWhen | src/utils/jwt.rs:45-72 | in every interleaving of checks, inserts and evictions a token is accepted exactly when it verifies and its `exp` lies after the check, or not before it if cached |
| Jwt.AgreesWithUncached | src/utils/jwt.rs:45-72 | in every interleaving a check differs from the uncached one exactly when the token is cached and its `exp` falls within the check |
| Jwt.NeverAcceptedPastExp | src/utils/jwt.rs:48-53 | no token is accepted after its `exp`, cached or not |
| Jwt.AcceptedAfterRejectionExactlyWhen | src/utils/jwt.rs:45-72 | in every interleaving, after a verifying token was rejected, a check that starts no earlier than that one ended accepts it exactly when it finds it in the cache in the very second of its `exp` |
| Jwt.OverlapAcceptsAfterRejection | src/utils/jwt.rs:48-66 | a run within the lifetimes in which that happens, because the rejected check overlaps the one that inserts |
| Jwt.RejectedForGood | src/utils/jwt.rs:45-72 | where checks follow one another, a verifying token once rejected is rejected for the rest of the run |
| Jwt.AcceptedAtExpWhenCached | src/utils/jwt.rs:48-53 | a run within the lifetimes in which a cached token is accepted at its `exp` and would not be without the cache |
| Limiter.Admit | src/web/proxyhttp.rs:89-100 | refuses exactly when a limit applies and the client's live count exceeds it; keeps the backend's own limit for the log |
| Limiter.Log | src/web/proxyhttp.rs:303-310 | counts one more answer, 32 bits wide and for another second, exactly for statuses 400 to 499 under a limit; touches nothing otherwise |
| Limiter.HandleExchange | src/web/proxyhttp.rs:89-100 | both phases together, a refusal being counted as the 429 it is |
| Limiter.BurstIsLongestSuffix | src/utils/lazylock.rs:10 | the burst is the longest row of last answers less than a second apart |
| Limiter.EntryCountsBurst | src/web/proxyhttp.rs:303-310 | the stored count is the size of the last burst modulo 2^32 |
| Limiter.CountedByBursts | src/web/proxyhttp.rs:303-310 | which answers are counted, from the times alone: 400 to 499 under a limit, and the refusals, which come while the burst exceeds the limit |
| Limiter.RefusedExactlyInBurst | src/web/proxyhttp.rs:89-100 | in every run of one client the live count is the size of the current burst, and a request reaching the limiter is refused exactly when that exceeds the limit |
| Limiter.RefusalPersists | src/web/proxyhttp.rs:89-100 | the request after a refused one, both in time, is refused too exactly when the count does not wrap |
| Limiter.RefusedWhileComing | src/web/proxyhttp.rs:89-100 | a refused client that keeps coming stays refused, until its count would wrap |
| Limiter.SlowClientIsRefused | src/web/proxyhttp.rs:303-310 | an even pace of at most two requests in any second is refused once it is longer than the limit |

## Left out

- Probing, TLS detection, gRPC pings and HTTP clients: replaced by an arbitrary oracle; their status ranges are not modelled.
- Finer interleaving of the table writes: a reload's three writes, and a tick's compare-and-install, are one step each. Between the table write and the index write the index does not describe the table (`ControlPlane.IndexLagsDuringReload`). `Installing` refines one writer's install and shows what readers see then.
- Tools.CloneDashmapInto: the two maps are distinct objects, as they are for every caller; locks and shards of a `DashMap` are not modelled.
- The inner path maps and the counters are values held in the outer map, not objects of their own; no code of the source keeps a reference to one across steps other than under the outer map's lock.
- ProxyHttp.RequestFilter: authentication, the request-rate limiter and the redirects are not part of it; the 4xx limiter is modelled by itself in `Limiter`.
- Peers, forwarding headers, metrics, access logs and response writing: plumbing around libraries.
- Jwt.JwtCache.CheckJwt: the method is one check with nothing in between; the runs of `Jwt` split each check into its lookup and its insert. How the cache chooses what to evict is not modelled.
- The library's decoding of a token is a function of signature, claims and a leeway of 60 seconds; its other validation options are not modelled.
- Discovery.ForConsul: the panic ends the modelled fetch; that release builds abort the whole process is not modelled.
- Discovery: headers that the polling loops add to the configuration, server choice, tokens and the waits between polls.
- Limiter: the limit is fixed in the theorems about runs, and the requests of a client follow one another.
- Configuration parsing, file watching, the start-up sequence, ACME, certificates, privileges, signals and the file server: input and output.
- The JSON and log renderings of tables, and the conversion of configuration entries to servers: easy members.
