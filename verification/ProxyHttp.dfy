/** The request side: host lookup, the sticky cookie out and back in, and the store of digests. */
module ProxyHttp {
  import opened Wrappers
  import opened Text
  import opened Structs
  import opened Identity
  import opened LoadBalancer
  import opened GetHosts

  /** What the proxy remembers about one request. */
  class Context {
    var backendId: Option<string>
    var hostname: Option<string>
    var upstreamPeer: Option<InnerMap>
    const extraparams: Extraparams

    constructor (extraparams: Extraparams)
      ensures backendId == None && hostname == None && upstreamPeer == None && this.extraparams == extraparams
    {
      backendId, hostname, upstreamPeer := None, None, None;
      this.extraparams := extraparams;
    }
  }

  /** The parts of a request that routing reads. */
  datatype RequestHead = RequestHead(isHttp2: bool, uriHost: Option<string>, hostHeader: Option<string>, cookie: Option<string>, path: string)

  // ----- host -----

  /** `split_once(':')`: what precedes the first colon, or all of it. */
  function BeforeColon(s: string): (r: string)
    ensures ':' !in r
    ensures r == s || (|r| < |s| && r == s[..|r|] && s[|r|] == ':')
  {
    match Find(s, ":")
    case None =>
      assert forall i | 0 <= i < |s| :: !OccursAt(s, ":", i) && s[i..i + 1] == [s[i]];
      s
    case Some(i) =>
      assert forall j | 0 <= j < i :: !OccursAt(s, ":", j) && s[j..j + 1] == [s[j]];
      s[..i]
  }

  /** The host a request names: the URI's for HTTP/2, otherwise the `Host` header without its port. */
  function NamedHost(head: RequestHead): Option<string> {
    if head.isHttp2 then head.uriHost
    else if head.hostHeader.None? then None
    else Some(BeforeColon(head.hostHeader.value))
  }

  /** The table's key for the request's host, or `DEFAULT` when that is configured; a request that names no host has none. */
  function HostKey(t: Table, head: RequestHead): (key: Option<string>)
    ensures key.Some? ==> key.value in t
  {
    var host := NamedHost(head);
    if host.None? then None
    else if host.value in t then host
    else if "DEFAULT" in t then Some("DEFAULT")
    else None
  }

  /** The host header loses its port; unknown hosts fall back on `DEFAULT`; nothing is found only when that is missing too. */
  lemma HostKeyMeans(t: Table, head: RequestHead, host: string)
    requires ':' !in host && !head.isHttp2
    requires exists rest :: head.hostHeader == Some(host + rest) && (rest == "" || rest[0] == ':')
    ensures HostKey(t, head) == if host in t then Some(host) else if "DEFAULT" in t then Some("DEFAULT") else None
  {
    var rest :| head.hostHeader == Some(host + rest) && (rest == "" || rest[0] == ':');
    var r := BeforeColon(host + rest);
    if rest == "" {
      assert host + rest == host;
      NoColonNoCut(host);
    } else {
      assert (host + rest)[|host|] == ':';
      assert |r| == |host|;
      assert r == (host + rest)[..|host|] == host;
    }
  }

  /** An HTTP/2 request is looked up by the host of its URI as it is; one that names no host has no key. */
  lemma HostKeyOtherwise(t: Table, head: RequestHead)
    ensures head.isHttp2 && head.uriHost.Some? ==>
      HostKey(t, head) == if head.uriHost.value in t then head.uriHost else if "DEFAULT" in t then Some("DEFAULT") else None
    ensures head.isHttp2 && head.uriHost.None? ==> HostKey(t, head) == None
    ensures !head.isHttp2 && head.hostHeader.None? ==> HostKey(t, head) == None
  {
  }

  lemma NoColonNoCut(s: string)
    requires ':' !in s
    ensures BeforeColon(s) == s
  {
  }

  // ----- cookie -----

  const COOKIE_NAME := "backend_id="

  /** What the client sends back: the name and the digest. */
  function CookiePair(digest: string): string {
    COOKIE_NAME + digest
  }

  function SetCookie(digest: string, maxAge: u64): string {
    CookiePair(digest) + "; Path=/; Max-Age=" + Decimal(maxAge) + "; HttpOnly; SameSite=Lax"
  }

  /** Reads the value after the first `backend_id=` up to the next semicolon. */
  function ParseCookie(cookie: string): Option<string> {
    match Find(cookie, COOKIE_NAME)
    case None => None
    case Some(pos) =>
      var value := cookie[pos + |COOKIE_NAME|..];
      Some(value[..Find(value, ";").UnwrapOr(|value|)])
  }

  /** The header holds the pair after `before`, its name nowhere before it, and ends or continues with a semicolon after it. */
  ghost predicate CarriesPair(cookie: string, digest: string, before: string, after: string) {
    && cookie == before + ("backend_id=" + digest) + after
    && (forall i: nat :: !OccursAt(before, "backend_id=", i))
    && (after == "" || after[0] == ';')
  }

  /** The name cannot start before its first appearance and run into it. */
  lemma NameDoesNotOverlap(before: string, rest: string, i: nat)
    requires forall j: nat :: !OccursAt(before, COOKIE_NAME, j)
    requires i < |before|
    ensures !OccursAt(before + COOKIE_NAME + rest, COOKIE_NAME, i)
  {
    var n := COOKIE_NAME;
    var w := before + n + rest;
    if i + |n| <= |before| {
      assert w[i..i + |n|] == before[i..i + |n|];
      assert !OccursAt(before, n, i);
    } else if i + |n| <= |w| {
      assert w[i..i + |n|][|before| - i] == w[|before|] == 'b';
      assert n[|before| - i] != 'b';
    }
  }

  lemma ValueEndsAtSemicolon(digest: string, after: string)
    requires ';' !in digest
    requires after == "" || after[0] == ';'
    ensures var value := digest + after; value[..Find(value, ";").UnwrapOr(|value|)] == digest
  {
    var value := digest + after;
    forall i: nat | i < |digest| ensures !OccursAt(value, ";", i) {
      assert value[i..i + 1][0] == digest[i];
      assert digest[i] in digest;
    }
    if after != "" {
      assert OccursAt(value, ";", |digest|);
    }
  }

  /** The part of the `Set-Cookie` value that section 5.2 of RFC 6265 has clients keep and send back is the pair. */
  lemma ClientsKeepThePair(digest: string, maxAge: u64)
    requires ';' !in digest
    ensures var value := SetCookie(digest, maxAge);
      value[..Find(value, ";").UnwrapOr(|value|)] == CookiePair(digest)
  {
    var attributes := "; Path=/; Max-Age=" + Decimal(maxAge) + "; HttpOnly; SameSite=Lax";
    assert SetCookie(digest, maxAge) == CookiePair(digest) + attributes;
    ValueEndsAtSemicolon(CookiePair(digest), attributes);
  }

  /** Between its semicolons the value that is set reads: the pair, the root path, the age in seconds, and two attributes. */
  lemma CookieAttributes(digest: string, maxAge: u64)
    requires ';' !in digest
    ensures Split(SetCookie(digest, maxAge), ';') ==
      ["backend_id=" + digest, " Path=/", " Max-Age=" + Decimal(maxAge), " HttpOnly", " SameSite=Lax"]
  {
    hide Split;
    var pair, age := "backend_id=" + digest, " Max-Age=" + Decimal(maxAge);
    assert "; Path=/; Max-Age=" == [';'] + (" Path=/" + ([';'] + " Max-Age="));
    assert "; HttpOnly; SameSite=Lax" == [';'] + (" HttpOnly" + ([';'] + " SameSite=Lax"));
    RegroupCookie(pair, " Path=/", " Max-Age=", Decimal(maxAge), " HttpOnly", " SameSite=Lax");
    SplitFive(pair, " Path=/", age, " HttpOnly", " SameSite=Lax", ';');
  }

  lemma RegroupCookie(pair: string, path: string, age: string, n: string, http: string, site: string)
    ensures pair + ([';'] + (path + ([';'] + age))) + n + ([';'] + (http + ([';'] + site)))
      == pair + [';'] + (path + [';'] + ((age + n) + [';'] + (http + [';'] + site)))
  {
    var tail := [';'] + (http + ([';'] + site));
    assert ([';'] + (path + ([';'] + age))) + n == [';'] + path + [';'] + (age + n);
    assert tail == [';'] + (http + [';'] + site);
  }

  lemma SplitFive(a: string, b: string, c: string, d: string, e: string, sep: char)
    requires sep !in a && sep !in b && sep !in c && sep !in d && sep !in e
    ensures Split(a + [sep] + (b + [sep] + (c + [sep] + (d + [sep] + e))), sep) == [a, b, c, d, e]
  {
    hide Split;
    SplitOnce(a, b + [sep] + (c + [sep] + (d + [sep] + e)), sep);
    SplitOnce(b, c + [sep] + (d + [sep] + e), sep);
    SplitOnce(c, d + [sep] + e, sep);
    SplitOnce(d, e, sep);
    SplitOnce(e, "", sep);
  }

  lemma RegroupPair(a: string, b: string, c: string, d: string)
    ensures a + (b + c) + d == a + b + (c + d)
  {
  }

  lemma MiddleOccurs(a: string, b: string, c: string)
    ensures OccursAt(a + b + c, b, |a|) && (a + b + c)[|a| + |b|..] == c
  {
    assert a + b + c == a + (b + c);
  }

  /** A cookie the client sends back is read as the digest it was issued with. */
  lemma CookieReadsBack(cookie: string, digest: string, before: string, after: string)
    requires CarriesPair(cookie, digest, before, after)
    requires ';' !in digest
    ensures ParseCookie(cookie) == Some(digest)
  {
    var rest := digest + after;
    RegroupPair(before, COOKIE_NAME, digest, after);
    forall i: nat | i < |before| ensures !OccursAt(cookie, COOKIE_NAME, i) {
      NameDoesNotOverlap(before, rest, i);
    }
    MiddleOccurs(before, COOKIE_NAME, rest);
    ValueEndsAtSemicolon(digest, after);
  }

  // ----- request phases -----

  /** The sticky id a request asks for: none unless sticky sessions are on. */
  function AskedId(extraparams: Extraparams, head: RequestHead): Option<string> {
    if extraparams.stickySessions.None? || head.cookie.None? then None else ParseCookie(head.cookie.value)
  }

  /**
   A request that carries the pair asks for its digest exactly while sticky sessions are on; without sticky sessions,
   without the header, or without the name in it, it asks for nothing.
   */
  lemma AskedIdMeans(extraparams: Extraparams, head: RequestHead, digest: string, before: string, after: string)
    requires ';' !in digest
    ensures head.cookie.Some? && CarriesPair(head.cookie.value, digest, before, after) ==>
      AskedId(extraparams, head) == match extraparams.stickySessions { case Some(_) => Some(digest) case None => None }
    ensures head.cookie.None? || extraparams.stickySessions.None? ==> AskedId(extraparams, head) == None
    ensures head.cookie.Some? && (forall i: nat :: !OccursAt(head.cookie.value, "backend_id=", i)) ==> AskedId(extraparams, head) == None
  {
    if head.cookie.Some? && CarriesPair(head.cookie.value, digest, before, after) {
      CookieReadsBack(head.cookie.value, digest, before, after);
    }
  }

  /** The routing part of `request_filter`: resolves the host, reads the cookie and takes a backend. */
  method RequestFilter(lb: LB, ctx: Context, head: RequestHead)
    modifies ctx, lb.umpUpst
    ensures ctx.backendId == old(ctx.backendId)
    ensures ctx.hostname == old(HostKey(lb.umpUpst.hosts, head))
    ensures ctx.hostname.None? ==> ctx.upstreamPeer == old(ctx.upstreamPeer) && lb.umpUpst.hosts == old(lb.umpUpst.hosts)
    ensures ctx.hostname.Some? ==>
      Route(old(lb.umpUpst.hosts), lb.umpById.entries, ctx.hostname.value, head.path, AskedId(ctx.extraparams, head))
        == Routed(ctx.upstreamPeer, lb.umpUpst.hosts)
  {
    ctx.hostname := HostKey(lb.umpUpst.hosts, head);
    var backendId: Option<string> := None;
    if ctx.extraparams.stickySessions.Some? {
      if head.cookie.Some? {
        var cookie := head.cookie.value;
        var found := Find(cookie, COOKIE_NAME);
        if found.Some? {
          var value := cookie[found.value + |COOKIE_NAME|..];
          var end := Find(value, ";").UnwrapOr(|value|);
          backendId := Some(value[..end]);
        }
      }
    }
    if ctx.hostname.Some? {
      ctx.upstreamPeer := GetHost(lb, ctx.hostname.value, head.path, backendId);
    }
  }

  /** The part of `upstream_peer` that records the id of the chosen backend. */
  method UpstreamPeer(lb: LB, ctx: Context) returns (found: bool)
    modifies ctx`backendId
    ensures found == (ctx.hostname.Some? && ctx.upstreamPeer.Some?)
    ensures ctx.backendId == if found && ctx.extraparams.stickySessions.Some?
      then Some(BackendId(lb.lib, ctx.hostname.value, ctx.upstreamPeer.value)) else old(ctx.backendId)
  {
    if ctx.hostname.None? || ctx.upstreamPeer.None? {
      return false;
    }
    if ctx.extraparams.stickySessions.Some? {
      ctx.backendId := Some(BackendId(lb.lib, ctx.hostname.value, ctx.upstreamPeer.value));
    }
    return true;
  }

  // ----- the store of digests -----

  /** The digest for an id: the stored one, or a new one. */
  function StoredDigest(digest: DigestFn, store: map<string, string>, id: string): string {
    if id in store then store[id] else digest(id)
  }

  /** The store after a response: on a miss it gains the id and its digest, in both directions. */
  function Remembered(digest: DigestFn, store: map<string, string>, id: string): map<string, string> {
    if id in store then store else store[id := digest(id)][digest(id) := id]
  }

  /** After a response the store leads from the id to the digest of the cookie, and back if it did not know the id; nothing else moved. */
  lemma RememberedBothWays(digest: DigestFn, store: map<string, string>, id: string)
    requires ':' in id
    ensures var (after, cookie) := (Remembered(digest, store, id), StoredDigest(digest, store, id));
      && id in after && after[id] == cookie
      && (id in store ==> after == store && cookie == store[id])
      && (id !in store ==>
            && cookie == digest(id) && cookie in after && after[cookie] == id
            && after.Keys == store.Keys + {id, cookie}
            && forall k | k in store && k != cookie :: after[k] == store[k])
  {
    assert IsDigest(digest(id));
  }

  /** Ids lead to their digests, digests back to an id they belong to. Ids hold a colon, digests do not. */
  ghost predicate StoreOk(digest: DigestFn, store: map<string, string>) {
    forall k | k in store ::
      if ':' in k then store[k] == digest(k) else ':' in store[k] && digest(store[k]) == k
  }

  /** Both kinds of entry keep the store sound, each on its own; so does dropping any entries. */
  lemma StoreStaysOk(digest: DigestFn, store: map<string, string>, id: string, dropped: set<string>)
    requires StoreOk(digest, store) && ':' in id
    ensures StoreOk(digest, store[id := digest(id)])
    ensures StoreOk(digest, store[digest(id) := id])
    ensures StoreOk(digest, store - dropped)
  {
    assert IsDigest(digest(id));
  }

  /** A lookup by id is transparent: it gives what an uncached computation gives. */
  lemma StoreIsTransparent(digest: DigestFn, store: map<string, string>, id: string)
    requires StoreOk(digest, store) && ':' in id
    ensures StoredDigest(digest, store, id) == digest(id)
  {
  }

  /** Where both directions are present they are inverse, given that no two stored ids share a digest. */
  lemma StoreIsInvertible(digest: DigestFn, store: map<string, string>)
    requires StoreOk(digest, store)
    requires forall k, d | k in store && d in store && ':' in k && ':' !in d && digest(store[d]) == digest(k) :: store[d] == k
    ensures forall k | k in store && store[k] in store :: store[store[k]] == k
  {
    forall k | k in store && store[k] in store ensures store[store[k]] == k {
      if ':' in k {
        assert IsDigest(digest(k));
      }
    }
  }

  /** The sticky part of `response_filter`: the cookie to set, and the store it leaves. */
  method ResponseFilter(lb: LB, ctx: Context) returns (setCookie: Option<string>)
    modifies lb.reverseStore
    ensures setCookie == (if ctx.extraparams.stickySessions.Some? && ctx.backendId.Some?
      then Some(SetCookie(StoredDigest(lb.lib.digest, old(lb.reverseStore.entries), ctx.backendId.value), ctx.extraparams.stickySessions.value))
      else None)
    ensures lb.reverseStore.entries == if setCookie.None? then old(lb.reverseStore.entries)
      else Remembered(lb.lib.digest, old(lb.reverseStore.entries), ctx.backendId.value)
  {
    if ctx.extraparams.stickySessions.None? || ctx.backendId.None? {
      return None;
    }
    var bid := ctx.backendId.value;
    var tt;
    if bid in lb.reverseStore.entries {
      tt := lb.reverseStore.entries[bid];
    } else {
      var hh := lb.lib.digest(bid);
      lb.reverseStore.entries := lb.reverseStore.entries[bid := hh];
      lb.reverseStore.entries := lb.reverseStore.entries[hh := bid];
      tt := hh;
    }
    return Some(SetCookie(tt, ctx.extraparams.stickySessions.value));
  }
}
