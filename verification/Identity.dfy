/** The textual identity of a backend, and the digest of it that clients carry in a cookie. */
module Identity {
  import opened Wrappers
  import opened Text
  import opened Structs

  const DIGEST_LENGTH := 50

  predicate IsDigest(s: string) {
    |s| == DIGEST_LENGTH && forall c | c in s :: IsHexDigit(c)
  }

  /** SHA-256 in lower-case hex, cut to fifty characters. Which digest a text has is left open. */
  type DigestFn = f: string -> string | forall x :: IsDigest(f(x))
    witness x => seq(DIGEST_LENGTH, _ => '0')

  /** The two library functions identities depend on: the digest, and which characters `{:?}` writes as `\u{..}`. */
  datatype Library = Library(digest: DigestFn, unprintable: char -> bool)

  // ----- the id string -----

  /** The letter of a two-character escape. */
  function ShortEscape(c: char): Option<char> {
    if c == '\0' then Some('0')
    else if c == '\t' then Some('t')
    else if c == '\r' then Some('r')
    else if c == '\n' then Some('n')
    else if c == '\\' || c == '"' then Some(c)
    else None
  }

  /** `{:?}` of one character inside a string. */
  function DebugChar(lib: Library, c: char): string {
    if ShortEscape(c).Some? then ['\\', ShortEscape(c).value]
    else if lib.unprintable(c) then ['\\', 'u', '{'] + Radix(c as int, 16) + ['}']
    else [c]
  }

  function DebugChars(lib: Library, s: string): string {
    if s == [] then [] else DebugChar(lib, s[0]) + DebugChars(lib, s[1..])
  }

  /** Two escaped strings between fixed pieces of text. */
  function Quoted(lib: Library, open: string, a: string, middle: string, b: string, close: string): string {
    open + (DebugChars(lib, a) + ['"'] + (middle + (DebugChars(lib, b) + ['"'] + close)))
  }

  /** `{:?}` of an optional authorization record. */
  function DebugAuth(lib: Library, auth: Option<InnerAuth>): string {
    match auth
    case None => "None"
    case Some(a) =>
      Quoted(lib, "Some(InnerAuth { auth_type: \"", a.authType, ", auth_cred: \"", a.authCred, " })")
  }

  /** The fields that follow the address in an id. */
  function TailFields(lib: Library, s: InnerMap): (fields: seq<string>)
    ensures |fields| == 7
  {
    [ Decimal(s.port),
      Boolean(s.isHttp2),
      Boolean(s.toHttps),
      Decimal(s.x4xxLimit.UnwrapOr(0)),
      SignedDecimal(s.rateLimit.UnwrapOr(0)),
      Boolean(s.healthcheck.UnwrapOr(false)),
      DebugAuth(lib, s.authorization) ]
  }

  /** The id of backend `s` under host `h`, in the one format both writers use. */
  function BackendId(lib: Library, h: string, s: InnerMap): string {
    Rejoin([h, s.address] + TailFields(lib, s), ':')
  }

  /** The nine fields of the format in their order, with what stands for an unset limit or check. */
  lemma IdFormat(lib: Library, h: string, s: InnerMap)
    ensures BackendId(lib, h, s) == Rejoin([
      h,
      s.address,
      Decimal(s.port),
      if s.isHttp2 then "true" else "false",
      if s.toHttps then "true" else "false",
      if s.x4xxLimit.Some? then Decimal(s.x4xxLimit.value) else "0",
      if s.rateLimit.Some? then SignedDecimal(s.rateLimit.value) else "0",
      if s.healthcheck == Some(true) then "true" else "false",
      DebugAuth(lib, s.authorization)], ':')
  {
    ZeroText();
    hide Rejoin, Decimal, SignedDecimal, DebugAuth;
    var f := [h, s.address] + TailFields(lib, s);
    assert f[2] == Decimal(s.port) && f[3] == Boolean(s.isHttp2) && f[4] == Boolean(s.toHttps);
    assert f[5] == Decimal(s.x4xxLimit.UnwrapOr(0)) && f[6] == SignedDecimal(s.rateLimit.UnwrapOr(0));
    assert f[7] == Boolean(s.healthcheck.UnwrapOr(false)) && f[8] == DebugAuth(lib, s.authorization);
    assert f == [f[0], f[1], f[2], f[3], f[4], f[5], f[6], f[7], f[8]];
  }

  /** Escapes as `{:?}` writes them. */
  lemma EscapeSamples(lib: Library)
    ensures DebugChar(lib, '\t') == "\\t" && DebugChar(lib, '\r') == "\\r" && DebugChar(lib, '\n') == "\\n"
    ensures DebugChar(lib, '"') == "\\\"" && DebugChar(lib, '\\') == "\\\\" && DebugChar(lib, '\0') == "\\0"
  {
    hide Radix;
  }

  lemma HexEscapeSample(lib: Library)
    ensures DebugChar(lib, '\U{7f}') == if lib.unprintable('\U{7f}') then "\\u{7f}" else "\U{7f}"
  {
    NumberSamples();
    hide Radix;
    assert "\\u{7f}" == ['\\', 'u', '{'] + "7f" + ['}'];
  }

  /** The text of an authorization record, and of none. */
  lemma AuthFormat(lib: Library)
    ensures DebugAuth(lib, None) == "None"
    ensures !lib.unprintable('k') ==>
      DebugAuth(lib, Some(InnerAuth("k", "\""))) == "Some(InnerAuth { auth_type: \"k\", auth_cred: \"\\\"\" })"
  {
    EscapeSamples(lib);
    DebugOne(lib, 'k');
    DebugOne(lib, '"');
    hide DebugChar, DebugChars;
    assert "Some(InnerAuth { auth_type: \"k\", auth_cred: \"\\\"\" })"
      == "Some(InnerAuth { auth_type: \"" + ("k" + ['"'] + ", auth_cred: \"\\\"\" })");
    assert ", auth_cred: \"\\\"\" })" == ", auth_cred: \"" + ("\\\"" + ['"'] + " })");
  }

  lemma DebugOne(lib: Library, c: char)
    ensures DebugChars(lib, [c]) == DebugChar(lib, c)
    ensures !lib.unprintable(c) && ShortEscape(c).None? ==> DebugChar(lib, c) == [c]
  {
    assert [c][1..] == [];
  }

  lemma ZeroText()
    ensures Decimal(0) == "0" && SignedDecimal(0) == "0"
  {
  }

  lemma IdsHoldAColon(lib: Library, h: string, s: InnerMap)
    ensures ':' in BackendId(lib, h, s)
  {
    assert BackendId(lib, h, s)[|h|] == ':';
  }

  /** The naming of backends with the id format left out of sight: ids hold a colon, digests do not. */
  type IdFn = f: (string, InnerMap) -> string | forall h, s :: ':' in f(h, s)
    witness (h, s) => [':']

  datatype Names = Names(id: IdFn, digest: DigestFn) {
    function Key(h: string, s: InnerMap): string {
      digest(id(h, s))
    }
  }

  lemma DigestsAreDigests(digest: DigestFn, x: string)
    ensures IsDigest(digest(x)) && ':' !in digest(x) && ';' !in digest(x)
    ensures |digest(x)| == 50 && forall c | c in digest(x) :: '0' <= c <= '9' || 'a' <= c <= 'f'
  {
  }

  lemma IdsHaveColons(id: IdFn, h: string, s: InnerMap)
    ensures ':' in id(h, s)
  {
  }

  lemma IdsAreNotDigests(names: Names, h: string, s: InnerMap)
    ensures ':' in names.id(h, s)
    ensures ':' !in names.Key(h, s) && ';' !in names.Key(h, s)
  {
    DigestsAreDigests(names.digest, names.id(h, s));
    IdsHaveColons(names.id, h, s);
  }

  function NamesOf(lib: Library): (names: Names)
    ensures names.digest == lib.digest
    ensures forall h, s :: names.id(h, s) == BackendId(lib, h, s)
  {
    var id := (h, s) => BackendId(lib, h, s);
    assert forall h, s :: ':' in id(h, s) by {
      forall h, s ensures ':' in id(h, s) {
        IdsHoldAColon(lib, h, s);
      }
    }
    Names(id, lib.digest)
  }

  // ----- injectivity -----

  predicate Ipv6Char(c: char) {
    '0' <= c <= '9' || 'a' <= c <= 'f' || 'A' <= c <= 'F' || c == ':' || c == '.'
  }

  predicate BracketedIpv6(a: string) {
    |a| >= 2 && a[0] == '[' && a[|a| - 1] == ']' && forall i | 0 < i < |a| - 1 :: Ipv6Char(a[i])
  }

  /** Hosts and addresses whose colons cannot be taken for field separators. */
  predicate Unambiguous(h: string, s: InnerMap) {
    ':' !in h && (':' !in s.address || BracketedIpv6(s.address))
  }

  /** Everything an id records about a backend. */
  predicate SameIdentity(s: InnerMap, t: InnerMap) {
    && s.address == t.address
    && s.port == t.port
    && s.isHttp2 == t.isHttp2
    && s.toHttps == t.toHttps
    && s.x4xxLimit.UnwrapOr(0) == t.x4xxLimit.UnwrapOr(0)
    && s.rateLimit.UnwrapOr(0) == t.rateLimit.UnwrapOr(0)
    && s.healthcheck.UnwrapOr(false) == t.healthcheck.UnwrapOr(false)
    && s.authorization == t.authorization
  }

  /** The escapes of two characters never run into each other. */
  lemma DebugCharIsPrefixCode(lib: Library, c: char, x: string, d: char, y: string)
    requires DebugChar(lib, c) + x == DebugChar(lib, d) + y
    ensures c == d && x == y
  {
    var e, f := DebugChar(lib, c), DebugChar(lib, d);
    var w := e + x;
    assert w[0] == e[0] && w[0] == f[0];
    if |e| == 1 || |f| == 1 {
      assert |e| == |f|;
      assert x == w[1..] && y == (f + y)[1..];
    } else {
      assert w[1] == e[1] && w[1] == f[1];
      if ShortEscape(c).Some? || ShortEscape(d).Some? {
        assert c == d;
        assert x == w[2..] && y == (f + y)[2..];
      } else {
        UnicodeEscapesCut(c as int, x, d as int, y);
      }
    }
  }

  lemma UnicodeEscapesCut(m: nat, x: string, n: nat, y: string)
    requires ['\\', 'u', '{'] + Radix(m, 16) + ['}'] + x == ['\\', 'u', '{'] + Radix(n, 16) + ['}'] + y
    ensures m == n && x == y
  {
    var open := ['\\', 'u', '{'];
    assert open + Radix(m, 16) + ['}'] + x == open + (Radix(m, 16) + ['}'] + x);
    assert open + Radix(n, 16) + ['}'] + y == open + (Radix(n, 16) + ['}'] + y);
    SamePrefix(open, Radix(m, 16) + ['}'] + x, Radix(n, 16) + ['}'] + y);
    CutAtSeparator(Radix(m, 16), x, Radix(n, 16), y, '}');
    RadixReadsBack(m, 16);
    RadixReadsBack(n, 16);
  }

  lemma SamePrefix(p: string, x: string, y: string)
    requires p + x == p + y
    ensures x == y
  {
    assert x == (p + x)[|p|..];
    assert y == (p + y)[|p|..];
  }

  lemma DebugCharStart(lib: Library, c: char)
    ensures |DebugChar(lib, c)| > 0 && DebugChar(lib, c)[0] != '"'
  {
  }

  lemma FirstOfDebugChars(lib: Library, s: string, x: string)
    ensures var w := DebugChars(lib, s) + ['"'] + x;
      if s == [] then w == ['"'] + x
      else w == DebugChar(lib, s[0]) + (DebugChars(lib, s[1..]) + ['"'] + x) && w[0] != '"'
  {
    if s != [] {
      var e, rest := DebugChar(lib, s[0]), DebugChars(lib, s[1..]);
      DebugCharStart(lib, s[0]);
      Regroup(e, rest, ['"'], x);
    }
  }

  lemma Regroup(a: string, b: string, c: string, d: string)
    ensures a + b + c + d == a + (b + c + d)
  {
  }

  /** An escaped string is read back up to its closing quote. */
  lemma {:induction false} DebugCharsInjective(lib: Library, s: string, x: string, t: string, y: string)
    requires DebugChars(lib, s) + ['"'] + x == DebugChars(lib, t) + ['"'] + y
    ensures s == t && x == y
  {
    FirstOfDebugChars(lib, s, x);
    FirstOfDebugChars(lib, t, y);
    if s == [] || t == [] {
      assert s == t;
      SamePrefix(['"'], x, y);
    } else {
      DebugCharIsPrefixCode(lib, s[0], DebugChars(lib, s[1..]) + ['"'] + x, t[0], DebugChars(lib, t[1..]) + ['"'] + y);
      DebugCharsInjective(lib, s[1..], x, t[1..], y);
      assert s == [s[0]] + s[1..] && t == [t[0]] + t[1..];
    }
  }

  lemma QuotedInjective(lib: Library, open: string, a: string, middle: string, b: string, close: string, c: string, d: string)
    requires Quoted(lib, open, a, middle, b, close) == Quoted(lib, open, c, middle, d, close)
    ensures a == c && b == d
  {
    var x, y := DebugChars(lib, b) + ['"'] + close, DebugChars(lib, d) + ['"'] + close;
    SamePrefix(open, DebugChars(lib, a) + ['"'] + (middle + x), DebugChars(lib, c) + ['"'] + (middle + y));
    DebugCharsInjective(lib, a, middle + x, c, middle + y);
    SamePrefix(middle, x, y);
    DebugCharsInjective(lib, b, close, d, close);
  }

  lemma DebugAuthInjective(lib: Library, a: Option<InnerAuth>, b: Option<InnerAuth>)
    requires DebugAuth(lib, a) == DebugAuth(lib, b)
    ensures a == b
  {
    assert DebugAuth(lib, a)[0] == if a.Some? then 'S' else 'N';
    assert DebugAuth(lib, b)[0] == if b.Some? then 'S' else 'N';
    if a.Some? {
      QuotedInjective(lib, "Some(InnerAuth { auth_type: \"", a.value.authType, ", auth_cred: \"", a.value.authCred, " })",
                      b.value.authType, b.value.authCred);
    }
  }

  /** Joined fields are read back when no field but the last holds a colon. */
  lemma {:induction false} JoinInjective(f: seq<string>, g: seq<string>)
    requires |f| == |g| > 0
    requires forall i | 0 <= i < |f| - 1 :: ':' !in f[i] && ':' !in g[i]
    requires Rejoin(f, ':') == Rejoin(g, ':')
    ensures f == g
  {
    if |f| == 1 {
    } else {
      CutAtSeparator(f[0], Rejoin(f[1..], ':'), g[0], Rejoin(g[1..], ':'), ':');
      JoinInjective(f[1..], g[1..]);
    }
    assert f == [f[0]] + f[1..] && g == [g[0]] + g[1..];
  }

  lemma TailFieldsHaveNoColon(lib: Library, s: InnerMap)
    ensures forall i | 0 <= i < 6 :: ':' !in TailFields(lib, s)[i]
  {
  }

  lemma TailInjective(lib: Library, s: InnerMap, t: InnerMap)
    requires Rejoin(TailFields(lib, s), ':') == Rejoin(TailFields(lib, t), ':')
    ensures SameIdentity(s, t.(address := s.address))
  {
    var f, g := TailFields(lib, s), TailFields(lib, t);
    TailFieldsHaveNoColon(lib, s);
    TailFieldsHaveNoColon(lib, t);
    JoinInjective(f, g);
    assert f[0] == g[0] && f[1] == g[1] && f[2] == g[2] && f[3] == g[3];
    assert f[4] == g[4] && f[5] == g[5] && f[6] == g[6];
    SignedDecimalInjective(s.port, t.port);
    SignedDecimalInjective(s.x4xxLimit.UnwrapOr(0), t.x4xxLimit.UnwrapOr(0));
    SignedDecimalInjective(s.rateLimit.UnwrapOr(0), t.rateLimit.UnwrapOr(0));
    DebugAuthInjective(lib, s.authorization, t.authorization);
  }

  lemma JoinTwo(a: string, b: string, rest: seq<string>)
    requires |rest| > 0
    ensures Rejoin([a, b] + rest, ':') == a + [':'] + (b + [':'] + Rejoin(rest, ':'))
  {
    hide Rejoin;
    assert [a, b] + rest == [a] + ([b] + rest);
    RejoinStep(a, [b] + rest, ':');
    RejoinStep(b, rest, ':');
  }

  /** An id cut into host, address and the remaining fields. */
  lemma IdPieces(lib: Library, h: string, s: InnerMap)
    ensures BackendId(lib, h, s) == h + [':'] + (s.address + [':'] + Rejoin(TailFields(lib, s), ':'))
  {
    JoinTwo(h, s.address, TailFields(lib, s));
  }

  /** No character before the first one that IPv6 text cannot hold is a closing bracket. */
  predicate LeavesIpv6(r: string, e: nat) {
    e < |r| && !Ipv6Char(r[e]) && forall i | 0 <= i <= e :: r[i] != ']'
  }

  /** A tail begins with digits, a colon and `true` or `false`; it leaves IPv6 text before any bracket. */
  lemma TailLeavesIpv6(lib: Library, s: InnerMap)
    ensures exists e :: LeavesIpv6(Rejoin(TailFields(lib, s), ':'), e)
  {
    JoinedLeavesIpv6(TailFields(lib, s), s.isHttp2);
  }

  lemma JoinedLeavesIpv6(f: seq<string>, flag: bool)
    requires |f| > 2 && f[1] == Boolean(flag)
    requires forall c | c in f[0] :: '0' <= c <= '9'
    ensures LeavesIpv6(Rejoin(f, ':'), |f[0]| + (if flag then 1 else 3))
  {
    var x := [':'] + Rejoin(f[2..], ':');
    assert f == [f[0], f[1]] + f[2..];
    JoinTwo(f[0], f[1], f[2..]);
    var rest := f[1] + [':'] + Rejoin(f[2..], ':');
    assert rest == Boolean(flag) + x;
    DigitsThenFlag(f[0], flag, rest, x);
  }

  lemma DigitsThenFlag(digits: string, flag: bool, rest: string, x: string)
    requires forall c | c in digits :: '0' <= c <= '9'
    requires rest == Boolean(flag) + x
    ensures LeavesIpv6(digits + [':'] + rest, |digits| + (if flag then 1 else 3))
  {
    var r := digits + [':'] + rest;
    assert rest[..|Boolean(flag)|] == Boolean(flag);
    forall i | 0 <= i < |digits| ensures r[i] != ']' {
      assert r[i] in digits;
    }
    assert forall i | |digits| < i < |r| :: r[i] == rest[i - |digits| - 1];
  }

  /** Text that leaves IPv6 characters cannot turn a colon-free address into a bracketed one. */
  lemma AddressKindsDiffer(a: string, r: string, e: nat, b: string, y: string)
    requires ':' !in a
    requires LeavesIpv6(r, e)
    requires BracketedIpv6(b) && ':' in b
    ensures a + [':'] + r != b + y
  {
    var w, v := a + [':'] + r, b + y;
    assert forall i | 0 <= i < |r| :: w[|a| + 1 + i] == r[i];
    assert forall i | 0 <= i < |a| :: w[i] == a[i];
    assert forall i | 0 <= i < |b| :: v[i] == b[i];
    var k :| 0 <= k < |b| && b[k] == ':';
    assert v[k] == ':' && v[|b| - 1] == ']';
  }

  /** Two unambiguous ids are equal exactly for the same host and the same recorded fields. */
  lemma BackendIdInjective(lib: Library, h: string, s: InnerMap, g: string, t: InnerMap)
    requires Unambiguous(h, s) && Unambiguous(g, t)
    ensures BackendId(lib, h, s) == BackendId(lib, g, t) <==> h == g && SameIdentity(s, t)
  {
    var sTail, tTail := Rejoin(TailFields(lib, s), ':'), Rejoin(TailFields(lib, t), ':');
    IdPieces(lib, h, s);
    IdPieces(lib, g, t);
    if BackendId(lib, h, s) == BackendId(lib, g, t) {
      CutAtSeparator(h, s.address + [':'] + sTail, g, t.address + [':'] + tTail, ':');
      TailLeavesIpv6(lib, s);
      TailLeavesIpv6(lib, t);
      var e :| LeavesIpv6(sTail, e);
      var f :| LeavesIpv6(tTail, f);
      AddressesCut(s.address, sTail, e, t.address, tTail, f);
      TailInjective(lib, s, t);
    }
  }

  lemma AddressesCut(a: string, aTail: string, e: nat, b: string, bTail: string, f: nat)
    requires ':' !in a || BracketedIpv6(a)
    requires ':' !in b || BracketedIpv6(b)
    requires LeavesIpv6(aTail, e) && LeavesIpv6(bTail, f)
    requires a + [':'] + aTail == b + [':'] + bTail
    ensures a == b && aTail == bTail
  {
    assert a + [':'] + aTail == a + ([':'] + aTail);
    assert b + [':'] + bTail == b + ([':'] + bTail);
    if ':' !in a && ':' !in b {
      CutAtSeparator(a, aTail, b, bTail, ':');
    } else if ':' !in a {
      AddressKindsDiffer(a, aTail, e, b, [':'] + bTail);
    } else if ':' !in b {
      AddressKindsDiffer(b, bTail, f, a, [':'] + aTail);
    } else {
      BracketsCut(a, [':'] + aTail, b, [':'] + bTail);
      SamePrefix([':'], aTail, bTail);
    }
  }

  lemma BracketsCut(a: string, x: string, b: string, y: string)
    requires BracketedIpv6(a) && BracketedIpv6(b)
    requires a + x == b + y
    ensures a == b && x == y
  {
    var a', b' := a[..|a| - 1], b[..|b| - 1];
    assert a == a' + [']'] && b == b' + [']'];
    CutAtSeparator(a', x, b', y, ']');
  }
}
