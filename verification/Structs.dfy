/** The shared entities: backends, the upstream tables and the maps that hold them. */
module Structs {
  import opened Wrappers

  const USIZE_RANGE := 0x1_0000_0000_0000_0000

  type u16 = x: int | 0 <= x < 0x1_0000
  type u32 = x: int | 0 <= x < 0x1_0000_0000
  type u64 = x: int | 0 <= x < 0x1_0000_0000_0000_0000
  type usize = x: int | 0 <= x < USIZE_RANGE
  type isize = x: int | -0x8000_0000_0000_0000 <= x < 0x8000_0000_0000_0000

  datatype InnerAuth = InnerAuth(authType: string, authCred: string)

  /** One backend. Equality is field by field, as the derived `Eq` and `Hash` have it. */
  datatype InnerMap = InnerMap(
    address: string,
    port: u16,
    isSsl: bool,
    isHttp2: bool,
    toHttps: bool,
    rateLimit: Option<isize>,
    x4xxLimit: Option<u32>,
    healthcheck: Option<bool>,
    redirectTo: Option<string>,
    authorization: Option<InnerAuth>)

  /** The backends of one path and the round-robin counter beside them. */
  datatype ServerList = ServerList(servers: seq<InnerMap>, index: usize)

  type PathMap = map<string, ServerList>
  type Table = map<string, PathMap>

  /** `DashMap<host, DashMap<path, (servers, counter)>>`, shared by reference. */
  class UpstreamsDashMap {
    var hosts: Table

    constructor ()
      ensures hosts == map[]
    {
      hosts := map[];
    }
  }

  /** `DashMap<hashed id, backend>`, shared by reference. */
  class UpstreamsIdMap {
    var entries: map<string, InnerMap>

    constructor ()
      ensures entries == map[]
    {
      entries := map[];
    }
  }

  type HeaderList = seq<(string, string)>
  type HeaderPaths = map<string, HeaderList>

  /** `DashMap<host, DashMap<path, headers>>`, shared by reference. */
  class Headers {
    var hosts: map<string, HeaderPaths>

    constructor ()
      ensures hosts == map[]
    {
      hosts := map[];
    }
  }

  datatype Extraparams = Extraparams(
    toHttps: Option<bool>,
    stickySessions: Option<u64>,
    authentication: Option<InnerAuth>,
    rateLimit: Option<isize>,
    x4xxLimit: Option<u32>)

  /** The server `s` stands in some list of host `h`. */
  ghost predicate Listed(t: Table, h: string, s: InnerMap) {
    exists p :: h in t && p in t[h] && s in t[h][p].servers
  }
}
