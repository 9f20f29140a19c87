/** The proxy object whose tables every part of the system shares. */
module LoadBalancer {
  import opened Structs
  import opened Identity

  /** `REVERSE_STORE`: ids to their digests and digests back to ids. */
  class ReverseStore {
    var entries: map<string, string>

    constructor ()
      ensures entries == map[]
    {
      entries := map[];
    }
  }

  class LB {
    const lib: Library
    const umpUpst: UpstreamsDashMap
    const umpFull: UpstreamsDashMap
    const umpById: UpstreamsIdMap
    const clientHeaders: Headers
    const serverHeaders: Headers
    const reverseStore: ReverseStore
    var extraparams: Extraparams

    /** The shared maps are distinct objects. */
    ghost predicate Valid() {
      umpUpst != umpFull && clientHeaders != serverHeaders
    }

    constructor (lib: Library, extraparams: Extraparams)
      ensures Valid() && fresh(umpUpst) && fresh(umpFull) && fresh(umpById)
      ensures fresh(clientHeaders) && fresh(serverHeaders) && fresh(reverseStore)
      ensures this.lib == lib && this.extraparams == extraparams
      ensures umpUpst.hosts == map[] && umpFull.hosts == map[] && umpById.entries == map[]
      ensures clientHeaders.hosts == map[] && serverHeaders.hosts == map[] && reverseStore.entries == map[]
    {
      this.lib := lib;
      umpUpst := new UpstreamsDashMap();
      umpFull := new UpstreamsDashMap();
      umpById := new UpstreamsIdMap();
      clientHeaders := new Headers();
      serverHeaders := new Headers();
      reverseStore := new ReverseStore();
      this.extraparams := extraparams;
    }
  }
}
