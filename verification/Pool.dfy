/** HTTPPool of cache/http.go: the peers of one node and the choice of a peer. */
module Pool {
  import opened Wrappers
  import opened Ring

  const DEFAULT_REPLICAS := 50
  const BASE_PATH := "/cache/"

  /** The peer a node forwards a key to; none when it owns the key itself. */
  ghost function Pick(c: Config, self: string, peers: seq<string>, key: string): Option<string> {
    var owner := Owner(c, peers, key);
    if owner != "" && owner != self then Some(owner) else None
  }

  class HTTPPool {
    const self: string
    const config: Config
    var peers: Map?
    var httpGetters: map<string, string> // peer to the base URL of its getter

    ghost predicate Valid()
      reads this, peers
    {
      peers != null ==>
        && peers.Valid() && peers.config == config
        && (forall p :: p in peers.added ==> p in httpGetters && httpGetters[p] == p + BASE_PATH)
    }

    constructor (self: string, hash: string -> nat)
      ensures Valid() && peers == null && this.self == self
      ensures config == Config(hash, DEFAULT_REPLICAS)
    {
      this.self, config := self, Config(hash, DEFAULT_REPLICAS);
      peers, httpGetters := null, map[];
    }

    method Set(list: seq<string>)
      modifies this
      ensures Valid() && peers != null && fresh(peers) && peers.added == list
    {
      var ring := new Map(config);
      ring.Add(list);
      peers := ring;
      httpGetters := map[];
      for i := 0 to |list|
        invariant peers == ring && ring.Valid() && ring.config == config && ring.added == list
        invariant forall j :: 0 <= j < i ==> list[j] in httpGetters && httpGetters[list[j]] == list[j] + BASE_PATH
      {
        httpGetters := httpGetters[list[i] := list[i] + BASE_PATH];
      }
    }

    /** The getter of the picked peer always exists and points at that peer. */
    method PickPeer(key: string) returns (getter: Option<string>)
      requires Valid() && peers != null
      ensures getter.None? <==> Pick(config, self, peers.added, key).None?
      ensures getter.Some? ==> getter.value == Pick(config, self, peers.added, key).value + BASE_PATH
    {
      var peer := peers.Get(key);
      if peer != "" && peer != self {
        NonEmptyOwnerIsAPeer(config, peers.added, key);
        getter := Some(httpGetters[peer]);
      } else {
        getter := None;
      }
    }
  }

  lemma NonEmptyOwnerIsAPeer(c: Config, peers: seq<string>, key: string)
    requires Owner(c, peers, key) != ""
    ensures Owner(c, peers, key) in peers
  {
    CeilingExists(Points(c, peers), c.hash(key));
    var p :| IsCeiling(Points(c, peers), c.hash(key), p);
    OwnerIs(c, peers, key, p);
  }
}
