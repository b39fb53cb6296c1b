/**
 * `_build_outbound_map`: for every extension that some inbound route points
 * at, the route whose DID it presents as caller ID when calling out, and the
 * P-Asserted-Identity user of its SIP peer.
 *
 * Python dicts iterate in insertion order and the generator's outbound loops
 * depend on it, so the dicts built here are `OrderedMap`s: the keys in
 * insertion order beside the map itself.
 */
module OutboundMap {
  import opened Wrappers
  import opened Records

  predicate Distinct(keys: seq<string>)
  {
    forall i, j :: 0 <= i < j < |keys| ==> keys[i] != keys[j]
  }

  /** An insertion-ordered dict with string keys. */
  datatype OrderedMap<V> = OrderedMap(keys: seq<string>, entries: map<string, V>)
  {
    ghost predicate Valid()
    {
      Distinct(keys) && forall k :: k in entries <==> k in keys
    }
  }

  /** What the generator needs of one extension's outbound identity. */
  datatype OutboundEntry = OutboundEntry(route: InboundRoute, pai: Option<string>)

  // ---------------------------------------------------------------------
  // Specification

  /** `peer_map`: peers by extension, the last peer of an extension winning. */
  function PeerMapOf(peers: seq<SipPeer>): map<string, SipPeer>
  {
    if peers == [] then map[]
    else PeerMapOf(peers[..|peers| - 1])[peers[|peers| - 1].extension := peers[|peers| - 1]]
  }

  /** The routes' destination extensions, each once, in order of first appearance. */
  function DestinationOrder(routes: seq<InboundRoute>): seq<string>
  {
    if routes == [] then []
    else
      var keys := DestinationOrder(routes[..|routes| - 1]);
      var ext := routes[|routes| - 1].destinationExtension;
      if ext in keys then keys else keys + [ext]
  }

  /** The routes to `ext`, in input order. */
  function RoutesFor(routes: seq<InboundRoute>, ext: string): (r: seq<InboundRoute>)
    ensures forall x :: x in r <==> x in routes && x.destinationExtension == ext
  {
    if routes == [] then []
    else
      var last := routes[|routes| - 1];
      RoutesFor(routes[..|routes| - 1], ext) + (if last.destinationExtension == ext then [last] else [])
  }

  /** The head of `RoutesFor(routes, ext)` is the earliest route to `ext`. */
  lemma {:induction false} RoutesForFirst(routes: seq<InboundRoute>, ext: string)
    ensures var r := RoutesFor(routes, ext);
            |r| > 0 ==> exists i :: 0 <= i < |routes| && r[0] == routes[i]
                                  && routes[i].destinationExtension == ext
                                  && forall j :: 0 <= j < i ==> routes[j].destinationExtension != ext
    decreases |routes|
  {
    if routes != [] {
      var front := routes[..|routes| - 1];
      var earlier := RoutesFor(front, ext);
      var r := RoutesFor(routes, ext);
      if |earlier| > 0 {
        RoutesForFirst(front, ext);
        var i :| 0 <= i < |front| && earlier[0] == front[i] && front[i].destinationExtension == ext
                 && forall j :: 0 <= j < i ==> front[j].destinationExtension != ext;
        assert r[0] == earlier[0];
        assert routes[i] == front[i];
        assert forall j :: 0 <= j < i ==> routes[j] == front[j];
      } else if |r| > 0 {
        forall j | 0 <= j < |routes| - 1
          ensures routes[j].destinationExtension != ext
        {
          assert routes[j] == front[j] && front[j] in front;
        }
        assert r[0] == routes[|routes| - 1];
      }
    }
  }

  /** The position of the first route with DID `did`, if any. */
  function FindDid(rs: seq<InboundRoute>, did: string): (r: Option<nat>)
    ensures r.Some? ==> r.value < |rs| && rs[r.value].did == did
                         && forall j :: 0 <= j < r.value ==> rs[j].did != did
    ensures r.None? ==> forall j :: 0 <= j < |rs| ==> rs[j].did != did
  {
    if rs == [] then None
    else if rs[0].did == did then Some(0)
    else
      match FindDid(rs[1..], did)
      case Some(j) => Some(j + 1)
      case None => None
  }

  /**
   * The route an extension presents: the first of its routes whose DID is the
   * peer's caller ID, when the peer has a non-empty one and such a route
   * exists, and its first route otherwise.
   */
  function SelectRoute(rs: seq<InboundRoute>, peer: Option<SipPeer>): InboundRoute
    requires rs != []
  {
    if peer.Some? && IsTruthy(peer.value.outboundCid) then
      match FindDid(rs, peer.value.outboundCid.value)
      case Some(j) => rs[j]
      case None => rs[0]
    else rs[0]
  }

  function EntryFor(routes: seq<InboundRoute>, peerMap: map<string, SipPeer>, ext: string): OutboundEntry
    requires RoutesFor(routes, ext) != []
  {
    var peer := Get(peerMap, ext);
    OutboundEntry(SelectRoute(RoutesFor(routes, ext), peer), if peer.Some? then peer.value.pai else None)
  }

  /** The map `_build_outbound_map(routes, peers)` returns. */
  function OutboundMapOf(routes: seq<InboundRoute>, peers: seq<SipPeer>): (r: OrderedMap<OutboundEntry>)
    ensures r.Valid()
  {
    var keys := DestinationOrder(routes);
    DestinationOrderFacts(routes);
    KeysHaveRoutes(routes);
    var entries := map e | e in keys :: EntryFor(routes, PeerMapOf(peers), e);
    assert forall k :: k in entries <==> k in keys;
    OrderedMap(keys, entries)
  }

  // ---------------------------------------------------------------------
  // The builder

  /** The `peer_map` loop. */
  method BuildPeerMap(peers: seq<SipPeer>) returns (peerMap: map<string, SipPeer>)
    ensures peerMap == PeerMapOf(peers)
  {
    peerMap := map[];
    for i := 0 to |peers|
      invariant peerMap == PeerMapOf(peers[..i])
    {
      assert peers[..i + 1][..i] == peers[..i];
      peerMap := peerMap[peers[i].extension := peers[i]];
    }
    assert peers[..|peers|] == peers;
  }

  /** The `routes_by_ext` loop: routes per extension, keys in order of first appearance. */
  method GroupRoutes(routes: seq<InboundRoute>)
    returns (extOrder: seq<string>, routesByExt: map<string, seq<InboundRoute>>)
    ensures extOrder == DestinationOrder(routes)
    ensures forall e :: e in routesByExt <==> e in extOrder
    ensures forall e :: e in routesByExt ==> routesByExt[e] == RoutesFor(routes, e)
  {
    extOrder := [];
    routesByExt := map[];
    for i := 0 to |routes|
      invariant extOrder == DestinationOrder(routes[..i])
      invariant forall e :: e in routesByExt <==> e in extOrder
      invariant forall e :: e in routesByExt ==> routesByExt[e] == RoutesFor(routes[..i], e)
    {
      assert routes[..i + 1][..i] == routes[..i];
      var ext := routes[i].destinationExtension;
      if ext !in routesByExt {
        extOrder := extOrder + [ext];
        routesByExt := routesByExt[ext := []];
        KeysHaveRoutes(routes[..i]);
      }
      routesByExt := routesByExt[ext := routesByExt[ext] + [routes[i]]];
    }
    assert routes[..|routes|] == routes;
  }

  /** The search for the route carrying the peer's caller ID, with `break`. */
  method PickRoute(extRoutes: seq<InboundRoute>, peer: Option<SipPeer>) returns (selected: InboundRoute)
    requires extRoutes != []
    ensures selected == SelectRoute(extRoutes, peer)
  {
    selected := extRoutes[0];
    if peer.Some? && IsTruthy(peer.value.outboundCid) {
      var cid := peer.value.outboundCid.value;
      var j := 0;
      while j < |extRoutes|
        invariant 0 <= j <= |extRoutes|
        invariant forall t :: 0 <= t < j ==> extRoutes[t].did != cid
        invariant selected == extRoutes[0]
      {
        if extRoutes[j].did == cid {
          selected := extRoutes[j];
          FindDidFirst(extRoutes, cid, j);
          break;
        }
        j := j + 1;
      }
    }
  }

  method BuildOutboundMap(routes: seq<InboundRoute>, peers: seq<SipPeer>)
    returns (outbound: OrderedMap<OutboundEntry>)
    ensures outbound == OutboundMapOf(routes, peers)
  {
    var peerMap := BuildPeerMap(peers);
    var extOrder, routesByExt := GroupRoutes(routes);
    var entries := SelectEntries(routes, peerMap, extOrder, routesByExt);
    outbound := OrderedMap(extOrder, entries);
    OutboundEntriesAgree(routes, peers, outbound);
  }

  /**
   * The selection loop: one entry per grouped extension, inserted in the
   * grouping's order, so the result iterates as `extOrder` does.
   */
  method SelectEntries(routes: seq<InboundRoute>, peerMap: map<string, SipPeer>,
                       extOrder: seq<string>, routesByExt: map<string, seq<InboundRoute>>)
    returns (entries: map<string, OutboundEntry>)
    requires extOrder == DestinationOrder(routes)
    requires forall e :: e in routesByExt <==> e in extOrder
    requires forall e :: e in routesByExt ==> routesByExt[e] == RoutesFor(routes, e)
    ensures forall e :: e in entries <==> e in extOrder
    ensures forall e :: e in entries ==>
              RoutesFor(routes, e) != [] && entries[e] == EntryFor(routes, peerMap, e)
  {
    KeysHaveRoutes(routes);
    entries := map[];
    for k := 0 to |extOrder|
      invariant forall e :: e in entries <==> e in extOrder[..k]
      invariant forall e :: e in entries ==>
                  RoutesFor(routes, e) != [] && entries[e] == EntryFor(routes, peerMap, e)
    {
      var ext := extOrder[k];
      var extRoutes := routesByExt[ext];
      var peer := Get(peerMap, ext);
      var selected := PickRoute(extRoutes, peer);
      entries := entries[ext := OutboundEntry(selected, if peer.Some? then peer.value.pai else None)];
      assert extOrder[..k + 1] == extOrder[..k] + [ext];
    }
    assert extOrder[..|extOrder|] == extOrder;
  }

  lemma OutboundEntriesAgree(routes: seq<InboundRoute>, peers: seq<SipPeer>, m: OrderedMap<OutboundEntry>)
    requires m.keys == DestinationOrder(routes)
    requires forall e :: e in m.entries <==> e in m.keys
    requires forall e :: e in m.entries ==>
               RoutesFor(routes, e) != [] && m.entries[e] == EntryFor(routes, PeerMapOf(peers), e)
    ensures m == OutboundMapOf(routes, peers)
  {
    assert m.entries == OutboundMapOf(routes, peers).entries;
  }

  /** A route with the DID, preceded by none, is the one `FindDid` picks. */
  lemma FindDidFirst(rs: seq<InboundRoute>, did: string, j: nat)
    requires j < |rs| && rs[j].did == did
    requires forall t :: 0 <= t < j ==> rs[t].did != did
    ensures FindDid(rs, did) == Some(j)
  {
    match FindDid(rs, did)
    case Some(f) =>
      assert !(j < f) && !(f < j);
    case None =>
  }

  // ---------------------------------------------------------------------
  // Properties

  /** An extension is a key exactly when it has at least one route. */
  lemma {:induction false} KeysHaveRoutes(routes: seq<InboundRoute>)
    ensures forall e :: e in DestinationOrder(routes) <==> RoutesFor(routes, e) != []
    decreases |routes|
  {
    if routes != [] {
      KeysHaveRoutes(routes[..|routes| - 1]);
    }
  }

  /**
   * The outbound keys are the distinct destination extensions: each once,
   * and an extension is a key exactly when some route points at it.
   */
  lemma {:induction false} DestinationOrderFacts(routes: seq<InboundRoute>)
    ensures Distinct(DestinationOrder(routes))
    ensures forall e :: e in DestinationOrder(routes) <==> exists r :: r in routes && r.destinationExtension == e
    decreases |routes|
  {
    KeysHaveRoutes(routes);
    var keys := DestinationOrder(routes);
    forall e | e in keys
      ensures exists r :: r in routes && r.destinationExtension == e
    {
      assert RoutesFor(routes, e)[0] in RoutesFor(routes, e);
    }
    forall e, r | r in routes && r.destinationExtension == e
      ensures e in keys
    {
      assert r in RoutesFor(routes, e);
    }
    if routes != [] {
      var pre := routes[..|routes| - 1];
      DestinationOrderFacts(pre);
      var preKeys := DestinationOrder(pre);
      var ext := routes[|routes| - 1].destinationExtension;
      if ext !in preKeys {
        assert keys == preKeys + [ext];
        assert Distinct(preKeys);
        forall i, j | 0 <= i < j < |keys|
          ensures keys[i] != keys[j]
        {
          assert keys[i] == preKeys[i] && preKeys[i] in preKeys;
          if j < |preKeys| {
            assert keys[j] == preKeys[j];
          }
        }
      }
    }
  }

  /**
   * Keys come in order of first appearance: when `keys[i]` precedes
   * `keys[j]`, a route to `keys[i]` comes before every route to `keys[j]`.
   */
  lemma {:induction false} FirstAppearanceOrder(routes: seq<InboundRoute>, i: nat, j: nat)
    requires i < j < |DestinationOrder(routes)|
    ensures var keys := DestinationOrder(routes);
            exists p :: 0 <= p < |routes| && routes[p].destinationExtension == keys[i]
              && forall q :: 0 <= q <= p ==> routes[q].destinationExtension != keys[j]
    decreases |routes|
  {
    var pre := routes[..|routes| - 1];
    var keys := DestinationOrder(routes);
    var preKeys := DestinationOrder(pre);
    assert forall t :: 0 <= t < |pre| ==> pre[t] == routes[t];
    if j < |preKeys| {
      FirstAppearanceOrder(pre, i, j);
      var p :| 0 <= p < |pre| && pre[p].destinationExtension == preKeys[i]
               && forall q :: 0 <= q <= p ==> pre[q].destinationExtension != preKeys[j];
      assert routes[p].destinationExtension == keys[i];
    } else {
      // keys[j] is the newly added extension, absent from every earlier route.
      DestinationOrderFacts(pre);
      assert keys[i] == preKeys[i] && preKeys[i] in preKeys;
      var r :| r in pre && r.destinationExtension == keys[i];
      var p :| 0 <= p < |pre| && pre[p] == r;
      assert keys[j] !in preKeys;
      forall q | 0 <= q <= p
        ensures routes[q].destinationExtension != keys[j]
      {
        assert routes[q] == pre[q] && pre[q] in pre;
      }
      assert routes[p].destinationExtension == keys[i];
    }
  }

  /** The peer map holds, for each extension, the last peer with that extension. */
  lemma {:induction false} PeerMapLastWins(peers: seq<SipPeer>, ext: string)
    ensures ext in PeerMapOf(peers) <==> exists i :: 0 <= i < |peers| && peers[i].extension == ext
    ensures ext in PeerMapOf(peers) ==>
              exists i :: 0 <= i < |peers| && PeerMapOf(peers)[ext] == peers[i]
                && peers[i].extension == ext
                && forall j :: i < j < |peers| ==> peers[j].extension != ext
    decreases |peers|
  {
    if peers != [] {
      var pre := peers[..|peers| - 1];
      var n := |peers| - 1;
      PeerMapLastWins(pre, ext);
      assert forall i :: 0 <= i < n ==> pre[i] == peers[i];
      if peers[n].extension != ext && ext in PeerMapOf(peers) {
        var i :| 0 <= i < |pre| && PeerMapOf(pre)[ext] == pre[i] && pre[i].extension == ext
                 && forall j :: i < j < |pre| ==> pre[j].extension != ext;
        assert peers[i] == pre[i];
      }
    }
  }

  /**
   * The route chosen for an outbound key is one of its routes. When its peer
   * has a non-empty caller ID that some of those routes carry, it is the first
   * of them, by input order; otherwise it is the key's first route. The PAI
   * user is the peer's, or none without a peer.
   */
  lemma SelectedRoute(routes: seq<InboundRoute>, peers: seq<SipPeer>, ext: string)
    requires ext in OutboundMapOf(routes, peers).entries
    ensures var entry := OutboundMapOf(routes, peers).entries[ext];
            var rs := RoutesFor(routes, ext);
            var peer := Get(PeerMapOf(peers), ext);
            && rs != []
            && entry.route in rs
            && entry.route.destinationExtension == ext
            && (if peer.Some? && IsTruthy(peer.value.outboundCid)
                   && (exists r :: r in rs && r.did == peer.value.outboundCid.value)
                then
                  exists j :: 0 <= j < |rs| && rs[j] == entry.route
                    && entry.route.did == peer.value.outboundCid.value
                    && forall t :: 0 <= t < j ==> rs[t].did != entry.route.did
                else entry.route == rs[0])
            && entry.pai == (if peer.Some? then peer.value.pai else None)
  {
    var rs := RoutesFor(routes, ext);
    var peer := Get(PeerMapOf(peers), ext);
    KeysHaveRoutes(routes);
    if peer.Some? && IsTruthy(peer.value.outboundCid) {
      var cid := peer.value.outboundCid.value;
      match FindDid(rs, cid)
      case Some(j) =>
      case None =>
        assert forall r :: r in rs ==> r.did != cid;
    }
  }

  /**
   * `RoutesFor` keeps input order: its `j`-th route sits at some position `p`
   * of the input, and every earlier route to `ext` is among its first `j`.
   */
  lemma {:induction false} RoutesForOrder(routes: seq<InboundRoute>, ext: string, j: nat)
    requires j < |RoutesFor(routes, ext)|
    ensures var rs := RoutesFor(routes, ext);
            exists p :: 0 <= p < |routes| && routes[p] == rs[j]
              && forall q :: 0 <= q < p && routes[q].destinationExtension == ext ==> routes[q] in rs[..j]
    decreases |routes|
  {
    var rs := RoutesFor(routes, ext);
    var front := routes[..|routes| - 1];
    var earlier := RoutesFor(front, ext);
    assert rs[..|earlier|] == earlier;
    if j < |earlier| {
      RoutesForOrder(front, ext, j);
      var p :| 0 <= p < |front| && front[p] == earlier[j]
               && forall q :: 0 <= q < p && front[q].destinationExtension == ext ==> front[q] in earlier[..j];
      assert rs[..j] == earlier[..j];
      assert routes[p] == front[p];
      assert forall q :: 0 <= q < p ==> routes[q] == front[q];
    } else {
      var p := |routes| - 1;
      assert rs[j] == routes[p];
      forall q | 0 <= q < p && routes[q].destinationExtension == ext
        ensures routes[q] in rs[..j]
      {
        assert routes[q] == front[q] && front[q] in front;
      }
    }
  }

  /** A route of `RoutesFor` whose DID no earlier one has: no earlier input route to `ext` has it. */
  lemma FirstWithDidInInput(routes: seq<InboundRoute>, ext: string, j: nat, did: string)
    requires j < |RoutesFor(routes, ext)|
    requires forall t :: 0 <= t < j ==> RoutesFor(routes, ext)[t].did != did
    ensures exists p :: 0 <= p < |routes| && routes[p] == RoutesFor(routes, ext)[j]
              && forall q :: 0 <= q < p && routes[q].destinationExtension == ext ==> routes[q].did != did
  {
    var rs := RoutesFor(routes, ext);
    RoutesForOrder(routes, ext, j);
    var p :| 0 <= p < |routes| && routes[p] == rs[j]
             && forall q :: 0 <= q < p && routes[q].destinationExtension == ext ==> routes[q] in rs[..j];
    forall q | 0 <= q < p && routes[q].destinationExtension == ext
      ensures routes[q].did != did
    {
      var t :| 0 <= t < |rs[..j]| && rs[..j][t] == routes[q];
      assert rs[t] == routes[q];
    }
  }

  /**
   * A route picked from `RoutesFor(routes, ext)` as `SelectRoute` picks it,
   * for the caller ID `cid` (None when it is not truthy), located in the input.
   */
  lemma PickedInInput(routes: seq<InboundRoute>, ext: string, route: InboundRoute, cid: Option<string>)
    requires RoutesFor(routes, ext) != []
    requires var rs := RoutesFor(routes, ext);
             if cid.Some? && exists r :: r in rs && r.did == cid.value then
               exists j :: 0 <= j < |rs| && rs[j] == route && route.did == cid.value
                 && forall t :: 0 <= t < j ==> rs[t].did != route.did
             else route == rs[0]
    ensures var matched := cid.Some? && exists r :: r in routes && r.destinationExtension == ext && r.did == cid.value;
            exists p :: 0 <= p < |routes| && routes[p] == route && routes[p].destinationExtension == ext
              && (matched ==> route.did == cid.value)
              && forall q :: 0 <= q < p && routes[q].destinationExtension == ext ==>
                   matched && routes[q].did != route.did
  {
    var rs := RoutesFor(routes, ext);
    if cid.Some? && exists r :: r in rs && r.did == cid.value {
      var j :| 0 <= j < |rs| && rs[j] == route && route.did == cid.value
               && forall t :: 0 <= t < j ==> rs[t].did != route.did;
      FirstWithDidInInput(routes, ext, j, route.did);
      assert rs[j] in rs;
    } else {
      RoutesForFirst(routes, ext);
    }
  }

  /**
   * The selected route stated over the input routes: some input position
   * holds it; with a matching caller ID no earlier route to `ext` has its
   * DID, and otherwise no earlier route goes to `ext` at all.
   */
  lemma SelectedRouteInInput(routes: seq<InboundRoute>, peers: seq<SipPeer>, ext: string)
    requires ext in OutboundMapOf(routes, peers).entries
    ensures var entry := OutboundMapOf(routes, peers).entries[ext];
            var peer := Get(PeerMapOf(peers), ext);
            var matched := peer.Some? && IsTruthy(peer.value.outboundCid)
                           && exists r :: r in routes && r.destinationExtension == ext
                                          && r.did == peer.value.outboundCid.value;
            exists p :: 0 <= p < |routes| && routes[p] == entry.route && routes[p].destinationExtension == ext
              && (matched ==> entry.route.did == peer.value.outboundCid.value)
              && forall q :: 0 <= q < p && routes[q].destinationExtension == ext ==>
                   matched && routes[q].did != entry.route.did
  {
    var peer := Get(PeerMapOf(peers), ext);
    SelectedRoute(routes, peers, ext);
    var cid := if peer.Some? && IsTruthy(peer.value.outboundCid) then peer.value.outboundCid else None;
    PickedInInput(routes, ext, OutboundMapOf(routes, peers).entries[ext].route, cid);
  }
}
