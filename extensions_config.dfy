/**
 * `generate_extensions_config`: the whole extensions.conf, in a fixed order.
 *
 *   1. a header, the `[general]` settings, `[globals]`, and `[internal]` with
 *      the generic `_1XXX` pattern, dialled without forwards for 20 seconds;
 *   2. one block per extension with forwards or a ring timeout other than
 *      20 seconds, in increasing order;
 *   3. when some extension may call out, the `_0X.` and `_+X.` dispatchers,
 *      each jumping to one `out-<ext>` target per extension that presents
 *      the selected DID and dials through the route's trunk endpoint;
 *   4. voicemail access (`*98`), direct voicemail (`_*97XXXX`), echo (`*43`);
 *   5. `[from-trunk]`: the `s` fallback that recovers the DID from the To
 *      header, one answered block per inbound route (or a `_X.` hang-up when
 *      there are none), and the `_[+0-9].` catch-all.
 *
 * The generator grows its text by `+=`; the model collects the finished
 * lines as a `seq<Line>` and renders them once at the end. The dial logic
 * comes back without a final newline, and the `+=` after it finishes its
 * last line.
 */
module ExtensionsConfig {
  import opened Wrappers
  import opened Records
  import opened Decimal
  import opened StringOrder
  import opened DialplanSyntax
  import opened ForwardMap
  import DL = DialLogic
  import opened OutboundMap
  import opened RingTimeout

  /** Ring time of an outbound trunk dial. */
  const OutboundRingTime: int := 120

  // The contexts the file opens and the patterns of its fixed extensions.
  const GeneralName: string := "general"
  const GlobalsName: string := "globals"
  const InternalName: string := "internal"
  const FromTrunkName: string := "from-trunk"
  const LocalPattern: string := "_1XXX"
  const DomesticPattern: string := "_0X."
  const InternationalPattern: string := "_+X."
  const VoicemailAccessExten: string := "*98"
  const DirectVoicemailPattern: string := "_*97XXXX"
  const EchoTestExten: string := "*43"
  const FallbackExten: string := "s"
  const NoRoutesPattern: string := "_X."
  const CatchAllPattern: string := "_[+0-9]."

  // The fixed texts of the file: comments, `NoOp` notes and the
  // expressions of the `s` fallback.
  const TargetNote: string := "Outbound via trunk-ep-"
  const CidNote: string := " with CID "
  const HeaderNote: string := "Auto-generated dialplan configuration"
  const GeneratorNote: string := "Generated by Asterisk PBX GUI"
  const InternalNote: string := "Internal Extension Dialing (PJSIP)"
  const InternalCallNote: string := "Internal Call from ${CALLERID(all)} to ${EXTEN}"
  const OutboundNote: string := "=== Outbound calling via assigned trunks ==="
  const OutboundCallNote: string := "Outbound call from ${CHANNEL(endpoint)} to ${EXTEN}"
  const NoRouteNote: string := "No outbound route for this extension"
  const InternationalNote: string := "International with + prefix"
  const InternationalCallNote: string := "Outbound intl call from ${CHANNEL(endpoint)} to ${EXTEN}"
  const VoicemailAccessNote: string := "Voicemail access - dial *98 to check voicemail"
  const VoicemailAccessCallNote: string := "Voicemail Access for ${CALLERID(num)}"
  const DirectVoicemailNote: string := "Voicemail direct - dial *97 + extension"
  const DirectVoicemailCallNote: string := "Direct Voicemail for ${EXTEN:3}"
  const FromTrunkNote: string := "Inbound DID routing - auto-generated"
  const DidFallbackNote: string := "Extract DID from To header when Request-URI has no user part"
  const NoDidCallNote: string := "Inbound call with no DID in Request-URI"
  const ReadToHeader: string := "${PJSIP_HEADER(read,To)}"
  const DidOfToHeader: string := "${CUT(CUT(TO_HDR,@,1),:,2)}"
  const ExtractedDidNote: string := "Extracted DID: ${DID}"
  const HasDid: string := "${LEN(${DID})} > 0"
  const ReenterWithDid: string := "from-trunk,${DID},1"
  const NoDidNote: string := "Could not extract DID from To header"
  const NoRoutesNote: string := "No inbound routes configured"
  const UnroutedCallNote: string := "Unrouted inbound call to ${EXTEN}"
  const CatchAllNote: string := "Catch-all for unmatched inbound calls"
  const UnmatchedCallNote: string := "Unmatched inbound DID ${EXTEN}"

  // ---------------------------------------------------------------------
  // Lookups built by the generator

  /** `trunk_map`: trunks by id, the last trunk of an id winning. */
  function TrunkMapOf(trunks: seq<SipTrunk>): map<int, SipTrunk>
  {
    if trunks == [] then map[]
    else TrunkMapOf(trunks[..|trunks| - 1])[trunks[|trunks| - 1].id := trunks[|trunks| - 1]]
  }

  method BuildTrunkMap(trunks: seq<SipTrunk>) returns (trunkMap: map<int, SipTrunk>)
    ensures trunkMap == TrunkMapOf(trunks)
  {
    trunkMap := map[];
    for i := 0 to |trunks|
      invariant trunkMap == TrunkMapOf(trunks[..i])
    {
      assert trunks[..i + 1][..i] == trunks[..i];
      trunkMap := trunkMap[trunks[i].id := trunks[i]];
    }
    assert trunks[..|trunks|] == trunks;
  }

  lemma {:induction false} TrunkMapLastWins(trunks: seq<SipTrunk>, id: int)
    ensures id in TrunkMapOf(trunks) <==> exists i :: 0 <= i < |trunks| && trunks[i].id == id
    ensures id in TrunkMapOf(trunks) ==>
              exists i :: 0 <= i < |trunks| && TrunkMapOf(trunks)[id] == trunks[i] && trunks[i].id == id
                && forall j :: i < j < |trunks| ==> trunks[j].id != id
    decreases |trunks|
  {
    if trunks != [] {
      var pre := trunks[..|trunks| - 1];
      var n := |trunks| - 1;
      TrunkMapLastWins(pre, id);
      if trunks[n].id != id {
        assert TrunkMapOf(trunks) == TrunkMapOf(pre)[trunks[n].id := trunks[n]];
        if id in TrunkMapOf(pre) {
          var i :| 0 <= i < |pre| && TrunkMapOf(pre)[id] == pre[i]
                   && forall j :: i < j < |pre| ==> pre[j].id != id;
          assert trunks[i] == pre[i];
        }
        forall i | 0 <= i < |trunks| && trunks[i].id == id
          ensures id in TrunkMapOf(pre)
        {
          assert pre[i] == trunks[i];
        }
      }
    }
  }

  /** The host of the P-Asserted-Identity URI: the trunk's SIP server, else `localhost`. */
  function PaiDomain(trunkMap: map<int, SipTrunk>, trunkId: int): (r: string)
    ensures trunkId in trunkMap ==> r == trunkMap[trunkId].sipServer
    ensures trunkId !in trunkMap ==> r == "localhost"
  {
    match Get(trunkMap, trunkId)
    case Some(t) => t.sipServer
    case None => "localhost"
  }

  /** The extensions that get a block of their own. */
  function OverrideExtensions(fwdMap: ForwardMap, ringTimeouts: map<string, int>): set<string>
  {
    fwdMap.Keys + set e | e in ringTimeouts && ringTimeouts[e] != DefaultRingTimeout
  }

  /** The loop over `ring_timeout_map.items()` that extends the forward-map keys. */
  method CollectOverrides(fwdMap: ForwardMap, ringTimeouts: map<string, int>)
    returns (overrides: set<string>)
    ensures overrides == OverrideExtensions(fwdMap, ringTimeouts)
  {
    overrides := fwdMap.Keys;
    var pending := ringTimeouts.Keys;
    while pending != {}
      invariant pending <= ringTimeouts.Keys
      invariant forall e :: e in overrides <==>
                  e in fwdMap || (e in ringTimeouts && e !in pending && ringTimeouts[e] != DefaultRingTimeout)
      decreases |pending|
    {
      var ext :| ext in pending;
      if ringTimeouts[ext] != DefaultRingTimeout {
        overrides := overrides + {ext};
      }
      pending := pending - {ext};
    }
    assert overrides == OverrideExtensions(fwdMap, ringTimeouts);
  }

  // ---------------------------------------------------------------------
  // The sections

  function SetCallerName(): Line
  {
    Same(Set("CALLERID(name)", "${CALLERID(name)}"))
  }

  /** The file comment and the `[general]` settings. */
  function GeneralContext(): seq<Line>
  {
    [Comment(HeaderNote), Comment(GeneratorNote), Blank,
     Context(GeneralName),
     Setting("static", "yes"), Setting("writeprotect", "no"), Setting("clearglobalvars", "no"), Blank]
  }

  function GlobalsContext(): seq<Line>
  {
    [Context(GlobalsName), Blank]
  }

  function InternalContext(): seq<Line>
  {
    [Context(InternalName), Comment(InternalNote)]
  }

  /** `_1XXX`: any four-digit extension starting with 1. */
  function InternalPattern(): seq<Line>
  {
    [Exten(LocalPattern, NoOp(InternalCallNote)), SetCallerName()]
  }

  function Preamble(): seq<Line>
  {
    GeneralContext() + GlobalsContext() + InternalContext() + InternalPattern()
  }

  /** The generic internal pattern rings the dialled extension, without forwards. */
  function InternalBlock(): seq<Line>
  {
    DL.DialLines("${EXTEN}", map[], DefaultRingTimeout, false) + [Blank]
  }

  function OverrideHeader(ext: string): seq<Line>
  {
    [Comment("Extension " + ext + " - custom rules"),
     Exten(ext, NoOp("Call to " + ext + " with forwarding")),
     SetCallerName()]
  }

  function OverrideBlock(ext: string, fwdMap: ForwardMap, ringTimeouts: map<string, int>): seq<Line>
  {
    OverrideHeader(ext) + DL.DialLines(ext, fwdMap, RingTimeoutFor(ringTimeouts, ext), false) + [Blank]
  }

  function OverrideBlocks(exts: seq<string>, fwdMap: ForwardMap, ringTimeouts: map<string, int>): seq<Line>
  {
    if exts == [] then []
    else OverrideBlocks(exts[..|exts| - 1], fwdMap, ringTimeouts)
         + OverrideBlock(exts[|exts| - 1], fwdMap, ringTimeouts)
  }

  function OutboundJump(ext: string): Line
  {
    Same(GotoIf(StrEquals("${CHANNEL(endpoint)}x", ext + "x"), "out-" + ext, None))
  }

  function OutboundJumps(keys: seq<string>): seq<Line>
  {
    if keys == [] then [] else OutboundJumps(keys[..|keys| - 1]) + [OutboundJump(keys[|keys| - 1])]
  }

  function PaiHeader(user: string, domain: string): Line
  {
    Same(Set("PJSIP_HEADER(add,P-Asserted-Identity)", "<sip:" + user + "@" + domain + ">"))
  }

  /** The `out-<ext>` target: present the selected DID, optionally assert the identity, dial out. */
  function OutboundTarget(ext: string, entry: OutboundEntry, trunkMap: map<int, SipTrunk>): seq<Line>
  {
    var tid := entry.route.trunkId;
    var did := entry.route.did;
    [Blank,
     SameLabelled("out-" + ext, NoOp(TargetNote + IntToString(tid) + CidNote + did)),
     Same(Set("CALLERID(num)", did))]
    + (if IsTruthy(entry.pai) then [PaiHeader(entry.pai.value, PaiDomain(trunkMap, tid))] else [])
    + [Same(Dial(TrunkEndpoint(tid), OutboundRingTime, "tT")), Same(Hangup)]
  }

  function OutboundTargets(keys: seq<string>, entries: map<string, OutboundEntry>,
                           trunkMap: map<int, SipTrunk>): seq<Line>
    requires forall k :: k in keys ==> k in entries
  {
    if keys == [] then []
    else
      var last := keys[|keys| - 1];
      OutboundTargets(keys[..|keys| - 1], entries, trunkMap) + OutboundTarget(last, entries[last], trunkMap)
  }

  /** `_0X.`: national numbers, dispatched on the calling endpoint. */
  function DomesticHeader(): seq<Line>
  {
    [Comment(OutboundNote),
     Exten(DomesticPattern, NoOp(OutboundCallNote))]
  }

  /** What a national call from an extension without a route hears. */
  function DomesticNoRoute(): seq<Line>
  {
    [Same(NoOp(NoRouteNote)), Same(Playback("ss-noservice")), Same(Hangup)]
  }

  /** `_+X.`: numbers with a `+` prefix, dispatched the same way. */
  function InternationalHeader(): seq<Line>
  {
    [Comment(InternationalNote),
     Exten(InternationalPattern, NoOp(InternationalCallNote))]
  }

  /** The same for an international call. */
  function InternationalNoRoute(): seq<Line>
  {
    [Same(Playback("ss-noservice")), Same(Hangup)]
  }

  function DomesticDispatch(outbound: OrderedMap<OutboundEntry>, trunkMap: map<int, SipTrunk>): seq<Line>
    requires outbound.Valid()
  {
    DomesticHeader()
    + OutboundJumps(outbound.keys)
    + DomesticNoRoute()
    + OutboundTargets(outbound.keys, outbound.entries, trunkMap)
    + [Blank]
  }

  function InternationalDispatch(outbound: OrderedMap<OutboundEntry>, trunkMap: map<int, SipTrunk>): seq<Line>
    requires outbound.Valid()
  {
    InternationalHeader()
    + OutboundJumps(outbound.keys)
    + InternationalNoRoute()
    + OutboundTargets(outbound.keys, outbound.entries, trunkMap)
    + [Blank]
  }

  function OutboundSection(outbound: OrderedMap<OutboundEntry>, trunkMap: map<int, SipTrunk>): seq<Line>
    requires outbound.Valid()
  {
    if outbound.keys == [] then []
    else DomesticDispatch(outbound, trunkMap) + InternationalDispatch(outbound, trunkMap)
  }

  /** `*98`: the caller's own voicemail. */
  function VoicemailAccess(): seq<Line>
  {
    [Comment(VoicemailAccessNote),
     Exten(VoicemailAccessExten, NoOp(VoicemailAccessCallNote)),
     Same(Answer),
     Same(Wait("0.5")),
     Same(VoiceMailMain("${CALLERID(num)}")),
     Same(Hangup),
     Blank]
  }

  /** `*97` followed by a four-digit extension: leave voicemail for it. */
  function DirectVoicemail(): seq<Line>
  {
    [Comment(DirectVoicemailNote),
     Exten(DirectVoicemailPattern, NoOp(DirectVoicemailCallNote)),
     Same(Answer),
     Same(Wait("0.5")),
     Same(VoiceMail("${EXTEN:3}", None)),
     Same(Hangup),
     Blank]
  }

  /** `*43`: echo test. */
  function EchoTest(): seq<Line>
  {
    [Comment("Echo test"),
     Exten(EchoTestExten, Answer),
     Same(Echo),
     Same(Hangup),
     Blank]
  }

  function FromTrunkHeader(): seq<Line>
  {
    [Context(FromTrunkName), Comment(FromTrunkNote)]
  }

  /** Voicemail access, direct voicemail, echo test, and the `[from-trunk]` header. */
  function StaticBlocks(): seq<Line>
  {
    VoicemailAccess() + DirectVoicemail() + EchoTest() + FromTrunkHeader()
  }

  /** The `s` extension: recover the DID from the To header and re-enter `from-trunk`. */
  function DidFallback(): seq<Line>
  {
    [Blank, Comment(DidFallbackNote),
     Exten(FallbackExten, NoOp(NoDidCallNote)),
     Same(Set("TO_HDR", ReadToHeader)),
     Same(Set("DID", DidOfToHeader)),
     Same(NoOp(ExtractedDidNote)),
     Same(GotoIf(Expr(HasDid), ReenterWithDid, None)),
     Same(NoOp(NoDidNote)),
     Same(Hangup),
     Blank]
  }

  /** `route.description or route.did`. */
  function RouteTitle(route: InboundRoute): string
  {
    if IsTruthy(route.description) then route.description.value else route.did
  }

  function RouteHeader(route: InboundRoute): seq<Line>
  {
    [Blank, Comment(RouteTitle(route)),
     Exten(route.did, NoOp("Inbound call to DID " + route.did)),
     SetCallerName()]
  }

  /** An inbound route rings its extension, answering first. */
  function RouteBlock(route: InboundRoute, fwdMap: ForwardMap, ringTimeouts: map<string, int>): seq<Line>
  {
    var ext := route.destinationExtension;
    RouteHeader(route) + DL.DialLines(ext, fwdMap, RingTimeoutFor(ringTimeouts, ext), true)
  }

  function RouteBlocks(routes: seq<InboundRoute>, fwdMap: ForwardMap, ringTimeouts: map<string, int>): seq<Line>
  {
    if routes == [] then []
    else RouteBlocks(routes[..|routes| - 1], fwdMap, ringTimeouts)
         + RouteBlock(routes[|routes| - 1], fwdMap, ringTimeouts)
  }

  function NoRoutesBlock(): seq<Line>
  {
    [Blank, Comment(NoRoutesNote),
     Exten(NoRoutesPattern, NoOp(UnroutedCallNote)),
     Same(Hangup)]
  }

  function InboundBlocks(routes: seq<InboundRoute>, fwdMap: ForwardMap, ringTimeouts: map<string, int>): seq<Line>
  {
    if routes == [] then NoRoutesBlock() else RouteBlocks(routes, fwdMap, ringTimeouts)
  }

  function CatchAll(): seq<Line>
  {
    [Blank, Comment(CatchAllNote),
     Exten(CatchAllPattern, NoOp(UnmatchedCallNote)),
     Same(Hangup)]
  }

  /** The document for the lookups the generator builds. */
  function Assemble(routes: seq<InboundRoute>, fwdMap: ForwardMap, outbound: OrderedMap<OutboundEntry>,
                    trunkMap: map<int, SipTrunk>, ringTimeouts: map<string, int>): seq<Line>
    requires outbound.Valid()
  {
    Preamble()
    + InternalBlock()
    + OverrideBlocks(Sorted(OverrideExtensions(fwdMap, ringTimeouts)), fwdMap, ringTimeouts)
    + OutboundSection(outbound, trunkMap)
    + StaticBlocks()
    + DidFallback()
    + InboundBlocks(routes, fwdMap, ringTimeouts)
    + CatchAll()
  }

  /** The lines of `generate_extensions_config(routes, forwards, mailboxes, peers, trunks)`. */
  function Document(routes: seq<InboundRoute>, forwards: seq<CallForward>, mailboxes: seq<VoicemailMailbox>,
                    peers: seq<SipPeer>, trunks: seq<SipTrunk>): seq<Line>
  {
    Assemble(routes, ForwardMapOf(forwards), OutboundMapOf(routes, peers), TrunkMapOf(trunks),
             RingTimeoutMapOf(mailboxes))
  }

  // ---------------------------------------------------------------------
  // The generator

  /** The outbound part of the generator: both dispatchers and their targets. */
  method EmitOutbound(outbound: OrderedMap<OutboundEntry>, trunkMap: map<int, SipTrunk>)
    returns (lines: seq<Line>)
    requires outbound.Valid()
    ensures lines == OutboundSection(outbound, trunkMap)
  {
    lines := [];
    if outbound.keys != [] {
      var jumps := EmitJumps(outbound.keys);
      var targets := EmitTargets(outbound, trunkMap);
      var domestic := DomesticHeader() + jumps + DomesticNoRoute() + targets + [Blank];
      assert domestic == DomesticDispatch(outbound, trunkMap);
      lines := lines + domestic;
      jumps := EmitJumps(outbound.keys);
      targets := EmitTargets(outbound, trunkMap);
      var intl := InternationalHeader() + jumps + InternationalNoRoute() + targets + [Blank];
      assert intl == InternationalDispatch(outbound, trunkMap);
      assert lines == domestic;
      lines := lines + intl;
    }
  }

  /** One `GotoIf` per outbound extension, in map order. */
  method EmitJumps(keys: seq<string>) returns (lines: seq<Line>)
    ensures lines == OutboundJumps(keys)
  {
    lines := [];
    for i := 0 to |keys|
      invariant lines == OutboundJumps(keys[..i])
    {
      assert keys[..i + 1][..i] == keys[..i];
      lines := lines + [OutboundJump(keys[i])];
    }
    assert keys[..|keys|] == keys;
  }

  /** One `out-<ext>` target per outbound extension, in map order. */
  method EmitTargets(outbound: OrderedMap<OutboundEntry>, trunkMap: map<int, SipTrunk>)
    returns (lines: seq<Line>)
    requires outbound.Valid()
    ensures lines == OutboundTargets(outbound.keys, outbound.entries, trunkMap)
  {
    var keys := outbound.keys;
    lines := [];
    for i := 0 to |keys|
      invariant lines == OutboundTargets(keys[..i], outbound.entries, trunkMap)
    {
      assert keys[..i + 1][..i] == keys[..i];
      var target := EmitTarget(keys[i], outbound.entries[keys[i]], trunkMap);
      lines := lines + target;
    }
    assert keys[..|keys|] == keys;
  }

  /** The `out-<ext>` target of one extension. */
  method EmitTarget(ext: string, entry: OutboundEntry, trunkMap: map<int, SipTrunk>)
    returns (target: seq<Line>)
    ensures target == OutboundTarget(ext, entry, trunkMap)
  {
    var route := entry.route;
    var pai := entry.pai;
    var tid := route.trunkId;
    target := [Blank,
               SameLabelled("out-" + ext, NoOp(TargetNote + IntToString(tid) + CidNote + route.did)),
               Same(Set("CALLERID(num)", route.did))];
    if IsTruthy(pai) {
      var trunk := Get(trunkMap, tid);
      var paiDomain := if trunk.Some? then trunk.value.sipServer else "localhost";
      target := target + [PaiHeader(pai.value, paiDomain)];
    }
    target := target + [Same(Dial(TrunkEndpoint(tid), OutboundRingTime, "tT")), Same(Hangup)];
  }

  /** The per-extension override blocks, in sorted order. */
  method EmitOverrides(exts: seq<string>, fwdMap: ForwardMap, ringTimeouts: map<string, int>)
    returns (lines: seq<Line>)
    ensures lines == OverrideBlocks(exts, fwdMap, ringTimeouts)
  {
    lines := [];
    for i := 0 to |exts|
      invariant lines == OverrideBlocks(exts[..i], fwdMap, ringTimeouts)
    {
      assert exts[..i + 1][..i] == exts[..i];
      var ext := exts[i];
      var extRing := RingTimeoutFor(ringTimeouts, ext);
      var dial := DL.GenerateDialLogic(ext, fwdMap, extRing, false);
      lines := lines + (OverrideHeader(ext) + dial + [Blank]);
    }
    assert exts[..|exts|] == exts;
  }

  /** One answered block per inbound route, in input order. */
  method EmitRoutes(routes: seq<InboundRoute>, fwdMap: ForwardMap, ringTimeouts: map<string, int>)
    returns (lines: seq<Line>)
    ensures lines == RouteBlocks(routes, fwdMap, ringTimeouts)
  {
    lines := [];
    for i := 0 to |routes|
      invariant lines == RouteBlocks(routes[..i], fwdMap, ringTimeouts)
    {
      assert routes[..i + 1][..i] == routes[..i];
      var route := routes[i];
      var ext := route.destinationExtension;
      var extRing := RingTimeoutFor(ringTimeouts, ext);
      var dial := DL.GenerateDialLogic(ext, fwdMap, extRing, true);
      lines := lines + (RouteHeader(route) + dial);
    }
    assert routes[..|routes|] == routes;
  }

  method GenerateExtensionsConfig(routes: seq<InboundRoute>, forwards: seq<CallForward>,
                                  mailboxes: seq<VoicemailMailbox>, peers: seq<SipPeer>,
                                  trunks: seq<SipTrunk>)
    returns (config: string)
    ensures config == Render(Document(routes, forwards, mailboxes, peers, trunks))
  {
    var fwdMap := BuildForwardMap(forwards);
    var outboundMap := BuildOutboundMap(routes, peers);
    var trunkMap := BuildTrunkMap(trunks);
    var ringTimeoutMap := RingTimeoutMapOf(mailboxes);

    var lines := Preamble();
    var overrides := CollectOverrides(fwdMap, ringTimeoutMap);

    var internal := DL.GenerateDialLogic("${EXTEN}", map[], DefaultRingTimeout, false);
    lines := lines + (internal + [Blank]);
    assert lines == Preamble() + InternalBlock();

    var overrideLines := EmitOverrides(Sorted(overrides), fwdMap, ringTimeoutMap);
    lines := lines + overrideLines;

    var outboundLines := EmitOutbound(outboundMap, trunkMap);
    lines := lines + outboundLines;

    lines := lines + StaticBlocks();
    lines := lines + DidFallback();

    var inbound: seq<Line>;
    if routes != [] {
      inbound := EmitRoutes(routes, fwdMap, ringTimeoutMap);
    } else {
      inbound := NoRoutesBlock();
    }
    assert inbound == InboundBlocks(routes, fwdMap, ringTimeoutMap);
    lines := lines + inbound;

    lines := lines + CatchAll();
    config := Render(lines);
  }
}
