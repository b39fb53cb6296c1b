/**
 * What the generated extensions.conf looks like as a whole: which
 * extensions it dispatches on and in what order, which contexts it opens,
 * how often it answers, and what the outbound targets assert.
 */
module ConfigProperties {
  import opened Wrappers
  import opened Records
  import opened StringOrder
  import opened DialplanSyntax
  import opened ForwardMap
  import DL = DialLogic
  import opened OutboundMap
  import opened RingTimeout
  import opened ExtensionsConfig

  /** The routes' DIDs, in input order. */
  function Dids(routes: seq<InboundRoute>): (r: seq<string>)
    ensures |r| == |routes|
    ensures forall i :: 0 <= i < |routes| ==> r[i] == routes[i].did
  {
    if routes == [] then [] else Dids(routes[..|routes| - 1]) + [routes[|routes| - 1].did]
  }

  // ---------------------------------------------------------------------
  // Section by section

  /**
   * The outline of a stretch of lines: the patterns of its `exten =>`
   * headers and the names of its `[context]` headers, in order, and how many
   * of its lines run `Answer()`.
   */
  ghost predicate Outline(doc: seq<Line>, patterns: seq<string>, contexts: seq<string>, answers: nat)
  {
    ExtenPatterns(doc) == patterns && ContextNames(doc) == contexts && AppCount(doc, Answer) == answers
  }

  /** Outlines compose along concatenation. */
  lemma OutlineConcat(x: seq<Line>, px: seq<string>, cx: seq<string>, nx: nat,
                      y: seq<Line>, py: seq<string>, cy: seq<string>, ny: nat)
    requires Outline(x, px, cx, nx) && Outline(y, py, cy, ny)
    ensures Outline(x + y, px + py, cx + cy, nx + ny)
  {
    ExtenPatternsConcat(x, y);
    ContextNamesConcat(x, y);
    AppCountConcat(x, y, Answer);
  }

  /** A fixed block with one header, at `i`, and no answer. */
  lemma FixedBlock(doc: seq<Line>, i: nat)
    requires i < |doc|
    requires forall j :: 0 <= j < |doc| && j != i ==> !doc[j].Exten? && !doc[j].Context?
    requires forall j :: 0 <= j < |doc| ==> AppOf(doc[j]) != Some(Answer)
    ensures Outline(doc, if doc[i].Exten? then [doc[i].pattern] else [],
                    if doc[i].Context? then [doc[i].name] else [], 0)
  {
    HeaderAt(doc, i, Answer);
    AppCountZero(doc, Answer);
  }

  /** A fixed block with one `exten =>` header, at `i`, answered once, at `k`. */
  lemma AnsweringBlock(doc: seq<Line>, i: nat, k: nat)
    requires i < k < |doc| && doc[i].Exten? && AppOf(doc[k]) == Some(Answer)
    requires forall j :: 0 <= j < |doc| && j != i ==> !doc[j].Exten? && !doc[j].Context?
    requires forall j :: 0 <= j < |doc| && j != k ==> AppOf(doc[j]) != Some(Answer)
    ensures Outline(doc, [doc[i].pattern], [], 1)
  {
    HeaderAt(doc, i, Answer);
    assert doc == doc[..k] + [doc[k]] + doc[k + 1..];
    forall l | l in doc[..k] ensures AppOf(l) != Some(Answer) {
      var j :| 0 <= j < k && doc[..k][j] == l;
      assert doc[j] == l;
    }
    forall l | l in doc[k + 1..] ensures AppOf(l) != Some(Answer) {
      var j :| 0 <= j < |doc| - k - 1 && doc[k + 1..][j] == l;
      assert doc[k + 1 + j] == l;
    }
    AppCountOne(doc[..k], doc[k], doc[k + 1..], Answer);
  }

  /** The `[general]` settings. */
  lemma GeneralOutline()
    ensures Outline(GeneralContext(), [], [GeneralName], 0)
  {
    FixedBlock(GeneralContext(), 3);
  }

  /** The empty `[globals]` context. */
  lemma GlobalsOutline()
    ensures Outline(GlobalsContext(), [], [GlobalsName], 0)
  {
    FixedBlock(GlobalsContext(), 0);
  }

  /** The `[internal]` context header. */
  lemma InternalContextOutline()
    ensures Outline(InternalContext(), [], [InternalName], 0)
  {
    FixedBlock(InternalContext(), 0);
  }

  /** The `_1XXX` pattern header. */
  lemma InternalPatternOutline()
    ensures Outline(InternalPattern(), [LocalPattern], [], 0)
  {
    FixedBlock(InternalPattern(), 0);
  }

  /** `*98` answers once. */
  lemma VoicemailAccessOutline()
    ensures Outline(VoicemailAccess(), [VoicemailAccessExten], [], 1)
  {
    AnsweringBlock(VoicemailAccess(), 1, 2);
  }

  /** `_*97XXXX` answers once. */
  lemma DirectVoicemailOutline()
    ensures Outline(DirectVoicemail(), [DirectVoicemailPattern], [], 1)
  {
    AnsweringBlock(DirectVoicemail(), 1, 2);
  }

  /** `*43` answers in its header line. */
  lemma EchoTestOutline()
    ensures Outline(EchoTest(), [EchoTestExten], [], 1)
  {
    var e := EchoTest();
    HeaderAt(e, 1, Answer);
    AppCountZero(e[..1], Answer);
    AppCountZero(e[2..], Answer);
  }

  /** The `[from-trunk]` context header. */
  lemma FromTrunkHeaderOutline()
    ensures Outline(FromTrunkHeader(), [], [FromTrunkName], 0)
  {
    FixedBlock(FromTrunkHeader(), 0);
  }

  /** The `s` fallback does not answer. */
  lemma DidFallbackOutline()
    ensures Outline(DidFallback(), [FallbackExten], [], 0)
  {
    FixedBlock(DidFallback(), 2);
  }

  /** The `_X.` block for a system without routes. */
  lemma NoRoutesBlockOutline()
    ensures Outline(NoRoutesBlock(), [NoRoutesPattern], [], 0)
  {
    FixedBlock(NoRoutesBlock(), 2);
  }

  /** The final catch-all. */
  lemma CatchAllOutline()
    ensures Outline(CatchAll(), [CatchAllPattern], [], 0)
  {
    FixedBlock(CatchAll(), 2);
  }

  lemma PreambleOutline()
    ensures Outline(Preamble(), [LocalPattern], [GeneralName, GlobalsName, InternalName], 0)
  {
    var g := GeneralContext();
    var b := GlobalsContext();
    var i := InternalContext();
    GeneralOutline();
    GlobalsOutline();
    InternalContextOutline();
    InternalPatternOutline();
    OutlineConcat(g, [], [GeneralName], 0, b, [], [GlobalsName], 0);
    OutlineConcat(g + b, [], [GeneralName, GlobalsName], 0, i, [], [InternalName], 0);
    OutlineConcat(g + b + i, [], [GeneralName, GlobalsName, InternalName], 0, InternalPattern(), [LocalPattern], [], 0);
  }

  lemma StaticBlocksOutline()
    ensures Outline(StaticBlocks(), [VoicemailAccessExten, DirectVoicemailPattern, EchoTestExten], [FromTrunkName], 3)
  {
    var a := VoicemailAccess();
    var d := DirectVoicemail();
    var e := EchoTest();
    VoicemailAccessOutline();
    DirectVoicemailOutline();
    EchoTestOutline();
    FromTrunkHeaderOutline();
    OutlineConcat(a, [VoicemailAccessExten], [], 1, d, [DirectVoicemailPattern], [], 1);
    OutlineConcat(a + d, [VoicemailAccessExten, DirectVoicemailPattern], [], 2, e, [EchoTestExten], [], 1);
    OutlineConcat(a + d + e, [VoicemailAccessExten, DirectVoicemailPattern, EchoTestExten], [], 3, FromTrunkHeader(), [], [FromTrunkName], 0);
  }

  /** A stretch without headers and without answers. */
  lemma Plain(doc: seq<Line>)
    requires forall l :: l in doc ==> !l.Exten? && !l.Context? && AppOf(l) != Some(Answer)
    ensures Outline(doc, [], [], 0)
  {
    NoHeaders(doc);
    AppCountZero(doc, Answer);
  }

  /** The dial logic opens no extension and no context; it answers once when asked to. */
  lemma DialOutline(ext: string, fwd: ForwardMap, ringTime: int, earlyAnswer: bool)
    ensures Outline(DL.DialLines(ext, fwd, ringTime, earlyAnswer), [], [], if earlyAnswer then 1 else 0)
  {
    DL.DialLogicContinuesOnly(ext, fwd, ringTime, earlyAnswer);
    NoHeaders(DL.DialLines(ext, fwd, ringTime, earlyAnswer));
    DL.EarlyAnswerOnce(ext, fwd, ringTime, earlyAnswer);
  }

  lemma InternalBlockOutline()
    ensures Outline(InternalBlock(), [], [], 0)
  {
    DialOutline("${EXTEN}", map[], DefaultRingTimeout, false);
    Plain([Blank]);
    OutlineConcat(DL.DialLines("${EXTEN}", map[], DefaultRingTimeout, false), [], [], 0, [Blank], [], [], 0);
  }

  lemma OverrideHeaderOutline(ext: string)
    ensures Outline(OverrideHeader(ext), [ext], [], 0)
  {
    FixedBlock(OverrideHeader(ext), 1);
  }

  /** An override block dispatches on its extension and does not answer. */
  lemma OverrideBlockOutline(ext: string, fwdMap: ForwardMap, ringTimeouts: map<string, int>)
    ensures Outline(OverrideBlock(ext, fwdMap, ringTimeouts), [ext], [], 0)
  {
    var header := OverrideHeader(ext);
    var dial := DL.DialLines(ext, fwdMap, RingTimeoutFor(ringTimeouts, ext), false);
    OverrideHeaderOutline(ext);
    DialOutline(ext, fwdMap, RingTimeoutFor(ringTimeouts, ext), false);
    Plain([Blank]);
    OutlineConcat(header, [ext], [], 0, dial, [], [], 0);
    OutlineConcat(header + dial, [ext], [], 0, [Blank], [], [], 0);
  }

  /** The override blocks dispatch on exactly the given extensions, in that order, and never answer. */
  lemma {:induction false} OverrideBlocksOutline(exts: seq<string>, fwdMap: ForwardMap, ringTimeouts: map<string, int>)
    ensures Outline(OverrideBlocks(exts, fwdMap, ringTimeouts), exts, [], 0)
    decreases |exts|
  {
    if exts != [] {
      var pre := exts[..|exts| - 1];
      var last := exts[|exts| - 1];
      assert exts == pre + [last];
      OverrideBlocksOutline(pre, fwdMap, ringTimeouts);
      OverrideBlockOutline(last, fwdMap, ringTimeouts);
      OutlineConcat(OverrideBlocks(pre, fwdMap, ringTimeouts), pre, [], 0,
                    OverrideBlock(last, fwdMap, ringTimeouts), [last], [], 0);
    } else {
      assert OverrideBlocks(exts, fwdMap, ringTimeouts) == [];
    }
  }

  /** Jump lines continue the dispatching extension; none answers. */
  lemma {:induction false} JumpLines(keys: seq<string>)
    ensures forall l :: l in OutboundJumps(keys) ==> l.Same? && AppOf(l) != Some(Answer)
    decreases |keys|
  {
    if keys != [] {
      JumpLines(keys[..|keys| - 1]);
    }
  }

  /** Target lines are blank or continue the dispatching extension; none answers. */
  lemma {:induction false} TargetLines(keys: seq<string>, entries: map<string, OutboundEntry>,
                                       trunkMap: map<int, SipTrunk>)
    requires forall k :: k in keys ==> k in entries
    ensures forall l :: l in OutboundTargets(keys, entries, trunkMap) ==>
              (l.Blank? || l.Same? || l.SameLabelled?) && AppOf(l) != Some(Answer)
    decreases |keys|
  {
    if keys != [] {
      TargetLines(keys[..|keys| - 1], entries, trunkMap);
    }
  }

  /** Everything the two dispatchers emit after their `exten =>` line. */
  lemma DispatchTails(outbound: OrderedMap<OutboundEntry>, trunkMap: map<int, SipTrunk>)
    requires outbound.Valid()
    ensures Outline(OutboundJumps(outbound.keys), [], [], 0)
    ensures Outline(OutboundTargets(outbound.keys, outbound.entries, trunkMap), [], [], 0)
  {
    JumpLines(outbound.keys);
    TargetLines(outbound.keys, outbound.entries, trunkMap);
    Plain(OutboundJumps(outbound.keys));
    Plain(OutboundTargets(outbound.keys, outbound.entries, trunkMap));
  }

  /** A dispatcher: its header, the jumps, the no-route lines, the targets and a blank line. */
  lemma DispatchShape(head: seq<Line>, jumps: seq<Line>, fail: seq<Line>, targets: seq<Line>, pattern: string)
    requires Outline(head, [pattern], [], 0) && Outline(jumps, [], [], 0)
    requires Outline(fail, [], [], 0) && Outline(targets, [], [], 0)
    ensures Outline(head + jumps + fail + targets + [Blank], [pattern], [], 0)
  {
    Plain([Blank]);
    OutlineConcat(head, [pattern], [], 0, jumps, [], [], 0);
    OutlineConcat(head + jumps, [pattern], [], 0, fail, [], [], 0);
    OutlineConcat(head + jumps + fail, [pattern], [], 0, targets, [], [], 0);
    OutlineConcat(head + jumps + fail + targets, [pattern], [], 0, [Blank], [], [], 0);
  }

  lemma DomesticHeaderOutline()
    ensures Outline(DomesticHeader(), [DomesticPattern], [], 0)
  {
    FixedBlock(DomesticHeader(), 1);
  }

  lemma InternationalHeaderOutline()
    ensures Outline(InternationalHeader(), [InternationalPattern], [], 0)
  {
    FixedBlock(InternationalHeader(), 1);
  }

  lemma DomesticNoRouteOutline()
    ensures Outline(DomesticNoRoute(), [], [], 0)
  {
    Plain(DomesticNoRoute());
  }

  lemma InternationalNoRouteOutline()
    ensures Outline(InternationalNoRoute(), [], [], 0)
  {
    Plain(InternationalNoRoute());
  }

  lemma DomesticOutline(outbound: OrderedMap<OutboundEntry>, trunkMap: map<int, SipTrunk>)
    requires outbound.Valid()
    ensures Outline(DomesticDispatch(outbound, trunkMap), [DomesticPattern], [], 0)
  {
    DomesticHeaderOutline();
    DomesticNoRouteOutline();
    DispatchTails(outbound, trunkMap);
    DispatchShape(DomesticHeader(), OutboundJumps(outbound.keys), DomesticNoRoute(),
                  OutboundTargets(outbound.keys, outbound.entries, trunkMap), DomesticPattern);
  }

  lemma InternationalOutline(outbound: OrderedMap<OutboundEntry>, trunkMap: map<int, SipTrunk>)
    requires outbound.Valid()
    ensures Outline(InternationalDispatch(outbound, trunkMap), [InternationalPattern], [], 0)
  {
    InternationalHeaderOutline();
    InternationalNoRouteOutline();
    DispatchTails(outbound, trunkMap);
    DispatchShape(InternationalHeader(), OutboundJumps(outbound.keys), InternationalNoRoute(),
                  OutboundTargets(outbound.keys, outbound.entries, trunkMap), InternationalPattern);
  }

  /** The outbound section dispatches on `_0X.` and `_+X.` exactly when some extension calls out. */
  lemma OutboundSectionOutline(outbound: OrderedMap<OutboundEntry>, trunkMap: map<int, SipTrunk>)
    requires outbound.Valid()
    ensures Outline(OutboundSection(outbound, trunkMap),
                    if outbound.keys == [] then [] else [DomesticPattern, InternationalPattern], [], 0)
  {
    if outbound.keys != [] {
      DomesticOutline(outbound, trunkMap);
      InternationalOutline(outbound, trunkMap);
      OutlineConcat(DomesticDispatch(outbound, trunkMap), [DomesticPattern], [], 0,
                    InternationalDispatch(outbound, trunkMap), [InternationalPattern], [], 0);
    } else {
      Plain([]);
    }
  }

  lemma RouteHeaderOutline(route: InboundRoute)
    ensures Outline(RouteHeader(route), [route.did], [], 0)
  {
    FixedBlock(RouteHeader(route), 2);
  }

  /** A route's block dispatches on its DID and answers once. */
  lemma RouteBlockOutline(route: InboundRoute, fwdMap: ForwardMap, ringTimeouts: map<string, int>)
    ensures Outline(RouteBlock(route, fwdMap, ringTimeouts), [route.did], [], 1)
  {
    var ext := route.destinationExtension;
    RouteHeaderOutline(route);
    DialOutline(ext, fwdMap, RingTimeoutFor(ringTimeouts, ext), true);
    OutlineConcat(RouteHeader(route), [route.did], [], 0,
                  DL.DialLines(ext, fwdMap, RingTimeoutFor(ringTimeouts, ext), true), [], [], 1);
  }

  /** One `exten => <did>` per route, in input order, and one early answer each. */
  lemma {:induction false} RouteBlocksOutline(routes: seq<InboundRoute>, fwdMap: ForwardMap, ringTimeouts: map<string, int>)
    ensures Outline(RouteBlocks(routes, fwdMap, ringTimeouts), Dids(routes), [], |routes|)
    decreases |routes|
  {
    if routes != [] {
      var pre := routes[..|routes| - 1];
      var last := routes[|routes| - 1];
      RouteBlocksOutline(pre, fwdMap, ringTimeouts);
      RouteBlockOutline(last, fwdMap, ringTimeouts);
      OutlineConcat(RouteBlocks(pre, fwdMap, ringTimeouts), Dids(pre), [], |pre|,
                    RouteBlock(last, fwdMap, ringTimeouts), [last.did], [], 1);
    } else {
      Plain([]);
    }
  }

  lemma InboundOutline(routes: seq<InboundRoute>, fwdMap: ForwardMap, ringTimeouts: map<string, int>)
    ensures Outline(InboundBlocks(routes, fwdMap, ringTimeouts),
                    if routes == [] then [NoRoutesPattern] else Dids(routes), [], |routes|)
  {
    if routes == [] {
      NoRoutesBlockOutline();
    } else {
      RouteBlocksOutline(routes, fwdMap, ringTimeouts);
    }
  }

  // ---------------------------------------------------------------------
  // The whole document

  /** The extensions the generated dialplan dispatches on, in the order they appear. */
  function ExpectedPatterns(routes: seq<InboundRoute>, overrides: seq<string>, outbound: bool): seq<string>
  {
    [LocalPattern] + overrides + (if outbound then [DomesticPattern, InternationalPattern] else [])
    + [VoicemailAccessExten, DirectVoicemailPattern, EchoTestExten, FallbackExten]
    + (if routes == [] then [NoRoutesPattern] else Dids(routes))
    + [CatchAllPattern]
  }

  /** Eight stretches with known outlines, one after another. */
  lemma Chain(p1: seq<Line>, p2: seq<Line>, p3: seq<Line>, p4: seq<Line>,
              p5: seq<Line>, p6: seq<Line>, p7: seq<Line>, p8: seq<Line>,
              overrides: seq<string>, outbound: seq<string>, inbound: seq<string>, n: nat)
    requires Outline(p1, [LocalPattern], [GeneralName, GlobalsName, InternalName], 0)
    requires Outline(p2, [], [], 0)
    requires Outline(p3, overrides, [], 0)
    requires Outline(p4, outbound, [], 0)
    requires Outline(p5, [VoicemailAccessExten, DirectVoicemailPattern, EchoTestExten], [FromTrunkName], 3)
    requires Outline(p6, [FallbackExten], [], 0)
    requires Outline(p7, inbound, [], n)
    requires Outline(p8, [CatchAllPattern], [], 0)
    ensures Outline(p1 + p2 + p3 + p4 + p5 + p6 + p7 + p8,
                    [LocalPattern] + overrides + outbound + [VoicemailAccessExten, DirectVoicemailPattern, EchoTestExten, FallbackExten] + inbound + [CatchAllPattern],
                    [GeneralName, GlobalsName, InternalName, FromTrunkName], n + 3)
  {
    OutlineConcat(p1, [LocalPattern], [GeneralName, GlobalsName, InternalName], 0, p2, [], [], 0);
    OutlineConcat(p1 + p2, [LocalPattern], [GeneralName, GlobalsName, InternalName], 0, p3, overrides, [], 0);
    OutlineConcat(p1 + p2 + p3, [LocalPattern] + overrides, [GeneralName, GlobalsName, InternalName], 0, p4, outbound, [], 0);
    OutlineConcat(p1 + p2 + p3 + p4, [LocalPattern] + overrides + outbound, [GeneralName, GlobalsName, InternalName], 0,
                  p5, [VoicemailAccessExten, DirectVoicemailPattern, EchoTestExten], [FromTrunkName], 3);
    OutlineConcat(p1 + p2 + p3 + p4 + p5, [LocalPattern] + overrides + outbound + [VoicemailAccessExten, DirectVoicemailPattern, EchoTestExten],
                  [GeneralName, GlobalsName, InternalName, FromTrunkName], 3, p6, [FallbackExten], [], 0);
    OutlineConcat(p1 + p2 + p3 + p4 + p5 + p6, [LocalPattern] + overrides + outbound + [VoicemailAccessExten, DirectVoicemailPattern, EchoTestExten, FallbackExten],
                  [GeneralName, GlobalsName, InternalName, FromTrunkName], 3, p7, inbound, [], n);
    OutlineConcat(p1 + p2 + p3 + p4 + p5 + p6 + p7,
                  [LocalPattern] + overrides + outbound + [VoicemailAccessExten, DirectVoicemailPattern, EchoTestExten, FallbackExten] + inbound,
                  [GeneralName, GlobalsName, InternalName, FromTrunkName], n + 3, p8, [CatchAllPattern], [], 0);
    assert [LocalPattern] + overrides + outbound + [VoicemailAccessExten, DirectVoicemailPattern, EchoTestExten] + [FallbackExten]
           == [LocalPattern] + overrides + outbound + [VoicemailAccessExten, DirectVoicemailPattern, EchoTestExten, FallbackExten];
  }

  /**
   * The document for given lookups: the extensions it dispatches on, in
   * order, the four contexts it opens, and one answer per inbound route plus
   * those of `*98`, `*97` and `*43`.
   */
  lemma AssembleOutline(routes: seq<InboundRoute>, fwdMap: ForwardMap, outbound: OrderedMap<OutboundEntry>,
                        trunkMap: map<int, SipTrunk>, ringTimeouts: map<string, int>)
    requires outbound.Valid()
    ensures Outline(Assemble(routes, fwdMap, outbound, trunkMap, ringTimeouts),
                    ExpectedPatterns(routes, Sorted(OverrideExtensions(fwdMap, ringTimeouts)), outbound.keys != []),
                    [GeneralName, GlobalsName, InternalName, FromTrunkName], |routes| + 3)
  {
    var overrides := Sorted(OverrideExtensions(fwdMap, ringTimeouts));
    PreambleOutline();
    InternalBlockOutline();
    OverrideBlocksOutline(overrides, fwdMap, ringTimeouts);
    OutboundSectionOutline(outbound, trunkMap);
    StaticBlocksOutline();
    DidFallbackOutline();
    InboundOutline(routes, fwdMap, ringTimeouts);
    CatchAllOutline();
    Chain(Preamble(), InternalBlock(), OverrideBlocks(overrides, fwdMap, ringTimeouts),
          OutboundSection(outbound, trunkMap), StaticBlocks(), DidFallback(),
          InboundBlocks(routes, fwdMap, ringTimeouts), CatchAll(),
          overrides, if outbound.keys == [] then [] else [DomesticPattern, InternationalPattern],
          if routes == [] then [NoRoutesPattern] else Dids(routes), |routes|);
  }

  /**
   * The generator's document: the outbound dispatchers appear exactly when
   * there is at least one inbound route (every routed extension gets an
   * outbound identity), the overrides are the sorted override set, the
   * inbound part has one `exten => <did>` per route or the `_X.` block, and
   * the last extension is the `_[+0-9].` catch-all.
   */
  lemma DocumentOutline(routes: seq<InboundRoute>, forwards: seq<CallForward>, mailboxes: seq<VoicemailMailbox>,
                        peers: seq<SipPeer>, trunks: seq<SipTrunk>)
    ensures Outline(Document(routes, forwards, mailboxes, peers, trunks),
                    ExpectedPatterns(routes, Sorted(OverrideExtensions(ForwardMapOf(forwards), RingTimeoutMapOf(mailboxes))),
                                     routes != []),
                    [GeneralName, GlobalsName, InternalName, FromTrunkName], |routes| + 3)
  {
    var outbound := OutboundMapOf(routes, peers);
    DestinationOrderFacts(routes);
    if routes != [] {
      assert routes[0] in routes;
      assert routes[0].destinationExtension in outbound.keys;
    }
    AssembleOutline(routes, ForwardMapOf(forwards), outbound, TrunkMapOf(trunks), RingTimeoutMapOf(mailboxes));
  }

  lemma AssembleEndsWithCatchAll(routes: seq<InboundRoute>, fwdMap: ForwardMap, outbound: OrderedMap<OutboundEntry>,
                                 trunkMap: map<int, SipTrunk>, ringTimeouts: map<string, int>)
    requires outbound.Valid()
    ensures var doc := Assemble(routes, fwdMap, outbound, trunkMap, ringTimeouts);
            |doc| >= 4 && doc[|doc| - 4..] == CatchAll()
  {
    var front := Preamble()
      + InternalBlock()
      + OverrideBlocks(Sorted(OverrideExtensions(fwdMap, ringTimeouts)), fwdMap, ringTimeouts)
      + OutboundSection(outbound, trunkMap)
      + StaticBlocks()
      + DidFallback()
      + InboundBlocks(routes, fwdMap, ringTimeouts);
    var doc := Assemble(routes, fwdMap, outbound, trunkMap, ringTimeouts);
    assert doc == front + CatchAll();
    assert doc[|front|..] == CatchAll();
  }

  /** The document always ends with the `_[+0-9].` catch-all for unmatched DIDs. */
  lemma DocumentEndsWithCatchAll(routes: seq<InboundRoute>, forwards: seq<CallForward>,
                                 mailboxes: seq<VoicemailMailbox>, peers: seq<SipPeer>, trunks: seq<SipTrunk>)
    ensures var doc := Document(routes, forwards, mailboxes, peers, trunks);
            |doc| >= 4 && doc[|doc| - 4..] == CatchAll()
            && doc[|doc| - 2] == Exten(CatchAllPattern, NoOp(UnmatchedCallNote))
            && doc[|doc| - 1] == Same(Hangup)
  {
    var doc := Document(routes, forwards, mailboxes, peers, trunks);
    AssembleEndsWithCatchAll(routes, ForwardMapOf(forwards), OutboundMapOf(routes, peers),
                             TrunkMapOf(trunks), RingTimeoutMapOf(mailboxes));
    assert doc[|doc| - 2] == doc[|doc| - 4..][2];
    assert doc[|doc| - 1] == doc[|doc| - 4..][3];
  }

  /**
   * The text of the generated file ends with the catch-all's text and with a
   * newline: rendering the document renders its last four lines last.
   */
  lemma DocumentTextEndsWithCatchAll(routes: seq<InboundRoute>, forwards: seq<CallForward>,
                                     mailboxes: seq<VoicemailMailbox>, peers: seq<SipPeer>, trunks: seq<SipTrunk>)
    ensures var text := Render(Document(routes, forwards, mailboxes, peers, trunks));
            var tail := Render(CatchAll());
            |text| >= |tail| && text[|text| - |tail|..] == tail
            && text[|text| - 1] == '\n'
  {
    var doc := Document(routes, forwards, mailboxes, peers, trunks);
    DocumentEndsWithCatchAll(routes, forwards, mailboxes, peers, trunks);
    var front := doc[..|doc| - 4];
    assert doc == front + CatchAll();
    RenderConcat(front, CatchAll());
    RenderEndsWithNewline(doc);
  }

  // ---------------------------------------------------------------------
  // Which extensions get an override block

  /**
   * An extension gets a block of its own exactly when some forward names it
   * or its (last) voicemail box rings for other than the default 20 seconds.
   */
  lemma OverrideExtensionsExact(forwards: seq<CallForward>, mailboxes: seq<VoicemailMailbox>, e: string)
    ensures e in OverrideExtensions(ForwardMapOf(forwards), RingTimeoutMapOf(mailboxes)) <==>
              (exists i :: 0 <= i < |forwards| && forwards[i].extension == e)
              || (exists i :: 0 <= i < |mailboxes| && mailboxes[i].extension == e
                   && (forall j :: i < j < |mailboxes| ==> mailboxes[j].extension != e)
                   && RingTimeoutOf(mailboxes[i]) != DefaultRingTimeout)
  {
    ForwardMapKeys(forwards, e);
    RingTimeoutMapLastWins(mailboxes, e);
    var rtm := RingTimeoutMapOf(mailboxes);
    if e in rtm {
      var i :| 0 <= i < |mailboxes| && mailboxes[i].extension == e
               && (forall j :: i < j < |mailboxes| ==> mailboxes[j].extension != e)
               && rtm[e] == RingTimeoutOf(mailboxes[i]);
      forall i' | 0 <= i' < |mailboxes| && mailboxes[i'].extension == e
                  && (forall j :: i' < j < |mailboxes| ==> mailboxes[j].extension != e)
        ensures i' == i
      {
      }
    }
  }

  /** The override extensions are emitted once each, in strictly increasing order. */
  lemma OverridesOnceInOrder(fwdMap: ForwardMap, ringTimeouts: map<string, int>)
    ensures var exts := Sorted(OverrideExtensions(fwdMap, ringTimeouts));
            && StrictlyIncreasing(exts)
            && (forall e :: e in exts <==> e in OverrideExtensions(fwdMap, ringTimeouts))
            && Outline(OverrideBlocks(exts, fwdMap, ringTimeouts), exts, [], 0)
  {
    OverrideBlocksOutline(Sorted(OverrideExtensions(fwdMap, ringTimeouts)), fwdMap, ringTimeouts);
  }

  // ---------------------------------------------------------------------
  // The outbound targets

  predicate IsPaiHeader(l: Line)
  {
    l.Same? && l.app.Set? && l.app.variable == "PJSIP_HEADER(add,P-Asserted-Identity)"
  }

  /**
   * An `out-<ext>` target: its label, the caller ID it presents, a
   * P-Asserted-Identity header exactly when the peer's `pai` is truthy (with
   * the trunk's SIP server as host, or `localhost` without a trunk), and a
   * 120-second dial through the selected route's trunk followed by a hang-up.
   */
  lemma TargetShape(ext: string, entry: OutboundEntry, trunkMap: map<int, SipTrunk>)
    ensures var t := OutboundTarget(ext, entry, trunkMap);
            var tid := entry.route.trunkId;
            && |t| == (if IsTruthy(entry.pai) then 6 else 5)
            && t[1].SameLabelled? && t[1].labelName == "out-" + ext
            && t[2] == Same(Set("CALLERID(num)", entry.route.did))
            && ((exists l :: l in t && IsPaiHeader(l)) <==> IsTruthy(entry.pai))
            && (IsTruthy(entry.pai) ==>
                  t[3] == Same(Set("PJSIP_HEADER(add,P-Asserted-Identity)",
                                   "<sip:" + entry.pai.value + "@"
                                   + (if tid in trunkMap then trunkMap[tid].sipServer else "localhost") + ">")))
            && t[|t| - 2] == Same(Dial(TrunkEndpoint(tid), 120, "tT"))
            && t[|t| - 1] == Same(Hangup)
  {
    var t := OutboundTarget(ext, entry, trunkMap);
    if IsTruthy(entry.pai) {
      assert IsPaiHeader(t[3]);
    } else {
      forall l | l in t ensures !IsPaiHeader(l) {
      }
    }
  }

  /** One jump per outbound key, in key order. */
  lemma {:induction false} JumpsInOrder(keys: seq<string>)
    ensures |OutboundJumps(keys)| == |keys|
    ensures forall i :: 0 <= i < |keys| ==> OutboundJumps(keys)[i] == OutboundJump(keys[i])
    decreases |keys|
  {
    if keys != [] {
      JumpsInOrder(keys[..|keys| - 1]);
    }
  }

  /** Every key's `out-<key>` label is defined among the targets. */
  lemma {:induction false} TargetsDefineLabels(keys: seq<string>, entries: map<string, OutboundEntry>,
                                               trunkMap: map<int, SipTrunk>)
    requires forall k :: k in keys ==> k in entries
    ensures forall k :: k in keys ==> DL.DefinesLabel(OutboundTargets(keys, entries, trunkMap), "out-" + k)
    decreases |keys|
  {
    if keys != [] {
      var pre := keys[..|keys| - 1];
      var last := keys[|keys| - 1];
      TargetsDefineLabels(pre, entries, trunkMap);
      var front := OutboundTargets(pre, entries, trunkMap);
      var t := OutboundTarget(last, entries[last], trunkMap);
      TargetShape(last, entries[last], trunkMap);
      assert t[1] in front + t;
      forall k | k in keys ensures DL.DefinesLabel(front + t, "out-" + k) {
        if k in pre {
          var l :| l in front && l.SameLabelled? && l.labelName == "out-" + k;
          assert l in front + t;
        } else {
          assert k == last;
        }
      }
    }
  }

  /**
   * The dispatcher jumps, for each outbound extension in turn, to a label
   * that its targets define: every `GotoIf` jump of the outbound section
   * lands.
   */
  lemma OutboundJumpsLand(outbound: OrderedMap<OutboundEntry>, trunkMap: map<int, SipTrunk>)
    requires outbound.Valid()
    ensures var jumps := OutboundJumps(outbound.keys);
            && |jumps| == |outbound.keys|
            && forall i :: 0 <= i < |jumps| ==>
                 && jumps[i].Same? && jumps[i].app.GotoIf?
                 && jumps[i].app.cond == StrEquals("${CHANNEL(endpoint)}x", outbound.keys[i] + "x")
                 && DL.DefinesLabel(OutboundTargets(outbound.keys, outbound.entries, trunkMap), jumps[i].app.ifTrue)
  {
    JumpsInOrder(outbound.keys);
    TargetsDefineLabels(outbound.keys, outbound.entries, trunkMap);
    forall i | 0 <= i < |outbound.keys|
      ensures DL.DefinesLabel(OutboundTargets(outbound.keys, outbound.entries, trunkMap),
                              OutboundJumps(outbound.keys)[i].app.ifTrue)
    {
      assert outbound.keys[i] in outbound.keys;
    }
  }
  // ---------------------------------------------------------------------
  // Ring times

  /**
   * An override block rings for the extension's mapped timeout, 20 seconds
   * when it has no mailbox; a no-answer forward's own ring time takes
   * precedence for the device dial.
   */
  lemma OverrideRingTime(ext: string, fwdMap: ForwardMap, ringTimeouts: map<string, int>)
    ensures var block := OverrideBlock(ext, fwdMap, ringTimeouts);
            var timeout := if ext in ringTimeouts then ringTimeouts[ext] else DefaultRingTimeout;
            var cfu := Lookup(fwdMap, ext, Unconditional);
            var cfna := Lookup(fwdMap, ext, NoAnswer);
            && (cfu.Some? ==> Same(Dial(ViaTrunk(cfu.value.destination), timeout, "tT")) in block)
            && (cfu.None? ==>
                  Same(Dial(Device(ext), if cfna.Some? then cfna.value.ringTime else timeout, "tTr")) in block)
  {
    DL.RingsFor(ext, fwdMap, RingTimeoutFor(ringTimeouts, ext), false);
  }

  /** A route's block rings its destination extension in the same way, after answering. */
  lemma RouteRingTime(route: InboundRoute, fwdMap: ForwardMap, ringTimeouts: map<string, int>)
    ensures var ext := route.destinationExtension;
            var block := RouteBlock(route, fwdMap, ringTimeouts);
            var timeout := if ext in ringTimeouts then ringTimeouts[ext] else DefaultRingTimeout;
            var cfu := Lookup(fwdMap, ext, Unconditional);
            var cfna := Lookup(fwdMap, ext, NoAnswer);
            && (cfu.Some? ==> Same(Dial(ViaTrunk(cfu.value.destination), timeout, "tT")) in block)
            && (cfu.None? ==>
                  Same(Dial(Device(ext), if cfna.Some? then cfna.value.ringTime else timeout, "tTr")) in block)
  {
    var ext := route.destinationExtension;
    DL.RingsFor(ext, fwdMap, RingTimeoutFor(ringTimeouts, ext), true);
  }
}
