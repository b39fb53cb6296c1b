# A verified model of the gonopbx dialplan generator

gonopbx writes Asterisk's `extensions.conf` from five lists of records:
- inbound routes (DID, destination extension, trunk, description);
- call forwards (extension, type, destination, ring time);
- voicemail boxes (extension, ring timeout);
- SIP peers (extension, outbound caller ID, P-Asserted-Identity user);
- SIP trunks (id, SIP server).

This project models that generator, `backend/dialplan.py`, in Dafny and proves what the generated dialplan does.

The model has three layers:

- **`dialplan_syntax.dfy`**: the dialplan as data. A line is one of:
  - a `[context]` header;
  - a `key=value` setting of `[general]` or `[globals]`;
  - a comment or a blank line;
  - an `exten => …,1,` head;
  - a `same => n,` continuation, optionally labelled.

  Heads and continuations each run one application. `Render` turns lines into the text the generator writes, one line and a newline at a time.
- **The builders**, each a method or function proved equal to a specification function:
  - the forward map (`forward_map.dfy`): a `for` loop, as the source's loop;
  - the outbound map (`outbound_map.dfy`): three loops, as the source's. It is an insertion-ordered dict, modelled as `OrderedMap` (keys in insertion order beside the map);
  - the ring-timeout map (`ring_timeout.dfy`): a recursive function standing for the source's dict comprehension;
  - the dial logic of one extension (`dial_logic.dfy`): straight-line branches, as the source's `if`/`elif` chain, with no loop;
  - the whole generator (`extensions_config.dfy`): loops over the trunks, overrides, outbound keys and routes, as the source's.
- **`config_properties.dfy`**: what the document as a whole states. That covers which extensions it dispatches on and in what order, which contexts it opens, and how often it answers. It also covers where the outbound jumps land, what an outbound target asserts, and which ring time each block dials with.

Three supporting files:
- `decimal.dfy` prints integers (trunk ids, ring times) and reads them back;
- `string_order.dfy` gives the order of Python's `sorted` on strings;
- `records.dfy` holds the records and Python's truthiness of an optional string.

One behaviour is modelled exactly as written, and its consequence is proved rather than avoided. The device-state jumps go to the label `unavail`, but only the busy-only and no-forward tails define that label. So with a no-answer forward, an unreachable device jumps to a label the block does not have (`DialLogic.UnavailLabelDefined`).

## Model

| member | source | states |
|---|---|---|
| `ForwardMap.BuildForwardMap` | backend/dialplan.py:16-23 | the loop builds the grouped forward map, each rule stored over the earlier ones |
| `ForwardMap.ForwardMapKeys` | backend/dialplan.py:19-21 | an extension is a key exactly when some forward names it |
| `ForwardMap.ForwardMapLastWins` | backend/dialplan.py:19-22 | an (extension, type) entry exists exactly when some forward has that pair, and it is the last such forward in input order |
| `ForwardMap.Lookup` | backend/dialplan.py:31-34 | `fwd_map.get(ext, {}).get(kind)` finds a rule exactly when the extension and the type are both present, and the rule found is the map's entry |
| `DialLogic.GenerateDialLogic` | backend/dialplan.py:26-94 | the `append` branches produce exactly the line sequence of the dial-logic specification |
| `DialLogic.UnconditionalShortCircuit` | backend/dialplan.py:39-46 | with an unconditional forward: no device-state probe, no dial-status test, no voicemail; the only dial goes to `<dest>@trunk` for the supplied ring time, once; the block ends in `Hangup()` |
| `DialLogic.EarlyAnswerOnce` | backend/dialplan.py:39-51 | `Answer()` occurs once when early answer is asked for and never otherwise; when it occurs it is followed at once by `Wait(0.5)`, and no dial comes before it |
| `DialLogic.ProbeWindow` | backend/dialplan.py:53-57 | without an unconditional forward, right after the optional answer come the `DEVICE_STATE` probe, the UNAVAILABLE and INVALID jumps to `unavail` in that order, and the device dial for the no-answer forward's ring time or else the supplied one |
| `DialLogic.ProbeOnce` | backend/dialplan.py:53-94 | without an unconditional forward the device state is set exactly once |
| `DialLogic.RingsFor` | backend/dialplan.py:39-57 | the dial that rings the call uses the supplied ring time, except that a no-answer forward's own ring time governs the device dial |
| `DialLogic.DeviceStateJumpsPresent` | backend/dialplan.py:39-57 | the UNAVAILABLE and INVALID jumps are present exactly when there is no unconditional forward |
| `DialLogic.ForwardDialsRing` | backend/dialplan.py:60-85 | every dial through the trunk in the busy/no-answer tails rings for 30 seconds |
| `DialLogic.VoicemailCount` | backend/dialplan.py:60-94 | in each of the four tails there is exactly one voicemail with the `u` greeting and exactly one with the `b` greeting |
| `DialLogic.VoicemailHangups` | backend/dialplan.py:60-94 | every `VoiceMail` line is followed at once by `Hangup()`, and the block's last line is `Hangup()` |
| `DialLogic.VoicemailTails` | backend/dialplan.py:60-94 | the tail properties together: one `u` and one `b` voicemail and no other, each hung up after, the block ending in `Hangup()`, and no trunk dial when neither forward exists |
| `DialLogic.OnlyDialStatusBranch` | backend/dialplan.py:53-94 | the `DIALSTATUS` branch comes right after the device dial, occurs exactly once, and is the only line that tests the dial status |
| `DialLogic.ForwardsDialled` | backend/dialplan.py:58-86 | without an unconditional forward, a busy forward and a no-answer forward are each dialled through the trunk after the device dial |
| `DialLogic.BranchLabelsDefined` | backend/dialplan.py:60-92 | the labels the dial-status branch names (`busy`, and `noanswer` or `unavail`) are defined in the block |
| `DialLogic.DialStatusTargets` | backend/dialplan.py:60-92 | every dial-status test jumps only to labels the block defines, on both outcomes |
| `DialLogic.UnavailLabelDefined` | backend/dialplan.py:53-94 | `unavail` is defined exactly when there is neither an unconditional nor a no-answer forward |
| `DialLogic.DialLogicContinuesOnly` | backend/dialplan.py:36-94 | the block is non-empty and consists only of `same =>` continuations of the caller's extension head |
| `DialLogic.NoAnswerLegLines` | backend/dialplan.py:60-94 | the no-answer leg neither probes, tests the dial status nor answers; its voicemail is the `u` greeting and its only trunk dial is the no-answer forward's; with a forward, the leg dials it second, before the voicemail |
| `DialLogic.NoAnswerLegVoicemail` | backend/dialplan.py:60-94 | the no-answer leg leaves one `u` voicemail, hangs up after it and ends hung up |
| `DialLogic.NoAnswerLegLabel` | backend/dialplan.py:60-94 | the no-answer leg opens with label `noanswer` when forwarding, `unavail` otherwise, and defines no other label |
| `DialLogic.BusyLegLines` | backend/dialplan.py:60-94 | the busy leg neither probes, tests the dial status nor answers; its voicemail is the `b` greeting and its only trunk dial is the busy forward's; with a forward, the leg dials it second, before the voicemail |
| `DialLogic.BusyLegVoicemail` | backend/dialplan.py:60-94 | the busy leg leaves one `b` voicemail, hangs up after it and ends hung up |
| `DialLogic.BusyLegLabel` | backend/dialplan.py:60-94 | the busy leg opens with label `busy` and defines no other label |
| `OutboundMap.BuildOutboundMap` | backend/dialplan.py:97-128 | the three loops build exactly the specified outbound map |
| `OutboundMap.BuildPeerMap` | backend/dialplan.py:101-104 | the peer loop builds the peer map, later peers overwriting earlier ones |
| `OutboundMap.GroupRoutes` | backend/dialplan.py:107-112 | the keys come in order of first appearance; each extension's list holds its routes in input order |
| `OutboundMap.SelectEntries` | backend/dialplan.py:114-127 | one entry per grouped extension, with the selected route and the peer's `pai` |
| `OutboundMap.PickRoute` | backend/dialplan.py:116-123 | the search with `break` picks the specified route |
| `OutboundMap.FindDid` | backend/dialplan.py:120-123 | the position found is the first route with the DID, and none is found only when no route has it |
| `OutboundMap.RoutesFor` | backend/dialplan.py:107-112 | an extension's routes are exactly the routes pointing at it |
| `OutboundMap.RoutesForFirst` | backend/dialplan.py:107-112 | the head of an extension's list is the earliest route pointing at it, so `routes[0]` at 125 is the first such route |
| `OutboundMap.RoutesForOrder` | backend/dialplan.py:107-112 | an extension's list keeps input order: its j-th route sits at an input position before which every route to the extension is among its first j |
| `OutboundMap.OutboundMapOf` | backend/dialplan.py:114-128 | the outbound map is a well-formed ordered dict: distinct keys, which are exactly the map's domain |
| `OutboundMap.KeysHaveRoutes` | backend/dialplan.py:107-112 | an extension is a key exactly when it has at least one route |
| `OutboundMap.DestinationOrderFacts` | backend/dialplan.py:107-115 | the keys are distinct and are exactly the destination extensions of the routes |
| `OutboundMap.FirstAppearanceOrder` | backend/dialplan.py:107-115 | when one key precedes another, some route to the first comes before every route to the second |
| `OutboundMap.PeerMapLastWins` | backend/dialplan.py:101-104 | an extension has a peer exactly when some peer names it, and the stored peer is the last such |
| `OutboundMap.SelectedRoute` | backend/dialplan.py:114-127 | the chosen route is one of the key's routes: the first whose DID is the peer's non-empty caller ID if one exists, else the key's first route; `pai` is the peer's or none |
| `OutboundMap.SelectedRouteInInput` | backend/dialplan.py:107-127 | the chosen route, located in the input: with a matching caller ID no earlier route to the extension has that DID, otherwise no earlier route goes to the extension |
| `RingTimeout.RingTimeoutOf` | backend/dialplan.py:133 | `ring_timeout or 20`: a missing or zero timeout is 20 seconds, any other is kept, and the result is never zero |
| `RingTimeout.RingTimeoutMapLastWins` | backend/dialplan.py:131-133 | the keys are exactly the mailboxes' extensions and each value is the timeout of the last mailbox with that extension |
| `RingTimeout.RingTimeoutsNonZero` | backend/dialplan.py:133 | no extension in the map rings for zero seconds |
| `RingTimeout.RingTimeoutFor` | backend/dialplan.py:176 | `ring_timeout_map.get(ext, 20)`: the mapped timeout, or 20 seconds without a mailbox |
| `StringOrder.Sorted` | backend/dialplan.py:175 | `sorted(override_extensions)` lists every element once, in strictly increasing string order |
| `StringOrder.SortedUnique` | backend/dialplan.py:175 | no other strictly increasing listing of the set exists, so the emission order is determined |
| `Decimal.IntToStringRoundTrip` | backend/dialplan.py:197 | a printed trunk id or ring time is non-empty and reads back as the same integer |
| `Decimal.IntToStringInjective` | backend/dialplan.py:197 | distinct trunk ids print as distinct texts |
| `DialplanSyntax.RenderEndsWithNewline` | backend/dialplan.py:282-286 | the text of a non-empty document ends with a newline |
| `DialplanSyntax.RenderConcat` | backend/dialplan.py:148-288 | the text of two line sequences after one another is the first's text followed by the second's, as `config +=` builds it |
| `DialplanSyntax.TrunkEndpointsDistinct` | backend/dialplan.py:203 | distinct trunk ids dial distinct `trunk-ep-<id>` endpoints |
| `ExtensionsConfig.GenerateExtensionsConfig` | backend/dialplan.py:136-288 | the generator returns the text of the specified document for the five input lists |
| `ExtensionsConfig.BuildTrunkMap` | backend/dialplan.py:143-146 | the trunk loop builds the trunk map, later trunks overwriting earlier ones |
| `ExtensionsConfig.TrunkMapLastWins` | backend/dialplan.py:143-146 | an id has a trunk exactly when some trunk has it, and the stored trunk has that id and is the last trunk with it |
| `ExtensionsConfig.PaiDomain` | backend/dialplan.py:200-201 | the identity's host is the trunk's SIP server, or `localhost` when no trunk has the id |
| `ExtensionsConfig.CollectOverrides` | backend/dialplan.py:164-168 | the loop yields the forward-map keys plus the extensions whose timeout is not 20 |
| `ExtensionsConfig.EmitOverrides` | backend/dialplan.py:174-181 | the loop emits one override block per extension, in the given order |
| `ExtensionsConfig.EmitOutbound` | backend/dialplan.py:183-226 | the outbound part is the two dispatchers, present only when the outbound map is non-empty |
| `ExtensionsConfig.EmitJumps` | backend/dialplan.py:188-189 | one `GotoIf` per outbound extension, in map order |
| `ExtensionsConfig.EmitTargets` | backend/dialplan.py:193-204 | one `out-<ext>` target per outbound extension, in map order |
| `ExtensionsConfig.EmitTarget` | backend/dialplan.py:194-204 | the lines of one extension's outbound target |
| `ExtensionsConfig.EmitRoutes` | backend/dialplan.py:264-273 | one answered block per inbound route, in input order |
| `ConfigProperties.Dids` | backend/dialplan.py:265-269 | the routes' DIDs, one per route, in input order |
| `ConfigProperties.DocumentOutline` | backend/dialplan.py:136-288 | the document's extension patterns are, in order: `_1XXX`; the sorted overrides; `_0X.` and `_+X.` exactly when there is a route; `*98`, `_*97XXXX`, `*43`, `s`; one DID per route (or `_X.` without routes); `_[+0-9].`. Its contexts are general, globals, internal and from-trunk, and it answers once per route plus the three static answers |
| `ConfigProperties.AssembleOutline` | backend/dialplan.py:149-286 | the same outline for given lookups, with the outbound dispatchers present exactly when the outbound map is non-empty |
| `ConfigProperties.DocumentEndsWithCatchAll` | backend/dialplan.py:281-286 | the document always ends with the `_[+0-9].` catch-all head and its `Hangup()` |
| `ConfigProperties.DocumentTextEndsWithCatchAll` | backend/dialplan.py:281-288 | the returned text ends with the catch-all's text and with a newline |
| `ConfigProperties.AssembleEndsWithCatchAll` | backend/dialplan.py:281-286 | for any lookups, the last four lines are the catch-all block |
| `ConfigProperties.OverrideExtensionsExact` | backend/dialplan.py:164-168 | an extension gets an override block exactly when some forward names it or its last mailbox's timeout is not 20 |
| `ConfigProperties.OverridesOnceInOrder` | backend/dialplan.py:174-181 | the override blocks dispatch on each override extension once, in strictly increasing order, and never answer |
| `ConfigProperties.OverrideRingTime` | backend/dialplan.py:175-180 | an override block rings for the extension's mapped timeout (20 seconds without a mailbox); a no-answer forward's ring time governs the device dial |
| `ConfigProperties.RouteRingTime` | backend/dialplan.py:265-272 | a route's block rings its destination extension for that extension's mapped timeout in the same way |
| `ConfigProperties.InternalBlockOutline` | backend/dialplan.py:170-172 | the internal dial logic adds no extension head, no context and no answer |
| `ConfigProperties.OverrideBlockOutline` | backend/dialplan.py:175-181 | an override block heads exactly its extension and never answers |
| `ConfigProperties.OverrideBlocksOutline` | backend/dialplan.py:174-181 | the override blocks head exactly the given extensions, in order, and never answer |
| `ConfigProperties.DialOutline` | backend/dialplan.py:26-94 | a dial-logic block opens no extension or context and answers once exactly when early answer is asked for |
| `ConfigProperties.OutboundSectionOutline` | backend/dialplan.py:183-226 | the outbound section heads `_0X.` then `_+X.` when the outbound map is non-empty, and nothing otherwise |
| `ConfigProperties.DomesticOutline` | backend/dialplan.py:184-205 | the national dispatcher heads only `_0X.` and never answers |
| `ConfigProperties.InternationalOutline` | backend/dialplan.py:207-226 | the `+` dispatcher heads only `_+X.` and never answers |
| `ConfigProperties.TargetShape` | backend/dialplan.py:193-204 | a target has the label `out-<ext>`, presents the route's DID as caller ID, and sends a P-Asserted-Identity header exactly when `pai` is truthy (host: the trunk's SIP server or `localhost`); it then dials the trunk endpoint for 120 seconds and hangs up |
| `ConfigProperties.JumpsInOrder` | backend/dialplan.py:188-189 | the i-th jump is the jump for the i-th outbound key |
| `ConfigProperties.TargetsDefineLabels` | backend/dialplan.py:193-204 | every outbound key's `out-<key>` label is defined among the targets |
| `ConfigProperties.OutboundJumpsLand` | backend/dialplan.py:188-204 | each dispatcher jump tests the calling endpoint against its key and lands on a label the targets define |
| `ConfigProperties.PreambleOutline` | backend/dialplan.py:149-163 | the fixed head opens general, globals and internal and heads `_1XXX` |
| `ConfigProperties.StaticBlocksOutline` | backend/dialplan.py:228-249 | the static blocks head `*98`, `_*97XXXX`, `*43`, answer three times and open from-trunk |
| `ConfigProperties.DidFallbackOutline` | backend/dialplan.py:252-262 | the fallback heads only `s` and never answers |
| `ConfigProperties.RouteBlockOutline` | backend/dialplan.py:265-273 | a route's block heads only its DID and answers once |
| `ConfigProperties.RouteBlocksOutline` | backend/dialplan.py:264-273 | the route blocks head the DIDs in input order and answer once per route |
| `ConfigProperties.InboundOutline` | backend/dialplan.py:264-279 | the inbound part heads one DID per route, or `_X.` when there are no routes, answering once per route |
| `ConfigProperties.NoRoutesBlockOutline` | backend/dialplan.py:274-279 | the no-routes block heads only `_X.` and never answers |
| `ConfigProperties.CatchAllOutline` | backend/dialplan.py:281-286 | the catch-all heads only `_[+0-9].` and never answers |

## Left out

- `write_extensions_config` (backend/dialplan.py:291-306) is left out: it is file-system I/O, with exceptions turned into a boolean and logged.
- `reload_dialplan` (backend/dialplan.py:309-329) is left out: it runs `docker exec` as an external process with a timeout.
- Logging is left out.
- The ORM classes are plain datatypes holding only the fields the generator reads. Optional list arguments (`forwards or []`, `if peers:`, `if trunks:`) are sequences, with `None` standing as the empty list.
- `backend/routers/settings.py` is not part of this model. It consists of web handlers over database sessions and file writers.
- `_generate_dial_logic`'s default `ring_time=30` is not modelled, because every call in the generator passes a ring time.
- Integers (ring times, timeouts, trunk ids) are unbounded, as Python's are. They are printed in decimal with a leading `-` for negatives.
- A trunk's `sip_server`, a forward's `ring_time` (backend/dialplan.py:54, dialled at 57) and a route's `trunk_id` (backend/dialplan.py:196-203, 217-224) are taken to be present. A database NULL in any of them would print as `None` in Python.
- The generator's text is built as a line sequence and rendered once at the end, not grown by `+=`. Some `+=` of the source append an unfinished line: `_generate_dial_logic` returns its lines joined without a final newline (backend/dialplan.py:94), and the `+=` right after it finishes that line: `+= "\n\n"` at 172 and 181 also adds a blank line, while `+= "\n"` at 273 only ends the line. The line sequence records the finished lines, and `DialplanSyntax.RenderConcat` states that rendering respects concatenation.
- The outline properties (`ConfigProperties.DocumentOutline` and the other `…Outline` lemmas) are about the line structure. They carry over to the written text only when no record string contains a newline. A route description such as `"x\n[evil]"` (backend/dialplan.py:266-268), or a DID or extension holding a newline, adds lines, and even contexts, to the text that the line sequence does not have.
- The static blocks are modelled line by line as constant lines. Their only properties proved are the extension heads, contexts and answers they contribute, and their position.
- String order is code-point lexicographic order on `seq<char>`, as Python compares `str`. Unicode normalisation does not arise.
- `CollectOverrides` visits the timeout map in an arbitrary order, where Python uses insertion order. The result is a set, so the order cannot matter.
