/**
 * `_generate_dial_logic`: the continuation lines that ring one extension,
 * with call forwarding and voicemail.
 *
 * An unconditional forward dials its destination through the trunk and
 * stops. Otherwise the channel is optionally answered first, the device
 * state is probed (UNAVAILABLE and INVALID jump to `unavail`), the device is
 * dialled, and the dial status selects a no-answer leg and a busy leg, each
 * either forwarding (`ForwardRingTime`, 30 seconds) and then leaving voicemail, or leaving
 * voicemail directly.
 */
module DialLogic {
  import opened Wrappers
  import opened Records
  import opened DialplanSyntax
  import opened ForwardMap

  /** Ring time of a busy or no-answer forward's own dial. */
  const ForwardRingTime: int := 30

  // The notes of the forwarding legs.
  const CfuNote := "CFU active: forwarding to "
  const CfnaNote := "CFNA: forwarding to "
  const CfbNote := "CFB: forwarding to "

  function ProbeLine(ext: string): Line
  {
    Same(Set("DEVICE_STATE", "${DEVICE_STATE(PJSIP/" + ext + ")}"))
  }

  function DeviceStateJump(state: string): Line
  {
    Same(GotoIf(StrEquals("${DEVICE_STATE}", state), "unavail", None))
  }

  function DialStatusBranch(otherLabel: string): Line
  {
    Same(GotoIf(StrEquals("${DIALSTATUS}", "BUSY"), "busy", Some(otherLabel)))
  }

  function ForwardDial(fwd: CallForward): Line
  {
    Same(Dial(ViaTrunk(fwd.destination), ForwardRingTime, "tT"))
  }

  function EarlyAnswerLines(earlyAnswer: bool): seq<Line>
  {
    if earlyAnswer then [Same(Answer), Same(Wait("0.5"))] else []
  }

  function UnconditionalLines(cfu: CallForward, ringTime: int, earlyAnswer: bool): seq<Line>
  {
    [Same(NoOp(CfuNote + cfu.destination))]
    + EarlyAnswerLines(earlyAnswer)
    + [Same(Dial(ViaTrunk(cfu.destination), ringTime, "tT")), Same(Hangup)]
  }

  function ProbeAndDial(ext: string, ringTime: int): seq<Line>
  {
    [ProbeLine(ext), DeviceStateJump("UNAVAILABLE"), DeviceStateJump("INVALID"),
     Same(Dial(Device(ext), ringTime, "tTr"))]
  }

  /** The leg taken when the dial was not busy. */
  function NoAnswerLeg(ext: string, cfna: Option<CallForward>): seq<Line>
  {
    match cfna
    case Some(f) =>
      [SameLabelled("noanswer", NoOp(CfnaNote + f.destination)), ForwardDial(f),
       Same(VoiceMail(ext, Some(UnavailableGreeting))), Same(Hangup)]
    case None =>
      [SameLabelled("unavail", VoiceMail(ext, Some(UnavailableGreeting))), Same(Hangup)]
  }

  /** The leg taken when the dial was busy. */
  function BusyLeg(ext: string, cfb: Option<CallForward>): seq<Line>
  {
    match cfb
    case Some(f) =>
      [SameLabelled("busy", NoOp(CfbNote + f.destination)), ForwardDial(f),
       Same(VoiceMail(ext, Some(BusyGreeting))), Same(Hangup)]
    case None =>
      [SameLabelled("busy", VoiceMail(ext, Some(BusyGreeting))), Same(Hangup)]
  }

  function Tail(ext: string, cfb: Option<CallForward>, cfna: Option<CallForward>): seq<Line>
  {
    [DialStatusBranch(if cfna.Some? then "noanswer" else "unavail")]
    + NoAnswerLeg(ext, cfna) + BusyLeg(ext, cfb)
  }

  /** The lines `_generate_dial_logic(ext, fwd, ringTime, earlyAnswer)` joins. */
  function DialLines(ext: string, fwd: ForwardMap, ringTime: int, earlyAnswer: bool): seq<Line>
  {
    var cfu := Lookup(fwd, ext, Unconditional);
    var cfb := Lookup(fwd, ext, Busy);
    var cfna := Lookup(fwd, ext, NoAnswer);
    match cfu
    case Some(u) => UnconditionalLines(u, ringTime, earlyAnswer)
    case None =>
      EarlyAnswerLines(earlyAnswer)
      + ProbeAndDial(ext, if cfna.Some? then cfna.value.ringTime else ringTime)
      + Tail(ext, cfb, cfna)
  }

  method GenerateDialLogic(ext: string, fwdMap: ForwardMap, ringTime: int, earlyAnswer: bool)
    returns (lines: seq<Line>)
    ensures lines == DialLines(ext, fwdMap, ringTime, earlyAnswer)
  {
    var forwards := if ext in fwdMap then fwdMap[ext] else map[];
    var cfu := Get(forwards, Unconditional);
    var cfb := Get(forwards, Busy);
    var cfna := Get(forwards, NoAnswer);
    assert cfu == Lookup(fwdMap, ext, Unconditional);
    assert cfb == Lookup(fwdMap, ext, Busy);
    assert cfna == Lookup(fwdMap, ext, NoAnswer);

    lines := [];

    // Unconditional forward: skip dialling the extension entirely.
    if cfu.Some? {
      var dest := cfu.value.destination;
      lines := lines + [Same(NoOp(CfuNote + dest))];
      if earlyAnswer {
        lines := lines + [Same(Answer), Same(Wait("0.5"))];
      }
      lines := lines + [Same(Dial(ViaTrunk(dest), ringTime, "tT")), Same(Hangup)];
      return;
    }

    // Answer inbound trunk calls before the device-state probe.
    if earlyAnswer {
      lines := lines + [Same(Answer), Same(Wait("0.5"))];
    }

    var actualRing := if cfna.Some? then cfna.value.ringTime else ringTime;
    lines := lines + [
      Same(Set("DEVICE_STATE", "${DEVICE_STATE(PJSIP/" + ext + ")}")),
      Same(GotoIf(StrEquals("${DEVICE_STATE}", "UNAVAILABLE"), "unavail", None)),
      Same(GotoIf(StrEquals("${DEVICE_STATE}", "INVALID"), "unavail", None)),
      Same(Dial(Device(ext), actualRing, "tTr"))];
    assert lines == EarlyAnswerLines(earlyAnswer) + ProbeAndDial(ext, actualRing);

    var busyStatus := StrEquals("${DIALSTATUS}", "BUSY");
    var tail: seq<Line>;
    if cfb.Some? && cfna.Some? {
      tail := [
        Same(GotoIf(busyStatus, "busy", Some("noanswer"))),
        SameLabelled("noanswer", NoOp(CfnaNote + cfna.value.destination)),
        Same(Dial(ViaTrunk(cfna.value.destination), ForwardRingTime, "tT")),
        Same(VoiceMail(ext, Some(UnavailableGreeting))),
        Same(Hangup),
        SameLabelled("busy", NoOp(CfbNote + cfb.value.destination)),
        Same(Dial(ViaTrunk(cfb.value.destination), ForwardRingTime, "tT")),
        Same(VoiceMail(ext, Some(BusyGreeting))),
        Same(Hangup)];
      assert tail == Tail(ext, cfb, cfna);
    } else if cfb.Some? {
      tail := [
        Same(GotoIf(busyStatus, "busy", Some("unavail"))),
        SameLabelled("unavail", VoiceMail(ext, Some(UnavailableGreeting))),
        Same(Hangup),
        SameLabelled("busy", NoOp(CfbNote + cfb.value.destination)),
        Same(Dial(ViaTrunk(cfb.value.destination), ForwardRingTime, "tT")),
        Same(VoiceMail(ext, Some(BusyGreeting))),
        Same(Hangup)];
      assert tail == Tail(ext, cfb, cfna);
    } else if cfna.Some? {
      tail := [
        Same(GotoIf(busyStatus, "busy", Some("noanswer"))),
        SameLabelled("noanswer", NoOp(CfnaNote + cfna.value.destination)),
        Same(Dial(ViaTrunk(cfna.value.destination), ForwardRingTime, "tT")),
        Same(VoiceMail(ext, Some(UnavailableGreeting))),
        Same(Hangup),
        SameLabelled("busy", VoiceMail(ext, Some(BusyGreeting))),
        Same(Hangup)];
      assert tail == Tail(ext, cfb, cfna);
    } else {
      // No forwarding: standard behaviour.
      tail := [
        Same(GotoIf(busyStatus, "busy", Some("unavail"))),
        SameLabelled("unavail", VoiceMail(ext, Some(UnavailableGreeting))),
        Same(Hangup),
        SameLabelled("busy", VoiceMail(ext, Some(BusyGreeting))),
        Same(Hangup)];
      assert tail == Tail(ext, cfb, cfna);
    }
    lines := lines + tail;
  }

  // ---------------------------------------------------------------------
  // Properties of the emitted block

  predicate IsDeviceProbe(l: Line)
  {
    AppOf(l).Some? && AppOf(l).value.Set? && AppOf(l).value.variable == "DEVICE_STATE"
  }

  predicate IsDialStatusTest(l: Line)
  {
    AppOf(l).Some? && AppOf(l).value.GotoIf? && AppOf(l).value.cond.StrEquals?
    && AppOf(l).value.cond.lhs == "${DIALSTATUS}"
  }

  predicate IsVoiceMail(l: Line)
  {
    AppOf(l).Some? && AppOf(l).value.VoiceMail?
  }

  predicate IsDial(l: Line)
  {
    AppOf(l).Some? && AppOf(l).value.Dial?
  }

  predicate IsTrunkDial(l: Line)
  {
    IsDial(l) && AppOf(l).value.target.ViaTrunk?
  }

  predicate DefinesLabel(lines: seq<Line>, name: string)
  {
    exists l :: l in lines && l.SameLabelled? && l.labelName == name
  }

  /** Every voicemail line is followed at once by `Hangup()`. */
  predicate VoicemailThenHangup(lines: seq<Line>)
  {
    forall i :: 0 <= i < |lines| && IsVoiceMail(lines[i]) ==>
      i + 1 < |lines| && lines[i + 1] == Same(Hangup)
  }

  lemma VoicemailThenHangupConcat(a: seq<Line>, b: seq<Line>)
    requires VoicemailThenHangup(a) && VoicemailThenHangup(b)
    ensures VoicemailThenHangup(a + b)
  {
    forall i | 0 <= i < |a + b| && IsVoiceMail((a + b)[i])
      ensures i + 1 < |a + b| && (a + b)[i + 1] == Same(Hangup)
    {
      if i < |a| {
        assert IsVoiceMail(a[i]);
      } else {
        assert IsVoiceMail(b[i - |a|]);
      }
    }
  }

  lemma NoVoicemailThenHangup(lines: seq<Line>)
    requires forall l :: l in lines ==> !IsVoiceMail(l)
    ensures VoicemailThenHangup(lines)
  {
    assert forall i :: 0 <= i < |lines| ==> lines[i] in lines;
  }

  /** The lines before the tail: optional answer, probe, jumps, dial. */
  function PreTail(ext: string, fwd: ForwardMap, ringTime: int, earlyAnswer: bool): seq<Line>
  {
    var cfna := Lookup(fwd, ext, NoAnswer);
    EarlyAnswerLines(earlyAnswer) + ProbeAndDial(ext, if cfna.Some? then cfna.value.ringTime else ringTime)
  }

  lemma DialLogicSplit(ext: string, fwd: ForwardMap, ringTime: int, earlyAnswer: bool)
    requires Lookup(fwd, ext, Unconditional).None?
    ensures DialLines(ext, fwd, ringTime, earlyAnswer)
         == PreTail(ext, fwd, ringTime, earlyAnswer)
            + [DialStatusBranch(if Lookup(fwd, ext, NoAnswer).Some? then "noanswer" else "unavail")]
            + NoAnswerLeg(ext, Lookup(fwd, ext, NoAnswer))
            + BusyLeg(ext, Lookup(fwd, ext, Busy))
  {
  }

  /** The lines of an unconditional forward: its notice, the optional answer, the dial, the hang-up. */
  lemma UnconditionalSplit(ext: string, fwd: ForwardMap, ringTime: int, earlyAnswer: bool)
    requires Lookup(fwd, ext, Unconditional).Some?
    ensures var dest := Lookup(fwd, ext, Unconditional).value.destination;
            DialLines(ext, fwd, ringTime, earlyAnswer)
            == [Same(NoOp(CfuNote + dest))] + EarlyAnswerLines(earlyAnswer)
               + [Same(Dial(ViaTrunk(dest), ringTime, "tT")), Same(Hangup)]
  {
  }

  lemma PreTailFacts(ext: string, fwd: ForwardMap, ringTime: int, earlyAnswer: bool)
    ensures forall l :: l in PreTail(ext, fwd, ringTime, earlyAnswer) ==>
              !IsVoiceMail(l) && !IsTrunkDial(l) && !l.SameLabelled? && !IsDialStatusTest(l)
  {
  }

  /**
   * A line of a no-answer or busy leg: no probe, no dial-status test, no
   * answer; its voicemail uses the leg's greeting and its trunk dial is the
   * leg's forward.
   */
  predicate LegLine(l: Line, ext: string, greeting: Greeting, fwd: Option<CallForward>)
  {
    && !IsDeviceProbe(l) && !IsDialStatusTest(l) && AppOf(l) != Some(Answer)
    && (IsVoiceMail(l) ==> AppOf(l) == Some(VoiceMail(ext, Some(greeting))))
    && (IsTrunkDial(l) ==> fwd.Some? && l == ForwardDial(fwd.value))
  }

  predicate LegLines(leg: seq<Line>, ext: string, greeting: Greeting, fwd: Option<CallForward>)
  {
    forall l :: l in leg ==> LegLine(l, ext, greeting, fwd)
  }

  /** A leg leaves one voicemail with its greeting, hangs up after it and ends hung up. */
  predicate LegVoicemail(leg: seq<Line>, ext: string, greeting: Greeting)
  {
    && VoicemailThenHangup(leg)
    && AppCount(leg, VoiceMail(ext, Some(greeting))) == 1
    && leg != [] && leg[|leg| - 1] == Same(Hangup)
  }

  /** A leg opens with its label and defines no other. */
  predicate LegLabel(leg: seq<Line>, name: string)
  {
    && leg != [] && leg[0].SameLabelled? && leg[0].labelName == name
    && (forall l :: l in leg && l.SameLabelled? ==> l == leg[0])
  }

  /** The no-answer leg; a no-answer forward is dialled before the voicemail. */
  lemma NoAnswerLegLines(ext: string, cfna: Option<CallForward>)
    ensures LegLines(NoAnswerLeg(ext, cfna), ext, UnavailableGreeting, cfna)
    ensures cfna.Some? ==> |NoAnswerLeg(ext, cfna)| == 4 && NoAnswerLeg(ext, cfna)[1] == ForwardDial(cfna.value)
                           && NoAnswerLeg(ext, cfna)[2] == Same(VoiceMail(ext, Some(UnavailableGreeting)))
  {
  }

  lemma NoAnswerLegVoicemail(ext: string, cfna: Option<CallForward>)
    ensures LegVoicemail(NoAnswerLeg(ext, cfna), ext, UnavailableGreeting)
  {
    var leg := NoAnswerLeg(ext, cfna);
    var u := VoiceMail(ext, Some(UnavailableGreeting));
    match cfna
    case Some(f) =>
      AppCountOne(leg[..2], leg[2], leg[3..], u);
      assert leg == leg[..2] + [leg[2]] + leg[3..];
    case None =>
      AppCountOne([], leg[0], leg[1..], u);
      assert leg == [] + [leg[0]] + leg[1..];
  }

  lemma NoAnswerLegLabel(ext: string, cfna: Option<CallForward>)
    ensures LegLabel(NoAnswerLeg(ext, cfna), if cfna.Some? then "noanswer" else "unavail")
  {
  }

  /** The busy leg; a busy forward is dialled before the voicemail. */
  lemma BusyLegLines(ext: string, cfb: Option<CallForward>)
    ensures LegLines(BusyLeg(ext, cfb), ext, BusyGreeting, cfb)
    ensures cfb.Some? ==> |BusyLeg(ext, cfb)| == 4 && BusyLeg(ext, cfb)[1] == ForwardDial(cfb.value)
                          && BusyLeg(ext, cfb)[2] == Same(VoiceMail(ext, Some(BusyGreeting)))
  {
  }

  lemma BusyLegVoicemail(ext: string, cfb: Option<CallForward>)
    ensures LegVoicemail(BusyLeg(ext, cfb), ext, BusyGreeting)
  {
    var leg := BusyLeg(ext, cfb);
    var b := VoiceMail(ext, Some(BusyGreeting));
    match cfb
    case Some(f) =>
      AppCountOne(leg[..2], leg[2], leg[3..], b);
      assert leg == leg[..2] + [leg[2]] + leg[3..];
    case None =>
      AppCountOne([], leg[0], leg[1..], b);
      assert leg == [] + [leg[0]] + leg[1..];
  }

  lemma BusyLegLabel(ext: string, cfb: Option<CallForward>)
    ensures LegLabel(BusyLeg(ext, cfb), "busy")
  {
  }

  lemma ContinuationsConcat(a: seq<Line>, b: seq<Line>)
    requires AllContinuations(a) && AllContinuations(b)
    ensures AllContinuations(a + b)
  {
  }

  lemma PiecesContinue(ext: string, ringTime: int, earlyAnswer: bool,
                       cfb: Option<CallForward>, cfna: Option<CallForward>)
    ensures AllContinuations(EarlyAnswerLines(earlyAnswer))
    ensures AllContinuations(ProbeAndDial(ext, ringTime))
    ensures AllContinuations(NoAnswerLeg(ext, cfna)) && AllContinuations(BusyLeg(ext, cfb))
    ensures AllContinuations([DialStatusBranch(if cfna.Some? then "noanswer" else "unavail")])
  {
  }

  /** The block only continues the extension whose header the caller wrote. */
  lemma DialLogicContinuesOnly(ext: string, fwd: ForwardMap, ringTime: int, earlyAnswer: bool)
    ensures AllContinuations(DialLines(ext, fwd, ringTime, earlyAnswer))
    ensures |DialLines(ext, fwd, ringTime, earlyAnswer)| > 0
  {
    var cfb := Lookup(fwd, ext, Busy);
    var cfna := Lookup(fwd, ext, NoAnswer);
    match Lookup(fwd, ext, Unconditional)
    case Some(u) =>
      var e := EarlyAnswerLines(earlyAnswer);
      var first := [Same(NoOp(CfuNote + u.destination))];
      var last := [Same(Dial(ViaTrunk(u.destination), ringTime, "tT")), Same(Hangup)];
      PiecesContinue(ext, ringTime, earlyAnswer, cfb, cfna);
      ContinuationsConcat(first, e);
      ContinuationsConcat(first + e, last);
    case None =>
      var rt := if cfna.Some? then cfna.value.ringTime else ringTime;
      var e := EarlyAnswerLines(earlyAnswer);
      var pd := ProbeAndDial(ext, rt);
      var branch := [DialStatusBranch(if cfna.Some? then "noanswer" else "unavail")];
      PiecesContinue(ext, rt, earlyAnswer, cfb, cfna);
      ContinuationsConcat(e, pd);
      ContinuationsConcat(branch, NoAnswerLeg(ext, cfna));
      ContinuationsConcat(branch + NoAnswerLeg(ext, cfna), BusyLeg(ext, cfb));
      ContinuationsConcat(e + pd, Tail(ext, cfb, cfna));
  }

  /**
   * An unconditional forward short-circuits: no device-state probe, no
   * dial-status test, no voicemail; the only dial goes to the forward's
   * destination through the trunk for the supplied ring time, then hang up.
   */
  lemma UnconditionalShortCircuit(ext: string, fwd: ForwardMap, ringTime: int, earlyAnswer: bool)
    requires Lookup(fwd, ext, Unconditional).Some?
    ensures var lines := DialLines(ext, fwd, ringTime, earlyAnswer);
            var dest := Lookup(fwd, ext, Unconditional).value.destination;
            && (forall l :: l in lines ==> !IsDeviceProbe(l) && !IsDialStatusTest(l) && !IsVoiceMail(l))
            && (forall l :: l in lines && IsDial(l) ==> AppOf(l) == Some(Dial(ViaTrunk(dest), ringTime, "tT")))
            && AppCount(lines, Dial(ViaTrunk(dest), ringTime, "tT")) == 1
            && lines[|lines| - 1] == Same(Hangup)
  {
    var dest := Lookup(fwd, ext, Unconditional).value.destination;
    var d := Dial(ViaTrunk(dest), ringTime, "tT");
    var before := [Same(NoOp(CfuNote + dest))] + EarlyAnswerLines(earlyAnswer);
    var last := [Same(d), Same(Hangup)];
    UnconditionalSplit(ext, fwd, ringTime, earlyAnswer);
    AppCountZero(before, d);
    AppCountOne([], Same(d), [Same(Hangup)], d);
    assert last == [] + [Same(d)] + [Same(Hangup)];
    AppCountConcat(before, last, d);
  }

  predicate NoDial(lines: seq<Line>)
  {
    forall l :: l in lines ==> !IsDial(l)
  }

  /** Where the early answer goes: first, or right after the unconditional-forward notice. */
  function AnswerPosition(ext: string, fwd: ForwardMap): nat
  {
    if Lookup(fwd, ext, Unconditional).Some? then 1 else 0
  }

  /** The optional answer answers once exactly when asked to. */
  lemma EarlyAnswerCount(earlyAnswer: bool)
    ensures AppCount(EarlyAnswerLines(earlyAnswer), Answer) == (if earlyAnswer then 1 else 0)
  {
    if earlyAnswer {
      AppCountOne([], Same(Answer), [Same(Wait("0.5"))], Answer);
      assert EarlyAnswerLines(earlyAnswer) == [] + [Same(Answer)] + [Same(Wait("0.5"))];
    }
  }

  /** Nothing after the optional answer answers, when there is no unconditional forward. */
  lemma AfterAnswerCount(ext: string, ringTime: int, cfb: Option<CallForward>, cfna: Option<CallForward>)
    ensures AppCount(ProbeAndDial(ext, ringTime), Answer) == 0
    ensures AppCount(Tail(ext, cfb, cfna), Answer) == 0
  {
    var br := [DialStatusBranch(if cfna.Some? then "noanswer" else "unavail")];
    var na := NoAnswerLeg(ext, cfna);
    var bl := BusyLeg(ext, cfb);
    NoAnswerLegLines(ext, cfna);
    BusyLegLines(ext, cfb);
    AppCountZero(ProbeAndDial(ext, ringTime), Answer);
    AppCountZero(br, Answer);
    AppCountZero(na, Answer);
    AppCountZero(bl, Answer);
    AppCountConcat(br, na, Answer);
    AppCountConcat(br + na, bl, Answer);
  }

  /**
   * Early answer: `Answer()` occurs once exactly when `earlyAnswer` holds;
   * it is followed at once by `Wait(0.5)` and no dial comes before it.
   */
  lemma EarlyAnswerOnce(ext: string, fwd: ForwardMap, ringTime: int, earlyAnswer: bool)
    ensures var lines := DialLines(ext, fwd, ringTime, earlyAnswer);
            var k := AnswerPosition(ext, fwd);
            && AppCount(lines, Answer) == (if earlyAnswer then 1 else 0)
            && (earlyAnswer ==>
                  k + 1 < |lines| && lines[k] == Same(Answer) && lines[k + 1] == Same(Wait("0.5"))
                  && NoDial(lines[..k]))
  {
    var lines := DialLines(ext, fwd, ringTime, earlyAnswer);
    var e := EarlyAnswerLines(earlyAnswer);
    EarlyAnswerCount(earlyAnswer);
    match Lookup(fwd, ext, Unconditional)
    case Some(u) =>
      var first := [Same(NoOp(CfuNote + u.destination))];
      var last := [Same(Dial(ViaTrunk(u.destination), ringTime, "tT")), Same(Hangup)];
      assert lines == first + e + last;
      AppCountZero(first, Answer);
      AppCountZero(last, Answer);
      AppCountConcat(first, e, Answer);
      AppCountConcat(first + e, last, Answer);
      if earlyAnswer {
        assert lines[..1] == first;
      }
    case None =>
      var cfna := Lookup(fwd, ext, NoAnswer);
      var pd := ProbeAndDial(ext, if cfna.Some? then cfna.value.ringTime else ringTime);
      var tail := Tail(ext, Lookup(fwd, ext, Busy), cfna);
      assert lines == e + pd + tail;
      AfterAnswerCount(ext, if cfna.Some? then cfna.value.ringTime else ringTime, Lookup(fwd, ext, Busy), cfna);
      AppCountConcat(e, pd, Answer);
      AppCountConcat(e + pd, tail, Answer);
  }

  lemma PreTailProbeCount(ext: string, fwd: ForwardMap, ringTime: int, earlyAnswer: bool)
    ensures AppCount(PreTail(ext, fwd, ringTime, earlyAnswer), AppOf(ProbeLine(ext)).value) == 1
  {
    var cfna := Lookup(fwd, ext, NoAnswer);
    var ea := EarlyAnswerLines(earlyAnswer);
    var pd := ProbeAndDial(ext, if cfna.Some? then cfna.value.ringTime else ringTime);
    var probe := AppOf(ProbeLine(ext)).value;
    AppCountOne([], pd[0], pd[1..], probe);
    assert pd == [] + [pd[0]] + pd[1..];
    AppCountZero(ea, probe);
    AppCountConcat(ea, pd, probe);
  }

  /** Without an unconditional forward the device state is probed exactly once. */
  lemma ProbeOnce(ext: string, fwd: ForwardMap, ringTime: int, earlyAnswer: bool)
    requires Lookup(fwd, ext, Unconditional).None?
    ensures AppCount(DialLines(ext, fwd, ringTime, earlyAnswer), AppOf(ProbeLine(ext)).value) == 1
  {
    var cfb := Lookup(fwd, ext, Busy);
    var cfna := Lookup(fwd, ext, NoAnswer);
    var head := PreTail(ext, fwd, ringTime, earlyAnswer);
    var br := [DialStatusBranch(if cfna.Some? then "noanswer" else "unavail")];
    var na := NoAnswerLeg(ext, cfna);
    var bl := BusyLeg(ext, cfb);
    DialLogicSplit(ext, fwd, ringTime, earlyAnswer);
    NoAnswerLegLines(ext, cfna);
    BusyLegLines(ext, cfb);
    var probe := AppOf(ProbeLine(ext)).value;
    PreTailProbeCount(ext, fwd, ringTime, earlyAnswer);
    AppCountZero(br, probe);
    AppCountZero(na, probe);
    AppCountZero(bl, probe);
    AppCountConcat(head, br, probe);
    AppCountConcat(head + br, na, probe);
    AppCountConcat(head + br + na, bl, probe);
  }

  /**
   * Right after the optional answer come the device-state probe, the
   * UNAVAILABLE and INVALID jumps to `unavail`, in that order, and the dial of
   * the device for the no-answer forward's ring time (or the supplied one).
   */
  lemma ProbeWindow(ext: string, fwd: ForwardMap, ringTime: int, earlyAnswer: bool)
    requires Lookup(fwd, ext, Unconditional).None?
    ensures var lines := DialLines(ext, fwd, ringTime, earlyAnswer);
            var cfna := Lookup(fwd, ext, NoAnswer);
            var k := |EarlyAnswerLines(earlyAnswer)|;
            && k + 4 <= |lines|
            && lines[k] == ProbeLine(ext)
            && lines[k + 1] == DeviceStateJump("UNAVAILABLE")
            && lines[k + 2] == DeviceStateJump("INVALID")
            && lines[k + 3] == Same(Dial(Device(ext), if cfna.Some? then cfna.value.ringTime else ringTime, "tTr"))
  {
    var lines := DialLines(ext, fwd, ringTime, earlyAnswer);
    var cfna := Lookup(fwd, ext, NoAnswer);
    var e := EarlyAnswerLines(earlyAnswer);
    var pd := ProbeAndDial(ext, if cfna.Some? then cfna.value.ringTime else ringTime);
    assert lines == e + pd + Tail(ext, Lookup(fwd, ext, Busy), cfna);
    var tail := Tail(ext, Lookup(fwd, ext, Busy), cfna);
    IndexMiddle(e, pd, tail, 0);
    IndexMiddle(e, pd, tail, 1);
    IndexMiddle(e, pd, tail, 2);
    IndexMiddle(e, pd, tail, 3);
  }

  lemma IndexMiddle(a: seq<Line>, b: seq<Line>, c: seq<Line>, j: int)
    requires 0 <= j < |b|
    ensures |a| + j < |a + b + c| && (a + b + c)[|a| + j] == b[j]
  {
  }

  /**
   * The ring time the block dials with: an unconditional forward's trunk
   * dial rings for the supplied time; otherwise the device rings for the
   * no-answer forward's time, or the supplied one.
   */
  lemma RingsFor(ext: string, fwd: ForwardMap, ringTime: int, earlyAnswer: bool)
    ensures var lines := DialLines(ext, fwd, ringTime, earlyAnswer);
            var cfu := Lookup(fwd, ext, Unconditional);
            var cfna := Lookup(fwd, ext, NoAnswer);
            && (cfu.Some? ==> Same(Dial(ViaTrunk(cfu.value.destination), ringTime, "tT")) in lines)
            && (cfu.None? ==>
                  Same(Dial(Device(ext), if cfna.Some? then cfna.value.ringTime else ringTime, "tTr")) in lines)
  {
    var lines := DialLines(ext, fwd, ringTime, earlyAnswer);
    if Lookup(fwd, ext, Unconditional).Some? {
      UnconditionalSplit(ext, fwd, ringTime, earlyAnswer);
      assert lines[|lines| - 2] in lines;
    } else {
      ProbeWindow(ext, fwd, ringTime, earlyAnswer);
      assert lines[|EarlyAnswerLines(earlyAnswer)| + 3] in lines;
    }
  }

  /** Every dial through the trunk is a busy or no-answer forward, ringing 30 seconds. */
  lemma ForwardDialsRing(ext: string, fwd: ForwardMap, ringTime: int, earlyAnswer: bool)
    requires Lookup(fwd, ext, Unconditional).None?
    ensures forall l :: l in DialLines(ext, fwd, ringTime, earlyAnswer) && IsTrunkDial(l) ==>
              AppOf(l).value.timeout == ForwardRingTime
  {
    var cfb := Lookup(fwd, ext, Busy);
    var cfna := Lookup(fwd, ext, NoAnswer);
    DialLogicSplit(ext, fwd, ringTime, earlyAnswer);
    PreTailFacts(ext, fwd, ringTime, earlyAnswer);
    NoAnswerLegLines(ext, cfna);
    BusyLegLines(ext, cfb);
  }

  /** The block of an extension without unconditional forward, cut where its legs begin. */
  lemma LegsSplit(ext: string, fwd: ForwardMap, ringTime: int, earlyAnswer: bool)
    requires Lookup(fwd, ext, Unconditional).None?
    ensures var cfna := Lookup(fwd, ext, NoAnswer);
            var front := PreTail(ext, fwd, ringTime, earlyAnswer)
                         + [DialStatusBranch(if cfna.Some? then "noanswer" else "unavail")];
            && DialLines(ext, fwd, ringTime, earlyAnswer)
               == front + NoAnswerLeg(ext, cfna) + BusyLeg(ext, Lookup(fwd, ext, Busy))
            && (forall l :: l in front ==> !IsVoiceMail(l) && !IsTrunkDial(l) && !l.SameLabelled?)
  {
    DialLogicSplit(ext, fwd, ringTime, earlyAnswer);
    PreTailFacts(ext, fwd, ringTime, earlyAnswer);
  }

  lemma FrontLeavesNoVoicemail(ext: string, fwd: ForwardMap, ringTime: int, earlyAnswer: bool, g: Greeting)
    ensures var cfna := Lookup(fwd, ext, NoAnswer);
            AppCount(PreTail(ext, fwd, ringTime, earlyAnswer)
                     + [DialStatusBranch(if cfna.Some? then "noanswer" else "unavail")],
                     VoiceMail(ext, Some(g))) == 0
  {
    var cfna := Lookup(fwd, ext, NoAnswer);
    var head := PreTail(ext, fwd, ringTime, earlyAnswer);
    var br := [DialStatusBranch(if cfna.Some? then "noanswer" else "unavail")];
    PreTailFacts(ext, fwd, ringTime, earlyAnswer);
    AppCountZero(head, VoiceMail(ext, Some(g)));
    AppCountZero(br, VoiceMail(ext, Some(g)));
    AppCountConcat(head, br, VoiceMail(ext, Some(g)));
  }

  /** One voicemail with the greeting `g`: the leg that uses it leaves it, the other does not. */
  lemma VoicemailCount(ext: string, fwd: ForwardMap, ringTime: int, earlyAnswer: bool, g: Greeting)
    requires Lookup(fwd, ext, Unconditional).None?
    ensures AppCount(DialLines(ext, fwd, ringTime, earlyAnswer), VoiceMail(ext, Some(g))) == 1
  {
    var cfb := Lookup(fwd, ext, Busy);
    var cfna := Lookup(fwd, ext, NoAnswer);
    var front := PreTail(ext, fwd, ringTime, earlyAnswer)
                 + [DialStatusBranch(if cfna.Some? then "noanswer" else "unavail")];
    var na := NoAnswerLeg(ext, cfna);
    var bl := BusyLeg(ext, cfb);
    var v := VoiceMail(ext, Some(g));
    LegsSplit(ext, fwd, ringTime, earlyAnswer);
    FrontLeavesNoVoicemail(ext, fwd, ringTime, earlyAnswer, g);
    if g == UnavailableGreeting {
      NoAnswerLegVoicemail(ext, cfna);
      BusyLegLines(ext, cfb);
      AppCountZero(bl, v);
    } else {
      NoAnswerLegLines(ext, cfna);
      BusyLegVoicemail(ext, cfb);
      AppCountZero(na, v);
    }
    AppCountConcat(front, na, v);
    AppCountConcat(front + na, bl, v);
  }

  /** Every voicemail is hung up after, and so is the block. */
  lemma VoicemailHangups(ext: string, fwd: ForwardMap, ringTime: int, earlyAnswer: bool)
    requires Lookup(fwd, ext, Unconditional).None?
    ensures var lines := DialLines(ext, fwd, ringTime, earlyAnswer);
            VoicemailThenHangup(lines) && lines[|lines| - 1] == Same(Hangup)
  {
    var cfb := Lookup(fwd, ext, Busy);
    var cfna := Lookup(fwd, ext, NoAnswer);
    var front := PreTail(ext, fwd, ringTime, earlyAnswer)
                 + [DialStatusBranch(if cfna.Some? then "noanswer" else "unavail")];
    var na := NoAnswerLeg(ext, cfna);
    LegsSplit(ext, fwd, ringTime, earlyAnswer);
    NoAnswerLegVoicemail(ext, cfna);
    BusyLegVoicemail(ext, cfb);
    NoVoicemailThenHangup(front);
    VoicemailThenHangupConcat(front, na);
    VoicemailThenHangupConcat(front + na, BusyLeg(ext, cfb));
  }

  /**
   * Without an unconditional forward, whatever the busy and no-answer
   * forwards are: one `VoiceMail(<ext>@default,u)` and one
   * `VoiceMail(<ext>@default,b)` and no other voicemail; every voicemail is
   * followed at once by `Hangup()`; the block ends with `Hangup()`; and with
   * neither forward nothing is dialled through the trunk.
   */
  lemma VoicemailTails(ext: string, fwd: ForwardMap, ringTime: int, earlyAnswer: bool)
    requires Lookup(fwd, ext, Unconditional).None?
    ensures var lines := DialLines(ext, fwd, ringTime, earlyAnswer);
            && AppCount(lines, VoiceMail(ext, Some(UnavailableGreeting))) == 1
            && AppCount(lines, VoiceMail(ext, Some(BusyGreeting))) == 1
            && (forall l :: l in lines && IsVoiceMail(l) ==>
                  AppOf(l) == Some(VoiceMail(ext, Some(UnavailableGreeting)))
                  || AppOf(l) == Some(VoiceMail(ext, Some(BusyGreeting))))
            && VoicemailThenHangup(lines)
            && lines[|lines| - 1] == Same(Hangup)
            && (Lookup(fwd, ext, Busy).None? && Lookup(fwd, ext, NoAnswer).None? ==>
                  forall l :: l in lines ==> !IsTrunkDial(l))
  {
    VoicemailCount(ext, fwd, ringTime, earlyAnswer, UnavailableGreeting);
    VoicemailCount(ext, fwd, ringTime, earlyAnswer, BusyGreeting);
    VoicemailHangups(ext, fwd, ringTime, earlyAnswer);
    LegsSplit(ext, fwd, ringTime, earlyAnswer);
    NoAnswerLegLines(ext, Lookup(fwd, ext, NoAnswer));
    BusyLegLines(ext, Lookup(fwd, ext, Busy));
  }

  /**
   * Without an unconditional forward, the dial-status branch comes right
   * after the device dial, occurs once, and is the only dial-status test.
   */
  lemma OnlyDialStatusBranch(ext: string, fwd: ForwardMap, ringTime: int, earlyAnswer: bool)
    requires Lookup(fwd, ext, Unconditional).None?
    ensures var lines := DialLines(ext, fwd, ringTime, earlyAnswer);
            var branch := DialStatusBranch(if Lookup(fwd, ext, NoAnswer).Some? then "noanswer" else "unavail");
            var k := |EarlyAnswerLines(earlyAnswer)|;
            && k + 4 < |lines| && lines[k + 4] == branch
            && AppCount(lines, AppOf(branch).value) == 1
            && (forall l :: l in lines && IsDialStatusTest(l) ==> l == branch)
  {
    var cfna := Lookup(fwd, ext, NoAnswer);
    var branch := DialStatusBranch(if cfna.Some? then "noanswer" else "unavail");
    var head := PreTail(ext, fwd, ringTime, earlyAnswer);
    var legs := NoAnswerLeg(ext, cfna) + BusyLeg(ext, Lookup(fwd, ext, Busy));
    DialLogicSplit(ext, fwd, ringTime, earlyAnswer);
    PreTailFacts(ext, fwd, ringTime, earlyAnswer);
    NoAnswerLegLines(ext, cfna);
    BusyLegLines(ext, Lookup(fwd, ext, Busy));
    assert DialLines(ext, fwd, ringTime, earlyAnswer) == head + [branch] + legs;
    AppCountOne(head, branch, legs, AppOf(branch).value);
  }

  /**
   * Without an unconditional forward, a busy or no-answer forward is dialled
   * through the trunk, after the device dial.
   */
  lemma ForwardsDialled(ext: string, fwd: ForwardMap, ringTime: int, earlyAnswer: bool)
    ensures var lines := DialLines(ext, fwd, ringTime, earlyAnswer);
            var k := |EarlyAnswerLines(earlyAnswer)|;
            var cfb := Lookup(fwd, ext, Busy);
            var cfna := Lookup(fwd, ext, NoAnswer);
            Lookup(fwd, ext, Unconditional).None? ==>
              && k + 4 <= |lines|
              && (cfb.Some? ==> ForwardDial(cfb.value) in lines[k + 4..])
              && (cfna.Some? ==> ForwardDial(cfna.value) in lines[k + 4..])
  {
    if Lookup(fwd, ext, Unconditional).None? {
      var cfb := Lookup(fwd, ext, Busy);
      var cfna := Lookup(fwd, ext, NoAnswer);
      var lines := DialLines(ext, fwd, ringTime, earlyAnswer);
      var head := PreTail(ext, fwd, ringTime, earlyAnswer);
      var na := NoAnswerLeg(ext, cfna);
      var bl := BusyLeg(ext, cfb);
      DialLogicSplit(ext, fwd, ringTime, earlyAnswer);
      NoAnswerLegLines(ext, cfna);
      BusyLegLines(ext, cfb);
      var rest := [DialStatusBranch(if cfna.Some? then "noanswer" else "unavail")] + na + bl;
      assert lines == head + rest;
      assert lines[|head|..] == rest;
      if cfb.Some? {
        assert bl[1] in rest;
      }
      if cfna.Some? {
        assert na[1] in rest;
      }
    }
  }

  /** Without an unconditional forward, both labels the dial-status branch names are defined. */
  lemma BranchLabelsDefined(ext: string, fwd: ForwardMap, ringTime: int, earlyAnswer: bool)
    requires Lookup(fwd, ext, Unconditional).None?
    ensures var lines := DialLines(ext, fwd, ringTime, earlyAnswer);
            && DefinesLabel(lines, "busy")
            && DefinesLabel(lines, if Lookup(fwd, ext, NoAnswer).Some? then "noanswer" else "unavail")
  {
    var cfna := Lookup(fwd, ext, NoAnswer);
    var na := NoAnswerLeg(ext, cfna);
    var bl := BusyLeg(ext, Lookup(fwd, ext, Busy));
    var lines := DialLines(ext, fwd, ringTime, earlyAnswer);
    LegsSplit(ext, fwd, ringTime, earlyAnswer);
    NoAnswerLegLabel(ext, cfna);
    BusyLegLabel(ext, Lookup(fwd, ext, Busy));
    assert na[0] in lines && bl[0] in lines;
  }

  /** The dial-status branch only jumps to labels the block defines. */
  lemma DialStatusTargets(ext: string, fwd: ForwardMap, ringTime: int, earlyAnswer: bool)
    ensures var lines := DialLines(ext, fwd, ringTime, earlyAnswer);
            forall l :: l in lines && IsDialStatusTest(l) ==>
              DefinesLabel(lines, AppOf(l).value.ifTrue)
              && AppOf(l).value.ifFalse.Some?
              && DefinesLabel(lines, AppOf(l).value.ifFalse.value)
  {
    if Lookup(fwd, ext, Unconditional).None? {
      OnlyDialStatusBranch(ext, fwd, ringTime, earlyAnswer);
      BranchLabelsDefined(ext, fwd, ringTime, earlyAnswer);
    } else {
      UnconditionalSplit(ext, fwd, ringTime, earlyAnswer);
    }
  }

  /** The device-state jumps are there exactly when there is no unconditional forward. */
  lemma DeviceStateJumpsPresent(ext: string, fwd: ForwardMap, ringTime: int, earlyAnswer: bool)
    ensures DeviceStateJump("UNAVAILABLE") in DialLines(ext, fwd, ringTime, earlyAnswer)
            <==> Lookup(fwd, ext, Unconditional).None?
    ensures DeviceStateJump("INVALID") in DialLines(ext, fwd, ringTime, earlyAnswer)
            <==> Lookup(fwd, ext, Unconditional).None?
  {
    var lines := DialLines(ext, fwd, ringTime, earlyAnswer);
    if Lookup(fwd, ext, Unconditional).None? {
      ProbeWindow(ext, fwd, ringTime, earlyAnswer);
      var k := |EarlyAnswerLines(earlyAnswer)|;
      assert lines[k + 1] in lines && lines[k + 2] in lines;
    } else {
      var cfu := Lookup(fwd, ext, Unconditional).value;
      assert lines == UnconditionalLines(cfu, ringTime, earlyAnswer);
    }
  }

  /**
   * The device-state jumps' target `unavail` is defined exactly when there is
   * neither an unconditional nor a no-answer forward: with a no-answer
   * forward, an unreachable device jumps to a label the block lacks.
   */
  lemma UnavailLabelDefined(ext: string, fwd: ForwardMap, ringTime: int, earlyAnswer: bool)
    ensures DefinesLabel(DialLines(ext, fwd, ringTime, earlyAnswer), "unavail")
            <==> Lookup(fwd, ext, Unconditional).None? && Lookup(fwd, ext, NoAnswer).None?
  {
    var lines := DialLines(ext, fwd, ringTime, earlyAnswer);
    match Lookup(fwd, ext, Unconditional)
    case None =>
      var cfb := Lookup(fwd, ext, Busy);
      var cfna := Lookup(fwd, ext, NoAnswer);
      var front := PreTail(ext, fwd, ringTime, earlyAnswer)
                   + [DialStatusBranch(if cfna.Some? then "noanswer" else "unavail")];
      var na := NoAnswerLeg(ext, cfna);
      var bl := BusyLeg(ext, cfb);
      LegsSplit(ext, fwd, ringTime, earlyAnswer);
      NoAnswerLegLabel(ext, cfna);
      BusyLegLabel(ext, cfb);
      assert na[0] in lines;
      forall l | l in lines && l.SameLabelled?
        ensures l == na[0] || l == bl[0]
      {
        assert l in front + na || l in bl;
      }
    case Some(cfu) =>
      var first := [Same(NoOp(CfuNote + cfu.destination))];
      var last := [Same(Dial(ViaTrunk(cfu.destination), ringTime, "tT")), Same(Hangup)];
      assert lines == first + EarlyAnswerLines(earlyAnswer) + last;
  }
}
