/**
 * `_build_ring_timeout_map`: how long each extension rings before its
 * voicemail tail, taken from the voicemail boxes. A missing or zero timeout
 * means 20 seconds (Python's `ring_timeout or 20`); the last mailbox of an
 * extension wins.
 */
module RingTimeout {
  import opened Wrappers
  import opened Records

  const DefaultRingTimeout: int := 20

  /** `mb.ring_timeout or 20`. */
  function RingTimeoutOf(mb: VoicemailMailbox): (r: int)
    ensures r != 0
    ensures mb.ringTimeout.None? || mb.ringTimeout.value == 0 ==> r == DefaultRingTimeout
    ensures mb.ringTimeout.Some? && mb.ringTimeout.value != 0 ==> r == mb.ringTimeout.value
  {
    match mb.ringTimeout
    case Some(t) => if t != 0 then t else DefaultRingTimeout
    case None => DefaultRingTimeout
  }

  /** The dict comprehension: one entry per extension, later mailboxes overwriting. */
  function RingTimeoutMapOf(mbs: seq<VoicemailMailbox>): map<string, int>
  {
    if mbs == [] then map[]
    else
      var last := mbs[|mbs| - 1];
      RingTimeoutMapOf(mbs[..|mbs| - 1])[last.extension := RingTimeoutOf(last)]
  }

  /** `ring_timeout_map.get(ext, 20)`. */
  function RingTimeoutFor(rtm: map<string, int>, ext: string): (r: int)
    ensures ext in rtm ==> r == rtm[ext]
    ensures ext !in rtm ==> r == DefaultRingTimeout
  {
    Get(rtm, ext).GetOr(DefaultRingTimeout)
  }

  /**
   * The keys are exactly the mailboxes' extensions, and each value is the
   * timeout of the last mailbox with that extension.
   */
  lemma {:induction false} RingTimeoutMapLastWins(mbs: seq<VoicemailMailbox>, ext: string)
    ensures ext in RingTimeoutMapOf(mbs) <==> exists i :: 0 <= i < |mbs| && mbs[i].extension == ext
    ensures ext in RingTimeoutMapOf(mbs) ==>
              exists i :: 0 <= i < |mbs| && mbs[i].extension == ext
                && (forall j :: i < j < |mbs| ==> mbs[j].extension != ext)
                && RingTimeoutMapOf(mbs)[ext] == RingTimeoutOf(mbs[i])
    decreases |mbs|
  {
    if mbs != [] {
      var pre := mbs[..|mbs| - 1];
      var n := |mbs| - 1;
      RingTimeoutMapLastWins(pre, ext);
      assert forall i :: 0 <= i < n ==> pre[i] == mbs[i];
      if mbs[n].extension != ext && ext in RingTimeoutMapOf(mbs) {
        var i :| 0 <= i < |pre| && pre[i].extension == ext
                 && (forall j :: i < j < |pre| ==> pre[j].extension != ext)
                 && RingTimeoutMapOf(pre)[ext] == RingTimeoutOf(pre[i]);
        assert mbs[i] == pre[i];
      }
    }
  }

  /** No extension ever rings for zero seconds: a zero timeout became 20. */
  lemma {:induction false} RingTimeoutsNonZero(mbs: seq<VoicemailMailbox>)
    ensures forall e :: e in RingTimeoutMapOf(mbs) ==> RingTimeoutMapOf(mbs)[e] != 0
    decreases |mbs|
  {
    if mbs != [] {
      RingTimeoutsNonZero(mbs[..|mbs| - 1]);
    }
  }
}
