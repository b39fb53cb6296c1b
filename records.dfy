/**
 * The records the dialplan generator reads. They are the persistence layer's
 * rows, reduced to the fields the generator looks at. Python's `None` becomes
 * `Option`, and Python's truthiness of an optional string is `IsTruthy`.
 */
module Records {
  import opened Wrappers

  /** A public number (DID) routed to an internal extension over a trunk. */
  datatype InboundRoute = InboundRoute(
    did: string,
    destinationExtension: string,
    description: Option<string>,
    trunkId: int)

  /** A forwarding rule; `forwardType` is "unconditional", "busy" or "no_answer". */
  datatype CallForward = CallForward(
    extension: string,
    forwardType: string,
    destination: string,
    ringTime: int)

  /** A voicemail box; `ringTimeout` is how long the extension rings first. */
  datatype VoicemailMailbox = VoicemailMailbox(
    extension: string,
    ringTimeout: Option<int>)

  /** A SIP endpoint: the caller ID it presents outbound and its P-Asserted-Identity user. */
  datatype SipPeer = SipPeer(
    extension: string,
    outboundCid: Option<string>,
    pai: Option<string>)

  /** A SIP carrier connection. */
  datatype SipTrunk = SipTrunk(id: int, sipServer: string)

  const Unconditional: string := "unconditional"
  const Busy: string := "busy"
  const NoAnswer: string := "no_answer"

  /** Python's `if s:` on an optional string: present and not empty. */
  predicate IsTruthy(s: Option<string>)
  {
    s.Some? && s.value != ""
  }
}
