/**
 * The hub's three POST handlers. Each is an early-return chain that turns
 * the request body and the network's state into a status code, and then
 * registers a node, logs an event or an error, or forwards the action to a
 * recipient. The outcome of the forwarding `fetch`, the configured check
 * functions, the fresh UUIDs and the clock are inputs.
 */
module HubRoutes {
  import opened Wrappers
  import opened HubNetwork

  const OK: int := 200
  const BAD_REQUEST: int := 400
  const UNAUTHORIZED: int := 401
  const FORBIDDEN: int := 403
  const INTERNAL_SERVER_ERROR: int := 500

  /** The error logged when the recipient answers with a non-ok status. */
  const CANNOT_ACCESS: string := "Cannot access affected node"

  /** `${ip}` is the recipient's registered address; recipients listen on port 8080. */
  function RecipientUrl(ip: string): string {
    "http://" + ip + ":8080"
  }

  /** `new URLSearchParams({ ..., params })` writes an undefined value as the text "undefined". */
  function FormValue(v: Option<string>): (s: string)
    ensures v.Some? ==> s == v.value
    ensures v.None? ==> s == "undefined"
  {
    v.GetOr("undefined")
  }

  /** The fields of a form body the handlers read; a missing field is None. */
  datatype Body = Body(
    id: Option<string>,
    psk: Option<string>,
    affect: Option<string>,
    params: Option<string>,
    error: Option<string>)

  /** What the hub's `fetch` to the recipient turned out to be. */
  datatype FetchOutcome =
    | Answered(ok: bool)     // a response arrived; `ok` is `response.ok`
    | Threw(message: string) // the request itself failed

  /** The form POSTed to the recipient. */
  datatype Forward = Forward(url: string, psk: string, params: string)

  /** The node an optional lookup found, as a frame. */
  function NodeSet(node: Option<NetworkNode>): set<NetworkNode> {
    if node.Some? then {node.value} else {}
  }

  // ---------------------------------------------------------------------
  // POST /register and POST /error
  // ---------------------------------------------------------------------

  /** The shared gate of /register and /error: unknown id, then the key. */
  function IdentityStatus(node: Option<NetworkNode>, psk: Option<string>): (status: int)
    ensures status == BAD_REQUEST <==> node.None?
    ensures status == FORBIDDEN <==> node.Some? && !node.value.ConfirmPsk(psk)
    ensures status == OK <==> node.Some? && node.value.ConfirmPsk(psk)
  {
    if node.None? then BAD_REQUEST
    else if !node.value.ConfirmPsk(psk) then FORBIDDEN
    else OK
  }

  /**
   * Over a well-formed network: a request passes the gate exactly when it
   * names a configured node and carries that node's own key.
   */
  lemma IdentityAcceptedExactly(net: Network, id: Option<string>, psk: Option<string>)
    requires forall n :: n in net.nodes ==> n.WellFormed()
    ensures IdentityStatus(net.GetNode(id), psk) == OK <==>
            net.GetNode(id).Some? && psk == Some(net.GetNode(id).value.psk)
    ensures IdentityStatus(net.GetNode(id), psk) == BAD_REQUEST <==>
            forall k :: 0 <= k < |net.nodes| ==> Some(net.nodes[k].id) != id
  {
    var node := net.GetNode(id);
    if node.Some? {
      ConfirmPskExactly(node.value, psk);
    }
  }

  /** `POST /register`: on success the node records where the request came from. */
  method HandleRegister(net: Network, body: Body, forwardedFor: Option<string>, remoteAddress: string, now: int)
    returns (status: int)
    modifies NodeSet(net.GetNode(body.id))
    ensures status == IdentityStatus(net.GetNode(body.id), body.psk)
    ensures status == OK ==>
      var node := net.GetNode(body.id).value;
      node.registration == Some(Registration(NormaliseIp(ClientAddress(forwardedFor, remoteAddress)), now)) &&
      node.events == old(node.events) && node.errors == old(node.errors)
    ensures status != OK ==> forall n :: n in NodeSet(net.GetNode(body.id)) ==> unchanged(n)
  {
    var node := net.GetNode(body.id);
    if node.None? {
      return BAD_REQUEST;
    }
    if !node.value.ConfirmPsk(body.psk) {
      return FORBIDDEN;
    }
    node.value.Register(forwardedFor, remoteAddress, now);
    return OK;
  }

  /** `POST /error`: on success the node logs `{ error }` under a fresh UUID. */
  method HandleError(net: Network, body: Body, uuid: string, now: int) returns (status: int)
    modifies NodeSet(net.GetNode(body.id))
    ensures status == IdentityStatus(net.GetNode(body.id), body.psk)
    ensures status == OK ==>
      var node := net.GetNode(body.id).value;
      node.errors == Keep(old(node.errors), Stamp(Report(None, None, body.error), uuid, now)) &&
      node.events == old(node.events) && node.registration == old(node.registration)
    ensures status != OK ==> forall n :: n in NodeSet(net.GetNode(body.id)) ==> unchanged(n)
  {
    var node := net.GetNode(body.id);
    if node.None? {
      return BAD_REQUEST;
    }
    if !node.value.ConfirmPsk(body.psk) {
      return FORBIDDEN;
    }
    var _ := node.value.LogError(Report(None, None, body.error), uuid, now);
    return OK;
  }

  // ---------------------------------------------------------------------
  // POST /action
  // ---------------------------------------------------------------------

  /** The early rejections of /action, in the handler's order: 400, then 403; None passes. */
  function ActionGate(sender: Option<NetworkNode>, affected: Option<NetworkNode>,
                      psk: Option<string>, affect: Option<string>): (g: Option<int>)
    reads NodeSet(affected)
    ensures g == Some(BAD_REQUEST) <==>
      sender.None? || affected.None? || !affected.value.IsRecipient() || !affected.value.IsRegistered()
    ensures g == Some(FORBIDDEN) <==>
      sender.Some? && affected.Some? && affected.value.IsRecipient() && affected.value.IsRegistered() &&
      (!sender.value.ConfirmPsk(psk) || !sender.value.CanAffectNode(affect))
    ensures g.None? || g == Some(BAD_REQUEST) || g == Some(FORBIDDEN)
  {
    if sender.None? || affected.None? || !affected.value.IsRecipient() || !affected.value.IsRegistered() then
      Some(BAD_REQUEST)
    else if !sender.value.ConfirmPsk(psk) || !sender.value.CanAffectNode(affect) then
      Some(FORBIDDEN)
    else
      None
  }

  /** Whether the sender's configured checks let the request through. */
  predicate ChecksPass(sender: NetworkNode, outcomes: map<string, bool>)
    ensures ChecksPass(sender, outcomes) <==>
      forall j :: 0 <= j < |sender.checks| ==> Passes(outcomes, sender.checks[j])
  {
    !sender.HasChecks() || FirstRejected(sender.checks, outcomes) == |sender.checks|
  }

  /** The status /action answers with, for the state before the request. */
  function ActionStatus(sender: Option<NetworkNode>, affected: Option<NetworkNode>, body: Body,
                        outcomes: map<string, bool>, fetched: FetchOutcome): (r: int)
    reads NodeSet(affected)
    ensures r in {OK, BAD_REQUEST, UNAUTHORIZED, FORBIDDEN, INTERNAL_SERVER_ERROR}
    ensures r == BAD_REQUEST <==> ActionGate(sender, affected, body.psk, body.affect) == Some(BAD_REQUEST)
    ensures r == FORBIDDEN <==> ActionGate(sender, affected, body.psk, body.affect) == Some(FORBIDDEN)
    ensures r == UNAUTHORIZED <==>
      ActionGate(sender, affected, body.psk, body.affect).None? && !ChecksPass(sender.value, outcomes)
    ensures r == OK <==>
      ActionGate(sender, affected, body.psk, body.affect).None? && ChecksPass(sender.value, outcomes) &&
      fetched == Answered(true)
    ensures r == INTERNAL_SERVER_ERROR <==>
      ActionGate(sender, affected, body.psk, body.affect).None? && ChecksPass(sender.value, outcomes) &&
      fetched != Answered(true)
  {
    var g := ActionGate(sender, affected, body.psk, body.affect);
    if g.Some? then g.value
    else if !ChecksPass(sender.value, outcomes) then UNAUTHORIZED
    else if fetched == Answered(true) then OK
    else INTERNAL_SERVER_ERROR
  }

  /** The error message the catch block logs. */
  function FailureMessage(fetched: FetchOutcome): string {
    match fetched
    case Answered(_) => CANNOT_ACCESS
    case Threw(message) => message
  }

  /** The sender's event: `{ params }` under a fresh UUID. */
  function SenderEvent(body: Body, uuid: string, now: int): LogEntry {
    Stamp(Report(None, body.params, None), uuid, now)
  }

  /** What the recipient node logs once the forward has been answered or has failed. */
  function DeliveryEntry(eventId: string, body: Body, fetched: FetchOutcome, uuid: string, later: int): LogEntry {
    if fetched == Answered(true) then Stamp(Report(Some(eventId), body.params, None), uuid, later)
    else Stamp(Report(Some(eventId), body.params, Some(FailureMessage(fetched))), uuid, later)
  }

  /**
   * How the logs change once an action is forwarded: the sender logs
   * `first`, then the recipient logs `second` as an event (answered ok) or
   * as an error. When the sender is itself the recipient both land in the
   * same logs, in that order.
   */
  predicate ForwardLogged(same: bool, ok: bool, first: LogEntry, second: LogEntry,
                          senderEvents0: seq<LogEntry>, events0: seq<LogEntry>, errors0: seq<LogEntry>,
                          senderEvents: seq<LogEntry>, events: seq<LogEntry>, errors: seq<LogEntry>)
  {
    if same then
      senderEvents == events &&
      (ok ==> events == Keep(Keep(senderEvents0, first), second) && errors == errors0) &&
      (!ok ==> events == Keep(senderEvents0, first) && errors == Keep(errors0, second))
    else
      senderEvents == Keep(senderEvents0, first) &&
      (ok ==> events == Keep(events0, second) && errors == errors0) &&
      (!ok ==> events == events0 && errors == Keep(errors0, second))
  }

  /**
   * `POST /action`. `outcomes` holds what each configured check answers for
   * this request, `fetched` what the forwarding request turns out to be.
   * The handler reads the clock three times: `now` when the sender
   * registers, `eventAt` when its event is logged after the checks, and
   * `later` when the recipient's entry is logged after the forward.
   */
  method HandleAction(net: Network, body: Body, forwardedFor: Option<string>, remoteAddress: string,
                      outcomes: map<string, bool>, fetched: FetchOutcome,
                      senderUuid: string, recipientUuid: string, now: int, eventAt: int, later: int)
    returns (status: int, sent: Option<Forward>)
    modifies NodeSet(net.GetNode(body.id)) + NodeSet(net.GetNode(body.affect))
    ensures status == old(ActionStatus(net.GetNode(body.id), net.GetNode(body.affect), body, outcomes, fetched))
    ensures sent.Some? <==> status == OK || status == INTERNAL_SERVER_ERROR
    ensures sent.Some? ==>
      var affected := net.GetNode(body.affect).value;
      sent.value == Forward(RecipientUrl(old(affected.registration.value.ip)), affected.psk, FormValue(body.params))
    // a request rejected with 400 or 403 changes nothing
    ensures status == BAD_REQUEST || status == FORBIDDEN ==>
      forall n :: n in NodeSet(net.GetNode(body.id)) + NodeSet(net.GetNode(body.affect)) ==> unchanged(n)
    // past the gate, an unregistered sender is registered from this request
    ensures status != BAD_REQUEST && status != FORBIDDEN ==>
      var sender := net.GetNode(body.id).value;
      sender.registration ==
        if old(sender.IsRegistered()) then old(sender.registration)
        else Some(Registration(NormaliseIp(ClientAddress(forwardedFor, remoteAddress)), now))
    // failing checks log nothing
    ensures status == UNAUTHORIZED ==>
      var sender := net.GetNode(body.id).value;
      var affected := net.GetNode(body.affect).value;
      sender.events == old(sender.events) && sender.errors == old(sender.errors) &&
      affected.events == old(affected.events) && affected.errors == old(affected.errors)
    // a forwarded request logs one event at the sender and one entry with the same id at the recipient
    ensures sent.Some? ==>
      var sender := net.GetNode(body.id).value;
      var affected := net.GetNode(body.affect).value;
      var first := SenderEvent(body, senderUuid, eventAt);
      ForwardLogged(sender == affected, status == OK, first, DeliveryEntry(first.id, body, fetched, recipientUuid, later),
                    old(sender.events), old(affected.events), old(affected.errors),
                    sender.events, affected.events, affected.errors) &&
      (sender != affected ==> sender.errors == old(sender.errors))
    // only the sender may register: a distinct recipient keeps its registration
    ensures net.GetNode(body.id).Some? && net.GetNode(body.affect).Some? &&
            net.GetNode(body.id).value != net.GetNode(body.affect).value ==>
      net.GetNode(body.affect).value.registration == old(net.GetNode(body.affect).value.registration)
  {
    var sender := net.GetNode(body.id);
    var affectedNode := net.GetNode(body.affect);
    if sender.None? || affectedNode.None? || !affectedNode.value.IsRecipient() || !affectedNode.value.IsRegistered() {
      return BAD_REQUEST, None;
    }
    var s := sender.value;
    var a := affectedNode.value;
    if !s.ConfirmPsk(body.psk) || !s.CanAffectNode(body.affect) {
      return FORBIDDEN, None;
    }
    var passChecks := Admit(s, outcomes, forwardedFor, remoteAddress, now);
    if !passChecks {
      return UNAUTHORIZED, None;
    }
    var forward;
    status, forward := ForwardAction(s, a, body, fetched, senderUuid, recipientUuid, eventAt, later);
    sent := Some(forward);
  }

  /**
   * The sender's side of /action once the gate has passed: register it from
   * this request if it has not registered, then run its checks.
   */
  method Admit(sender: NetworkNode, outcomes: map<string, bool>, forwardedFor: Option<string>,
               remoteAddress: string, now: int) returns (passed: bool)
    modifies sender`registration
    ensures passed == ChecksPass(sender, outcomes)
    ensures sender.registration ==
      if old(sender.IsRegistered()) then old(sender.registration)
      else Some(Registration(NormaliseIp(ClientAddress(forwardedFor, remoteAddress)), now))
  {
    if !sender.IsRegistered() {
      sender.Register(forwardedFor, remoteAddress, now);
    }
    passed := true;
    if sender.HasChecks() {
      var invoked;
      passed, invoked := sender.RunChecks(outcomes);
    }
  }

  /**
   * The rest of /action: log the sender's event, post `{ psk, params }` to
   * the recipient's address, and log the result at the recipient.
   */
  method ForwardAction(sender: NetworkNode, affected: NetworkNode, body: Body, fetched: FetchOutcome,
                       senderUuid: string, recipientUuid: string, now: int, later: int)
    returns (status: int, sent: Forward)
    requires affected.IsRegistered()
    modifies sender`events, affected`events, affected`errors
    ensures status == if fetched == Answered(true) then OK else INTERNAL_SERVER_ERROR
    ensures sent == Forward(RecipientUrl(affected.registration.value.ip), affected.psk, FormValue(body.params))
    ensures var first := SenderEvent(body, senderUuid, now);
      ForwardLogged(sender == affected, status == OK, first, DeliveryEntry(first.id, body, fetched, recipientUuid, later),
                    old(sender.events), old(affected.events), old(affected.errors),
                    sender.events, affected.events, affected.errors)
  {
    ghost var first := SenderEvent(body, senderUuid, now);
    var eventId := sender.LogEvent(Report(None, body.params, None), senderUuid, now);
    var address := affected.GetIpAddress();
    sent := Forward(RecipientUrl(address.value), affected.psk, FormValue(body.params));
    status := Deliver(affected, eventId, body, fetched, recipientUuid, later);
  }

  /** The end of /action: answer from the recipient's response and log the outcome at the recipient. */
  method Deliver(affected: NetworkNode, eventId: string, body: Body, fetched: FetchOutcome, uuid: string, later: int)
    returns (status: int)
    modifies affected`events, affected`errors
    ensures status == if fetched == Answered(true) then OK else INTERNAL_SERVER_ERROR
    ensures status == OK ==>
      affected.events == Keep(old(affected.events), DeliveryEntry(eventId, body, fetched, uuid, later)) &&
      affected.errors == old(affected.errors)
    ensures status == INTERNAL_SERVER_ERROR ==>
      affected.errors == Keep(old(affected.errors), DeliveryEntry(eventId, body, fetched, uuid, later)) &&
      affected.events == old(affected.events)
  {
    if fetched == Answered(true) {
      status := OK;
      var _ := affected.LogEvent(Report(Some(eventId), body.params, None), uuid, later);
    } else {
      status := INTERNAL_SERVER_ERROR;
      var _ := affected.LogError(Report(Some(eventId), body.params, Some(FailureMessage(fetched))), uuid, later);
    }
  }

  // ---------------------------------------------------------------------
  // The cases the hub's interaction tests exercise
  // ---------------------------------------------------------------------

  /** A sender with correct credentials acting on a recipient that has not registered. */
  predicate CorrectCredentials(net: Network, body: Body) {
    net.GetNode(body.id).Some? &&
    body.psk == Some(net.GetNode(body.id).value.psk) &&
    net.GetNode(body.id).value.CanAffectNode(body.affect)
  }

  /** A target without the recipient role is refused with 400, whatever else the body says. */
  lemma NonRecipientTargetIsBadRequest(net: Network, body: Body, outcomes: map<string, bool>, fetched: FetchOutcome)
    requires net.GetNode(body.affect).Some? && !net.GetNode(body.affect).value.IsRecipient()
    ensures ActionStatus(net.GetNode(body.id), net.GetNode(body.affect), body, outcomes, fetched) == BAD_REQUEST
  {
  }

  /**
   * A known sender with a registered recipient as target is forbidden
   * exactly when its key is wrong or the target is not among those it may affect.
   */
  lemma UnaffectableTargetIsForbidden(net: Network, body: Body, outcomes: map<string, bool>, fetched: FetchOutcome)
    requires net.GetNode(body.id).Some? && net.GetNode(body.id).value.WellFormed()
    requires net.GetNode(body.affect).Some? && net.GetNode(body.affect).value.WellFormed()
    requires net.GetNode(body.affect).value.IsRecipient() && net.GetNode(body.affect).value.IsRegistered()
    ensures ActionStatus(net.GetNode(body.id), net.GetNode(body.affect), body, outcomes, fetched) == FORBIDDEN <==>
            body.psk != Some(net.GetNode(body.id).value.psk) ||
            net.GetNode(body.affect).value.id !in net.GetNode(body.id).value.affects
  {
    var sender := net.GetNode(body.id).value;
    var target := net.GetNode(body.affect).value;
    assert body.affect == Some(target.id);
    ConfirmPskExactly(sender, body.psk);
  }

  /** A sender without checks is never refused with 401, and no check function runs. */
  lemma NoChecksAlwaysPass(node: NetworkNode, outcomes: map<string, bool>)
    requires !node.HasChecks()
    ensures ChecksPass(node, outcomes)
    ensures Invoked(node.checks, outcomes) == []
  {
  }

  /** An unregistered target is refused with 400 even when every credential is right. */
  lemma UnregisteredTargetIsBadRequest(net: Network, body: Body, outcomes: map<string, bool>, fetched: FetchOutcome)
    requires CorrectCredentials(net, body)
    requires net.GetNode(body.affect).Some? && !net.GetNode(body.affect).value.IsRegistered()
    ensures ActionStatus(net.GetNode(body.id), net.GetNode(body.affect), body, outcomes, fetched) == BAD_REQUEST
  {
  }

  /** An unknown sender or target id is a bad request, whatever else the body says. */
  lemma UnknownIdIsBadRequest(net: Network, body: Body, outcomes: map<string, bool>, fetched: FetchOutcome)
    requires (forall k :: 0 <= k < |net.nodes| ==> Some(net.nodes[k].id) != body.id) ||
             (forall k :: 0 <= k < |net.nodes| ==> Some(net.nodes[k].id) != body.affect)
    ensures ActionStatus(net.GetNode(body.id), net.GetNode(body.affect), body, outcomes, fetched) == BAD_REQUEST
  {
  }

  /** A wrong sender key on an otherwise valid request is forbidden. */
  lemma WrongKeyIsForbidden(net: Network, body: Body, outcomes: map<string, bool>, fetched: FetchOutcome)
    requires net.GetNode(body.id).Some? && net.GetNode(body.affect).Some?
    requires net.GetNode(body.affect).value.IsRecipient() && net.GetNode(body.affect).value.IsRegistered()
    requires body.psk != Some(net.GetNode(body.id).value.psk)
    ensures ActionStatus(net.GetNode(body.id), net.GetNode(body.affect), body, outcomes, fetched) == FORBIDDEN
  {
  }

  /**
   * A request that passes the gate and the checks is answered 200 exactly
   * when the recipient answers ok, and 500 otherwise.
   */
  lemma AcceptedFollowsRecipient(net: Network, body: Body, outcomes: map<string, bool>, fetched: FetchOutcome)
    requires net.GetNode(body.id).Some? && net.GetNode(body.id).value.WellFormed()
    requires ActionGate(net.GetNode(body.id), net.GetNode(body.affect), body.psk, body.affect).None?
    requires ChecksPass(net.GetNode(body.id).value, outcomes)
    ensures ActionStatus(net.GetNode(body.id), net.GetNode(body.affect), body, outcomes, fetched) == OK <==>
            fetched == Answered(true)
    ensures ActionStatus(net.GetNode(body.id), net.GetNode(body.affect), body, outcomes, fetched) == INTERNAL_SERVER_ERROR <==>
            fetched != Answered(true)
  {
  }

  /** Past the gate, configured checks decide between 401 and forwarding. */
  lemma FailingCheckIsUnauthorized(net: Network, body: Body, outcomes: map<string, bool>, fetched: FetchOutcome)
    requires ActionGate(net.GetNode(body.id), net.GetNode(body.affect), body.psk, body.affect).None?
    ensures ActionStatus(net.GetNode(body.id), net.GetNode(body.affect), body, outcomes, fetched) == UNAUTHORIZED <==>
            exists j :: 0 <= j < |net.GetNode(body.id).value.checks| &&
                        !Passes(outcomes, net.GetNode(body.id).value.checks[j])
  {
    var checks := net.GetNode(body.id).value.checks;
    var k := FirstRejected(checks, outcomes);
    if k < |checks| {
      assert !Passes(outcomes, checks[k]);
    }
  }

  /** A failed delivery is logged at the recipient under the sender's event id, with the reason. */
  lemma DeliveryEntryCarriesEventId(eventId: string, body: Body, fetched: FetchOutcome, uuid: string, later: int)
    ensures DeliveryEntry(eventId, body, fetched, uuid, later).id == eventId
    ensures DeliveryEntry(eventId, body, fetched, uuid, later).params == body.params
    ensures fetched == Answered(false) ==> DeliveryEntry(eventId, body, fetched, uuid, later).error == Some(CANNOT_ACCESS)
    ensures fetched == Answered(true) ==> DeliveryEntry(eventId, body, fetched, uuid, later).error.None?
  {
  }
}
