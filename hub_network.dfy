/**
 * The hub's view of the gate network: one `NetworkNode` per configured
 * device, with its pre-shared key, roles, the nodes it may affect, the
 * checks its requests must pass, its registration and two bounded logs;
 * and the `Network` that looks nodes up by id and by role.
 */
module HubNetwork {
  import opened Wrappers

  /** Each log keeps at most this many entries (`slice(-19)` plus the new one). */
  const LOG_LIMIT: nat := 20

  const MAPPED_PREFIX: string := "::ffff:"
  const LOOPBACK: string := "127.0.0.1"

  /** JavaScript truthiness of a string that may be undefined. */
  predicate Truthy(s: Option<string>) {
    s.Some? && s.value != ""
  }

  // ---------------------------------------------------------------------
  // Configuration and construction
  // ---------------------------------------------------------------------

  /** One entry of the network configuration; absent fields are None. */
  datatype NodeConfig = NodeConfig(
    id: Option<string>,
    roles: Option<seq<string>>,
    affects: Option<seq<string>>,
    checks: Option<seq<string>>)

  /** The error the constructor throws, checked in the constructor's order. */
  function ConfigError(config: NodeConfig, psk: Option<string>): (e: Option<string>)
    ensures e.None? <==> Truthy(config.id) && Truthy(psk) && config.roles.Some? && |config.roles.value| > 0
    ensures !Truthy(config.id) ==> e == Some("Id must be set")
    ensures Truthy(config.id) && !Truthy(psk) ==> e == Some("PSK must be set")
    ensures Truthy(config.id) && Truthy(psk) && (config.roles.None? || |config.roles.value| == 0) ==>
      e == Some("Roles must be set")
  {
    if !Truthy(config.id) then Some("Id must be set")
    else if !Truthy(psk) then Some("PSK must be set")
    else if config.roles.None? || |config.roles.value| == 0 then Some("Roles must be set")
    else None
  }

  // ---------------------------------------------------------------------
  // Logs
  // ---------------------------------------------------------------------

  /** What a caller passes to `logEvent` / `logError`; a present `id` overrides the fresh UUID. */
  datatype Report = Report(id: Option<string>, params: Option<string>, error: Option<string>)

  /** A stored log entry: `{ id, ...report, eventAt / errorAt }`. */
  datatype LogEntry = LogEntry(id: string, params: Option<string>, error: Option<string>, at: int)

  /** The entry built from a report, a freshly generated UUID and the clock. */
  function Stamp(report: Report, uuid: string, now: int): (e: LogEntry)
    ensures report.id.Some? ==> e.id == report.id.value
    ensures report.id.None? ==> e.id == uuid
    ensures e.params == report.params && e.error == report.error && e.at == now
  {
    LogEntry(report.id.GetOr(uuid), report.params, report.error, now)
  }

  /** `log.slice(-n)` for n > 0: the last n entries, or all of them. */
  function Recent(log: seq<LogEntry>, n: nat): (r: seq<LogEntry>)
    requires n > 0
    ensures |r| == if |log| <= n then |log| else n
    ensures r == log[|log| - |r|..]
  {
    if |log| <= n then log else log[|log| - n..]
  }

  /** `log.slice(-19).concat(e)`. */
  function Keep(log: seq<LogEntry>, e: LogEntry): (r: seq<LogEntry>)
    ensures 1 <= |r| <= LOG_LIMIT
    ensures r[|r| - 1] == e
    ensures |r| - 1 == if |log| < LOG_LIMIT then |log| else LOG_LIMIT - 1
    ensures r[..|r| - 1] == log[|log| - (|r| - 1)..]
  {
    var r := Recent(log, LOG_LIMIT - 1) + [e];
    assert r[..|r| - 1] == Recent(log, LOG_LIMIT - 1);
    r
  }

  /** A log that has kept every entry of `history` is its last 20 entries. */
  lemma KeepIsWindow(history: seq<LogEntry>, e: LogEntry)
    ensures Keep(Recent(history, LOG_LIMIT), e) == Recent(history + [e], LOG_LIMIT)
  {
    RecentOfRecent(history, LOG_LIMIT - 1, LOG_LIMIT);
    RecentOfAppend(history, e, LOG_LIMIT);
  }

  /** The last m of the last n entries are the last m entries. */
  lemma RecentOfRecent(log: seq<LogEntry>, m: nat, n: nat)
    requires 0 < m <= n
    ensures Recent(Recent(log, n), m) == Recent(log, m)
  {
    if |log| > m {
      var w := Recent(log, n);
      assert w[|w| - m..] == log[|log| - m..];
    }
  }

  /** The last n entries after an append are the last n - 1 before it, then the new one. */
  lemma RecentOfAppend(log: seq<LogEntry>, e: LogEntry, n: nat)
    requires n > 1
    ensures Recent(log + [e], n) == Recent(log, n - 1) + [e]
  {
    if |log| + 1 > n {
      assert (log + [e])[|log| + 1 - n..] == log[|log| - (n - 1)..] + [e];
    }
  }

  /** The log after recording `entries` one by one, starting empty. */
  function Replay(entries: seq<LogEntry>): (log: seq<LogEntry>)
  {
    if |entries| == 0 then [] else Keep(Replay(entries[..|entries| - 1]), entries[|entries| - 1])
  }

  /** However many entries were logged, the log holds exactly the most recent 20, in order. */
  lemma {:induction false} ReplayIsWindow(entries: seq<LogEntry>)
    ensures Replay(entries) == Recent(entries, LOG_LIMIT)
  {
    if |entries| > 0 {
      var init := entries[..|entries| - 1];
      var last := entries[|entries| - 1];
      assert entries == init + [last];
      calc {
        Replay(entries);
        Keep(Replay(init), last);
        { ReplayIsWindow(init); }
        Keep(Recent(init, LOG_LIMIT), last);
        { KeepIsWindow(init, last); }
        Recent(init + [last], LOG_LIMIT);
      }
    }
  }

  // ---------------------------------------------------------------------
  // Registration addresses
  // ---------------------------------------------------------------------

  /** `req.headers["x-forwarded-for"] || req.socket.remoteAddress`. */
  function ClientAddress(forwardedFor: Option<string>, remoteAddress: string): (ip: string)
    ensures Truthy(forwardedFor) ==> ip == forwardedFor.value
    ensures !Truthy(forwardedFor) ==> ip == remoteAddress
  {
    if Truthy(forwardedFor) then forwardedFor.value else remoteAddress
  }

  predicate HasMappedPrefix(ip: string) {
    |ip| >= |MAPPED_PREFIX| && ip[..|MAPPED_PREFIX|] == MAPPED_PREFIX
  }

  /** Drop one leading `::ffff:`, then write the loopback aliases as `127.0.0.1`. */
  function NormaliseIp(ip: string): (r: string)
    ensures r != "::1" && r != "localhost"
  {
    var unmapped := if HasMappedPrefix(ip) then ip[|MAPPED_PREFIX|..] else ip;
    if unmapped == "::1" || unmapped == "localhost" then LOOPBACK else unmapped
  }

  /** An IPv4-mapped IPv6 address is stored as the IPv4 address it wraps. */
  lemma MappedAddressUnwrapped(v4: string)
    requires v4 != "::1" && v4 != "localhost"
    ensures NormaliseIp(MAPPED_PREFIX + v4) == v4
  {
    assert (MAPPED_PREFIX + v4)[..|MAPPED_PREFIX|] == MAPPED_PREFIX;
    assert (MAPPED_PREFIX + v4)[|MAPPED_PREFIX|..] == v4;
  }

  /** Any other address is stored as given. */
  lemma PlainAddressKept(ip: string)
    requires !HasMappedPrefix(ip) && ip != "::1" && ip != "localhost"
    ensures NormaliseIp(ip) == ip
  {
  }

  /** Every spelling of the local host is stored as `127.0.0.1`. */
  lemma LoopbackAliases()
    ensures NormaliseIp("::1") == LOOPBACK
    ensures NormaliseIp("localhost") == LOOPBACK
    ensures NormaliseIp("::ffff:127.0.0.1") == LOOPBACK
    ensures NormaliseIp("::ffff:localhost") == LOOPBACK
  {
    assert !HasMappedPrefix("::1");
    assert "localhost"[0] != MAPPED_PREFIX[0];
    assert ("::ffff:127.0.0.1")[|MAPPED_PREFIX|..] == LOOPBACK;
    assert ("::ffff:localhost")[|MAPPED_PREFIX|..] == "localhost";
  }

  /** When and from where a node last registered. */
  datatype Registration = Registration(ip: string, registeredAt: int)

  // ---------------------------------------------------------------------
  // Checks
  // ---------------------------------------------------------------------

  /**
   * `checks[check](req)` for this one request: the map holds the outcome of
   * every named check that exists as a function; a missing name is unknown.
   */
  predicate Passes(outcomes: map<string, bool>, check: string) {
    check in outcomes && outcomes[check]
  }

  /** The index of the first check that is unknown or fails, or |checks|. */
  function FirstRejected(checks: seq<string>, outcomes: map<string, bool>): (k: nat)
    ensures k <= |checks|
    ensures forall j :: 0 <= j < k ==> Passes(outcomes, checks[j])
    ensures k < |checks| ==> !Passes(outcomes, checks[k])
  {
    if |checks| == 0 then 0
    else if !Passes(outcomes, checks[0]) then 0
    else
      var k := FirstRejected(checks[1..], outcomes);
      assert forall j :: 1 <= j < k + 1 ==> checks[j] == checks[1..][j - 1];
      k + 1
  }

  /** The checks whose functions actually run before `runChecks` answers. */
  function Invoked(checks: seq<string>, outcomes: map<string, bool>): (r: seq<string>)
    ensures |r| <= |checks| && r == checks[..|r|]
    ensures forall j :: 0 <= j < |r| ==> r[j] in outcomes
    ensures forall j :: 0 <= j < |r| - 1 ==> outcomes[r[j]]
    ensures |r| < |checks| ==> checks[|r|] !in outcomes || (|r| > 0 && !outcomes[r[|r| - 1]])
  {
    var k := FirstRejected(checks, outcomes);
    checks[..k] + (if k < |checks| && checks[k] in outcomes then [checks[k]] else [])
  }

  // ---------------------------------------------------------------------
  // NetworkNode
  // ---------------------------------------------------------------------

  class NetworkNode {
    const id: string
    const psk: string
    const roles: seq<string>
    const affects: seq<string>
    const checks: seq<string>
    var registration: Option<Registration>
    var events: seq<LogEntry>
    var errors: seq<LogEntry>

    /** What the constructor guarantees of the configuration fields. */
    predicate WellFormed() {
      id != "" && psk != "" && |roles| > 0
    }

    /** Both logs stay within their bound. */
    predicate LogsBounded()
      reads this
    {
      |events| <= LOG_LIMIT && |errors| <= LOG_LIMIT
    }

    constructor(id: string, psk: string, roles: seq<string>, affects: seq<string>, checks: seq<string>)
      requires id != "" && psk != "" && |roles| > 0
      ensures WellFormed() && LogsBounded()
      ensures this.id == id && this.psk == psk && this.roles == roles
      ensures this.affects == affects && this.checks == checks
      ensures registration.None? && events == [] && errors == []
    {
      this.id := id;
      this.psk := psk;
      this.roles := roles;
      this.affects := affects;
      this.checks := checks;
      registration := None;
      events := [];
      errors := [];
    }

    /** `new NetworkNode(config, psk)`: throws unless id, psk and roles are set. */
    static method Create(config: NodeConfig, psk: Option<string>) returns (r: Result<NetworkNode, string>)
      ensures r.Failure? <==> ConfigError(config, psk).Some?
      ensures r.Failure? ==> r.error == ConfigError(config, psk).value
      ensures r.Success? ==> fresh(r.value) && r.value.WellFormed() && r.value.LogsBounded()
      ensures r.Success? ==> r.value.id == config.id.value && r.value.psk == psk.value && r.value.roles == config.roles.value
      ensures r.Success? ==> r.value.affects == config.affects.GetOr([]) && r.value.checks == config.checks.GetOr([])
      ensures r.Success? ==> r.value.registration.None? && r.value.events == [] && r.value.errors == []
    {
      var e := ConfigError(config, psk);
      if e.Some? {
        return Failure(e.value);
      }
      var node := new NetworkNode(config.id.value, psk.value, config.roles.value,
                                  config.affects.GetOr([]), config.checks.GetOr([]));
      return Success(node);
    }

    /** `logEvent(event)`: record the stamped event and return its id. */
    method LogEvent(event: Report, uuid: string, now: int) returns (eventId: string)
      modifies this`events
      ensures events == Keep(old(events), Stamp(event, uuid, now))
      ensures eventId == events[|events| - 1].id
      ensures |events| <= LOG_LIMIT
    {
      var entry := Stamp(event, uuid, now);
      events := Keep(events, entry);
      eventId := entry.id;
    }

    /** `logError(error)`: record the stamped error and return its id. */
    method LogError(error: Report, uuid: string, now: int) returns (errorId: string)
      modifies this`errors
      ensures errors == Keep(old(errors), Stamp(error, uuid, now))
      ensures errorId == errors[|errors| - 1].id
      ensures |errors| <= LOG_LIMIT
    {
      var entry := Stamp(error, uuid, now);
      errors := Keep(errors, entry);
      errorId := entry.id;
    }

    /** `roles.includes("recipient")`. */
    predicate IsRecipient()
      ensures IsRecipient() <==> exists i :: 0 <= i < |roles| && roles[i] == "recipient"
    {
      "recipient" in roles
    }

    /** `roles.includes("sender")`. */
    predicate IsSender()
      ensures IsSender() <==> exists i :: 0 <= i < |roles| && roles[i] == "sender"
    {
      "sender" in roles
    }

    /** `canAffectNode(id)`: a non-empty id listed in `affects`. */
    predicate CanAffectNode(target: Option<string>)
      ensures CanAffectNode(target) <==>
        exists i :: 0 <= i < |affects| && affects[i] != "" && target == Some(affects[i])
    {
      Truthy(target) && target.value in affects
    }

    /** `confirmPsk(psk)`: both keys non-empty and equal. */
    predicate ConfirmPsk(given: Option<string>)
      ensures ConfirmPsk(given) ==> given == Some(psk) && psk != ""
      ensures given == Some(psk) && psk != "" ==> ConfirmPsk(given)
    {
      Truthy(given) && psk != "" && given.value == psk
    }

    /** `register(req)`: store the normalised client address and the time. */
    method Register(forwardedFor: Option<string>, remoteAddress: string, now: int)
      modifies this`registration
      ensures registration == Some(Registration(NormaliseIp(ClientAddress(forwardedFor, remoteAddress)), now))
      ensures IsRegistered()
    {
      var ip := ClientAddress(forwardedFor, remoteAddress);
      registration := Some(Registration(NormaliseIp(ip), now));
    }

    method Unregister()
      modifies this`registration
      ensures registration.None? && !IsRegistered()
    {
      registration := None;
    }

    /** `!!registration`: the node has reported an address since it was last unregistered. */
    predicate IsRegistered()
      reads this
      ensures IsRegistered() <==> registration != None
    {
      registration.Some?
    }

    /** `getIpAddress()`: the registered address, or the error it throws. */
    function GetIpAddress(): (r: Result<string, string>)
      reads this
      ensures r.Failure? <==> !IsRegistered()
      ensures r.Failure? ==> r.error == "Node is not registered"
      ensures r.Success? ==> r.value == registration.value.ip
    {
      if !IsRegistered() then Failure("Node is not registered") else Success(registration.value.ip)
    }

    /** `checks.length > 0`. */
    predicate HasChecks()
      ensures !HasChecks() <==> checks == []
    {
      |checks| > 0
    }

    /**
     * `runChecks(req)`: run the named checks in order, answering false at
     * the first one that is unknown or fails. `invoked` lists the checks
     * whose functions were called.
     */
    method RunChecks(outcomes: map<string, bool>) returns (pass: bool, invoked: seq<string>)
      ensures pass <==> forall j :: 0 <= j < |checks| ==> Passes(outcomes, checks[j])
      ensures pass <==> FirstRejected(checks, outcomes) == |checks|
      ensures invoked == Invoked(checks, outcomes)
    {
      invoked := [];
      var i := 0;
      while i < |checks|
        invariant 0 <= i <= |checks|
        invariant forall j :: 0 <= j < i ==> Passes(outcomes, checks[j])
        invariant invoked == checks[..i]
      {
        var check := checks[i];
        if check !in outcomes {
          return false, invoked;
        }
        invoked := invoked + [check];
        if !outcomes[check] {
          return false, invoked;
        }
        assert checks[..i + 1] == checks[..i] + [check];
        i := i + 1;
      }
      assert checks[..i] == checks;
      return true, invoked;
    }
  }

  /** The password check accepts exactly the node's own key. */
  lemma ConfirmPskExactly(node: NetworkNode, given: Option<string>)
    requires node.WellFormed()
    ensures node.ConfirmPsk(given) <==> given == Some(node.psk)
  {
  }

  /** No absent or empty key is ever accepted, even by a node with an empty key. */
  lemma EmptyPskRejected(node: NetworkNode, given: Option<string>)
    requires !Truthy(given)
    ensures !node.ConfirmPsk(given)
  {
  }

  // ---------------------------------------------------------------------
  // Network
  // ---------------------------------------------------------------------

  /** The index of the first node at or after `from` whose id is `id`, or |nodes|. */
  function FirstWithId(nodes: seq<NetworkNode>, id: Option<string>, from: nat): (k: nat)
    requires from <= |nodes|
    ensures from <= k <= |nodes|
    ensures forall j :: from <= j < k ==> Some(nodes[j].id) != id
    ensures k < |nodes| ==> Some(nodes[k].id) == id
    decreases |nodes| - from
  {
    if from == |nodes| then from
    else if Some(nodes[from].id) == id then from
    else FirstWithId(nodes, id, from + 1)
  }

  /** `nodes.filter(keep)`: the kept nodes, in their original order. */
  function Filter(nodes: seq<NetworkNode>, keep: NetworkNode -> bool): (r: seq<NetworkNode>)
    ensures |r| <= |nodes|
    ensures forall n :: n in r ==> n in nodes && keep(n)
    ensures forall n :: n in nodes && keep(n) ==> n in r
  {
    if |nodes| == 0 then []
    else (if keep(nodes[0]) then [nodes[0]] else []) + Filter(nodes[1..], keep)
  }

  /** Filtering goes through concatenation, so it keeps the nodes' relative order. */
  lemma {:induction false} FilterAppend(a: seq<NetworkNode>, b: seq<NetworkNode>, keep: NetworkNode -> bool)
    ensures Filter(a + b, keep) == Filter(a, keep) + Filter(b, keep)
  {
    if |a| > 0 {
      assert (a + b)[0] == a[0];
      assert (a + b)[1..] == a[1..] + b;
      FilterAppend(a[1..], b, keep);
    } else {
      assert a + b == b;
    }
  }

  class Network {
    const nodes: seq<NetworkNode>

    constructor(nodes: seq<NetworkNode>)
      ensures this.nodes == nodes
    {
      this.nodes := nodes;
    }

    /** `getNode(id)`: the first node whose id is `id`, if any. */
    function GetNode(id: Option<string>): (r: Option<NetworkNode>)
      ensures r.None? <==> forall k :: 0 <= k < |nodes| ==> Some(nodes[k].id) != id
      ensures r.Some? ==> exists k :: 0 <= k < |nodes| && nodes[k] == r.value && Some(r.value.id) == id &&
                                      forall j :: 0 <= j < k ==> Some(nodes[j].id) != id
    {
      var k := FirstWithId(nodes, id, 0);
      if k < |nodes| then Some(nodes[k]) else None
    }

    /** `getRecipients()`: the nodes with the recipient role, in configuration order. */
    function GetRecipients(): (r: seq<NetworkNode>)
      ensures forall n :: n in r ==> n in nodes && n.IsRecipient()
      ensures forall n :: n in nodes && n.IsRecipient() ==> n in r
    {
      Filter(nodes, (n: NetworkNode) => n.IsRecipient())
    }

    /** `getSenders()`: the nodes with the sender role, in configuration order. */
    function GetSenders(): (r: seq<NetworkNode>)
      ensures forall n :: n in r ==> n in nodes && n.IsSender()
      ensures forall n :: n in nodes && n.IsSender() ==> n in r
    {
      Filter(nodes, (n: NetworkNode) => n.IsSender())
    }
  }
}
