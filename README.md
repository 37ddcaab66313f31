# gate-network in Dafny

This is a model of the Farset Labs gate network, with proofs about it.
The network has two parts:

- **The door actuator.** Its MicroPython firmware is `DoorServer`. It answers a form POST that carries the shared secret by
  switching the actuator on. It then schedules a re-lock after the requested duration, clamped to between 1 and 30 seconds.
  When a later request moves the stored deadline `unlocked_until` further out, the earlier re-lock does nothing.
- **The hub.** It is a Node/Express service that knows every configured node (a `NetworkNode`). It lets nodes
  register and report errors. It also relays a sender's action to a registered recipient.

The first, socket-based door firmware is modelled too: its form parser and its fixed reply.

The project has these modules:

- `Wrappers`: `Option` and `Result`.
- `Ticks`: MicroPython's wrapping tick counter. The period is 2^30 ms; `ticks_add` wraps, and `ticks_diff` is signed modulo
  the period.
- `Door`: Python's `int()` on strings, `parse_duration`, the clamp, and the request handler and re-lock scheduler.
  - The scheduler is a pure state machine, `DoorState`. Its invariants are proved about it.
  - The class `DoorServer` has the firmware's fields. Each method's contract ties its new state to the state machine.
  - Time is an explicit parameter `now`, in milliseconds since boot. `ticks_ms()` is `now` modulo the period.
  - A sleeping `schedule_lock` task is a pending `Timer(fireAt, armed)`. It wakes at `fireAt` and locks only if the stored
    deadline is still `armed`.
- `LegacyDoor`: Python's `find`, slicing and `split`. Also the loop of `get_parameters_from` as an imperative method, and
  the fixed reply. The clamp on line 59 of `access-front-door/main.py` is the same expression as
  `access-front-door/src/main.py:78`, so it is modelled once, by `Door.Clamp`.
- `HubNetwork`: the `NetworkNode` class, with its bounded logs, key and permission predicates, registration, address
  normalisation and checks. Also the `Network` class, with lookup by id and filtering by role.
- `HubRoutes`: the `/register`, `/error` and `/action` handlers. Each is a method over the `Network` objects, specified by a
  pure gate function.
  - The forwarding `fetch`, the configured check functions, the generated UUIDs and `Date.now()` are inputs.
  - The methods state the handler's side effects, including when the sender and the recipient are the same node.
- `Relay`: what the door makes of a form the hub forwards.

## Model

| member | source | states |
|---|---|---|
| `Ticks.TicksMs` | access-front-door/src/main.py:85 | `ticks_ms()` is the time since boot until the counter first wraps |
| `Ticks.TicksAdd` | access-front-door/src/main.py:85 | the sum is congruent to `t + delta` modulo 2^30, and equal to it when it does not wrap |
| `Ticks.TicksDiff` | access-front-door/src/main.py:88 | the result lies in [-2^29, 2^29) and is congruent to `a - b` modulo 2^30 |
| `Ticks.DiffExact` | access-front-door/src/main.py:88 | ticks within half a period give their exact difference |
| `Ticks.DiffOfAdd` | access-front-door/src/main.py:85-88 | `ticks_diff(ticks_add(t, d), t) == d` for every step shorter than half a period |
| `Ticks.DiffSmall` | access-front-door/src/main.py:88 | in the lower half period, `ticks_diff(a, b) < 0` exactly when `a < b` |
| `Ticks.UpperHalfLooksEarlier` | access-front-door/src/main.py:88 | a tick in the upper half period compares as earlier than 0 |
| `Door.TrimStart` | access-front-door/src/main.py:66 | the result is a suffix of the input that starts with no white space, and everything dropped before it is white space |
| `Door.TrimEnd` | access-front-door/src/main.py:66 | the result is a prefix of the input that ends with no white space, and everything dropped after it is white space |
| `Door.ParseInt` | access-front-door/src/main.py:66-67 | `int(s)` succeeds exactly when the stripped text is an optional sign followed by one or more digits |
| `Door.ParseLiteral` | access-front-door/src/main.py:66-67 | on text already stripped, a value exactly for an optional sign followed by one or more digits |
| `Door.ParseIntOfDigits` | access-front-door/src/main.py:66 | a bare run of digits parses to its decimal value |
| `Door.StripNegated` | access-front-door/src/main.py:66 | a '-' followed by digits has nothing to strip |
| `Door.NegativeLiteral` | access-front-door/src/main.py:66 | a '-' followed by digits reads as the negated value of the digits |
| `Door.ShowNat` | access-front-door/src/main.py:66 | a natural number's numeral is non-empty and all digits |
| `Door.DigitsValueOfShowNat` | access-front-door/src/main.py:66 | reading a numeral's digits gives back the number |
| `Door.ParseIntOfShow` | access-front-door/src/main.py:66 | `int(str(n)) == n` for every integer, negative ones included |
| `Door.ParseIntNeedsDigit` | access-front-door/src/main.py:66-67 | text with no digit at all raises ValueError |
| `Door.ParseDuration` | access-front-door/src/main.py:64-68 | a missing duration (`None`, TypeError) gives the default |
| `Door.ParseDurationOfNonInteger` | access-front-door/src/main.py:66-68 | a duration that is not an integer numeral (ValueError) gives the default |
| `Door.ParseDurationOfShow` | access-front-door/src/main.py:66 | a duration sent as a numeral is the duration used |
| `Door.Clamp` | access-front-door/src/main.py:78 | the result lies in [1, 30]; it is the input when that is in range, 1 below and 30 above |
| `Door.Get` | access-front-door/src/main.py:74-77 | `dict.get`: None exactly when the key is absent, else the stored value |
| `Door.Authentic` | access-front-door/src/main.py:74-75 | a request passes exactly when it carries a `psk` field equal to the shared password; a missing field never passes |
| `Door.UnlockSeconds` | access-front-door/src/main.py:77-78 | every request unlocks for 1 to 30 seconds; without `duration` it unlocks for the clamped default |
| `Door.ArmRelock` | access-front-door/src/main.py:84-91 | the actuator is untouched; a deadline that compares earlier changes nothing; otherwise it is stored and a task is armed for it |
| `Door.Request` | access-front-door/src/main.py:70-82 | a wrong or missing psk changes nothing and returns None; a matching psk unlocks, arms the re-lock for the clamped duration in ms, and returns `'OK'` |
| `Door.FireTimer` | access-front-door/src/main.py:92-96 | a waking task leaves the pending set and the deadline alone, and locks exactly when the deadline is still the one it armed |
| `Door.Booted` | access-front-door/src/main.py:111-113 | after construction (`unlocked_until = 0`, line 58) and `door.lock()`: locked, deadline 0, no task asleep |
| `Door.BootedCalm` | access-front-door/src/main.py:111-113 | the state after `main` locks the door meets the scheduler invariant |
| `Door.ArmRelockLatestWins` | access-front-door/src/main.py:85-91 | with small ticks, the stored deadline becomes the later of the old and new one; a task is armed exactly when the new one is not earlier |
| `Door.AuthenticRequestExtends` | access-front-door/src/main.py:77-91 | an authenticated request unlocks; it arms `now + secs*1000` unless the stored deadline is later, in which case the pending set is unchanged |
| `Door.RequestKeepsCalm` | access-front-door/src/main.py:70-91 | a request (accepted or not) preserves the invariant: every task wakes at its deadline, none past the stored one, and an unlocked door has a re-lock armed |
| `Door.FireTimerKeepsCalm` | access-front-door/src/main.py:92-96 | a task waking on time preserves the invariant |
| `Door.FireTimerKeepsRelockArmed` | access-front-door/src/main.py:94-96 | whatever the tick values, a waking task never leaves an unlocked door without a re-lock |
| `Door.RelockOnlyAtDeadline` | access-front-door/src/main.py:94-96 | a task that locks does so at the stored deadline, never before it |
| `Door.SupersededTimerIsNoOp` | access-front-door/src/main.py:94-96 | a superseded task changes nothing but its own removal |
| `Door.TwoRequestsExtend` | access-front-door/src/main.py:84-96 | two requests on a locked door: it stays open until the later deadline, and the second arms a task exactly when its deadline is not the earlier |
| `Door.ExtendsOpenDoor` | access-front-door/src/main.py:84-91 | a request on a door held open until `a` keeps `a` or moves the deadline to its own and arms it |
| `Door.LaterRequestSupersedes` | access-front-door/src/main.py:88-96 | when the second deadline is later, the first task wakes and leaves the door open, and the second locks it |
| `Door.AskedSeconds` | access-front-door/src/main.py:77-78 | a request asking for 1 to 30 seconds is granted exactly that |
| `Door.FiveThenTwenty` | access-front-door/src/main.py:84-96 | 5 s at t=1 s, then 20 s at t=3 s: the door stays open at 6 s and locks at 23 s |
| `Door.TwentyThenFive` | access-front-door/src/main.py:84-96 | 20 s at t=1 s, then 5 s at t=3 s: nothing more is armed, and the door locks at 21 s |
| `Door.StaleDeadlineLeavesDoorOpen` | access-front-door/src/main.py:88-89 | as written, a request at t = 2^29 ms after boot unlocks the door and arms no re-lock |
| `Door.ArmRelockGuarded` | access-front-door/src/main.py:88-91 | corrected rule: a locked door always stores the new deadline and arms a re-lock for it; the state is left unchanged exactly when the door is already open and the new deadline is earlier than the stored one; otherwise the new deadline is stored and its re-lock armed |
| `Door.RequestGuarded` | access-front-door/src/main.py:70-82 | `index` with the corrected rule: a wrong psk changes nothing and gets no reply; a matching psk replies "OK" and unlocks; on a locked door (or an open one whose stored deadline is not later) it stores the deadline `unlock_seconds` × 1000 ms ahead and arms a re-lock for the clamped duration; an open door with a later deadline keeps its state |
| `Door.RequestGuardedKeepsRelockArmed` | access-front-door/src/main.py:88-91 | with the corrected rule, an unlocked door always has a re-lock armed, whatever the tick values |
| `Door.GuardedAgreesWhenCalm` | access-front-door/src/main.py:88-91 | while ticks are small, the corrected rule behaves exactly like the code |
| `Door.DoorServer.constructor` | access-front-door/src/main.py:53-58 | `unlocked_until` starts at 0, nothing is armed, and the actuator is as it powered up |
| `Door.DoorServer.Start` | access-front-door/src/main.py:111-113 | `main` leaves a fresh server in the booted state: locked, deadline 0, nothing armed |
| `Door.DoorServer.Lock` | access-front-door/src/main.py:98-100 | the actuator is off |
| `Door.DoorServer.Unlock` | access-front-door/src/main.py:102-105 | the actuator is on |
| `Door.DoorServer.ScheduleLock` | access-front-door/src/main.py:84-91 | the new state is `ArmRelock` of the old one; the deadline is the old one or `ticks_add(ticks_ms(), duration_ms)` |
| `Door.DoorServer.ResumeScheduledLock` | access-front-door/src/main.py:92-96 | the new state is `FireTimer` of the old one; the door locks exactly when the deadline is unchanged |
| `Door.DoorServer.Index` | access-front-door/src/main.py:70-82 | the new state and the reply are `Request` of the old state; a bad psk changes nothing |
| `LegacyDoor.FindFrom` | access-front-door/main.py:27 | the first occurrence at or after `k`, or -1 when there is none |
| `LegacyDoor.Find` | access-front-door/main.py:27 | -1 exactly when the pattern does not occur, else its first occurrence |
| `LegacyDoor.SliceFrom` | access-front-door/main.py:28 | Python's `s[i:]`, with negative indices counted from the end |
| `LegacyDoor.IndexOf` | access-front-door/main.py:28 | the first index of the character, or -1 exactly when it is absent |
| `LegacyDoor.Split` | access-front-door/main.py:28 | at least one piece; two or more exactly when the separator occurs; no piece holds the separator |
| `LegacyDoor.JoinSplit` | access-front-door/main.py:28 | joining the pieces with the separator gives back the text |
| `LegacyDoor.SplitKeepsPrefix` | access-front-door/main.py:28 | a prefix without the separator stays at the head of the first piece |
| `LegacyDoor.Pieces` | access-front-door/main.py:27-28 | there is always at least one piece to walk over |
| `LegacyDoor.SplitHead` | access-front-door/main.py:31 | the first piece of a split runs to the first separator; the second starts just after it |
| `LegacyDoor.KeyShape` | access-front-door/main.py:31-32 | `piece.split("=")[0]` is the text before the first '=', or the whole piece when it has none, and holds no '=' |
| `LegacyDoor.ValueShape` | access-front-door/main.py:31-32 | `piece.split("=")[1]` is the text from just after the first '=' up to the second '=' or the end |
| `LegacyDoor.LastWithKey` | access-front-door/main.py:30-32 | the index of the last piece with the key, or -1; no later piece has the key |
| `LegacyDoor.LookupFindsLast` | access-front-door/main.py:25-32 | last value wins: `Lookup` is absent exactly when no piece has the key, and otherwise is the value of the last piece that has it |
| `LegacyDoor.Parameters` | access-front-door/main.py:25-32 | the dictionary built front to back has no more entries than there are pieces |
| `LegacyDoor.ParametersAreLastValues` | access-front-door/main.py:30-32 | the dictionary has exactly the pieces' keys, each with the last value, and no more entries than pieces |
| `LegacyDoor.GetParametersFrom` | access-front-door/main.py:24-34 | IndexError exactly when some piece lacks '='; otherwise exactly the keys of the pieces, the last value wins, at most one entry per piece |
| `LegacyDoor.FirstKeyStartsAtMarker` | access-front-door/main.py:27-32 | with the header present, the first key begins with `Content-Length:` |
| `LegacyDoor.NoMarkerParsesLastCharacter` | access-front-door/main.py:27-28 | without the header, only the last character is parsed, and it parses only when it is '=' |
| `LegacyDoor.ServeConnection` | access-front-door/main.py:48-52 | nothing is sent when parsing raises; otherwise the reply is always the fixed 200 response of line 12 |
| `HubNetwork.ConfigError` | hub/network.js:7-10 | construction fails exactly when the id or the psk is missing or empty, or the roles are missing or empty; the message is "Id must be set", "PSK must be set" or "Roles must be set", checked in the constructor's order |
| `HubNetwork.NetworkNode.constructor` | hub/network.js:12-19 | the fields are as configured; unregistered, with empty logs |
| `HubNetwork.NetworkNode.Create` | hub/network.js:7-20 | throws exactly the constructor's error; otherwise a new node, with `affects` and `checks` defaulting to `[]` |
| `HubNetwork.Stamp` | hub/network.js:23-24 | a reported `id` overrides the fresh UUID; the other fields are copied and stamped with the time |
| `HubNetwork.Recent` | hub/network.js:25 | `slice(-n)` for n > 0: the last `n` entries, or the whole log when it is shorter |
| `HubNetwork.RecentOfRecent` | hub/network.js:25 | the last m of the last n entries are the last m entries |
| `HubNetwork.RecentOfAppend` | hub/network.js:25 | after an append, the last n entries are the last n - 1 before it, then the new one |
| `HubNetwork.Keep` | hub/network.js:25 | 1 to 20 entries; the new one is last; before it come the old log's last (up to 19) entries in order |
| `HubNetwork.KeepIsWindow` | hub/network.js:25 | keeping an entry on the last 20 of a history gives the last 20 of the longer history |
| `HubNetwork.ReplayIsWindow` | hub/network.js:22-27 | after any number of entries, the log holds exactly the most recent 20, in order |
| `HubNetwork.NetworkNode.LogEvent` | hub/network.js:22-27 | the event log becomes `Keep` of the old one; the returned id is the stored entry's id; the log stays within 20 |
| `HubNetwork.NetworkNode.LogError` | hub/network.js:29-34 | the error log becomes `Keep` of the old one; the returned id is the stored entry's id; the log stays within 20 |
| `HubNetwork.NetworkNode.IsRecipient` | hub/network.js:36-38 | `roles.includes("recipient")`: some role is `recipient` |
| `HubNetwork.NetworkNode.IsSender` | hub/network.js:40-42 | `roles.includes("sender")`: some role is `sender` |
| `HubNetwork.NetworkNode.CanAffectNode` | hub/network.js:44-46 | holds exactly for a non-empty id listed in `affects`; an undefined or empty id never passes |
| `HubNetwork.NetworkNode.ConfirmPsk` | hub/network.js:48-50 | holds only for the node's own non-empty key, and always for it |
| `HubNetwork.ConfirmPskExactly` | hub/network.js:48-50 | for a constructed node, `confirmPsk(p)` holds exactly when `p` is its key |
| `HubNetwork.EmptyPskRejected` | hub/network.js:48-50 | a missing or empty key is never accepted |
| `HubNetwork.ClientAddress` | hub/network.js:53 | the `X-Forwarded-For` header when it is non-empty, else the socket's address |
| `HubNetwork.NormaliseIp` | hub/network.js:54-55 | the stored address is never `::1` or `localhost` |
| `HubNetwork.MappedAddressUnwrapped` | hub/network.js:54 | an IPv4-mapped address is stored as the address it wraps |
| `HubNetwork.PlainAddressKept` | hub/network.js:54-55 | any other address is stored unchanged |
| `HubNetwork.LoopbackAliases` | hub/network.js:55 | `::1`, `localhost` and their mapped forms are all stored as `127.0.0.1` |
| `HubNetwork.NetworkNode.Register` | hub/network.js:52-57 | the registration is the normalised client address with the time; the node is registered |
| `HubNetwork.NetworkNode.Unregister` | hub/network.js:59-61 | the node is no longer registered |
| `HubNetwork.NetworkNode.IsRegistered` | hub/network.js:63-65 | `!!registration`: a registration is stored; `Register` makes it hold and `Unregister` makes it fail |
| `HubNetwork.NetworkNode.GetIpAddress` | hub/network.js:67-70 | throws `Node is not registered` exactly when unregistered; otherwise the registered address |
| `HubNetwork.FirstRejected` | hub/network.js:76-85 | every check before the index passes, and the one at it is unknown or fails |
| `HubNetwork.NetworkNode.HasChecks` | hub/network.js:72-74 | false exactly when the node has no configured checks |
| `HubNetwork.Invoked` | hub/network.js:77-82 | the check functions called form a prefix of the checks, each one known; all but the last passed; calls stop at the first unknown check or right after the first failing one |
| `HubNetwork.NetworkNode.RunChecks` | hub/network.js:76-85 | true exactly when every check is known and passes; the checks run in order up to the first unknown or failing one |
| `HubNetwork.FirstWithId` | hub/network.js:105-107 | the first index at or after `from` with that id, or the end |
| `HubNetwork.Network.GetNode` | hub/network.js:105-107 | absent exactly when no node has the id; otherwise the first node that has it |
| `HubNetwork.Filter` | hub/network.js:109-115 | the kept nodes are exactly the nodes that satisfy the predicate |
| `HubNetwork.FilterAppend` | hub/network.js:109-115 | filtering distributes over concatenation, so the kept nodes stay in configuration order |
| `HubNetwork.Network.GetRecipients` | hub/network.js:109-111 | exactly the nodes with the recipient role |
| `HubNetwork.Network.GetSenders` | hub/network.js:113-115 | exactly the nodes with the sender role |
| `HubRoutes.FormValue` | hub/index.js:119-122 | an undefined `params` is forwarded as the text `undefined` |
| `HubRoutes.IdentityStatus` | hub/index.js:20-32 | 400 exactly for an unknown id, 403 exactly for a known id with a wrong key, otherwise 200 |
| `HubRoutes.IdentityAcceptedExactly` | hub/index.js:20-32 | over constructed nodes, 200 exactly when the id is known and the key is that node's |
| `HubRoutes.HandleRegister` | hub/index.js:20-36 | status as the gate says; on 200 only the node's registration changes, to the normalised address; otherwise nothing changes |
| `HubRoutes.HandleError` | hub/index.js:46-62 | status as the gate says; on 200 the node logs `{ error }` and nothing else changes; otherwise nothing changes |
| `HubRoutes.ActionGate` | hub/index.js:85-98 | 400 exactly when the sender or target is unknown, or the target is not a registered recipient; then 403 exactly for a wrong key or a target the sender may not affect |
| `HubRoutes.ChecksPass` | hub/index.js:107-110 | the checks let the request through exactly when every configured check is known and passes |
| `HubRoutes.ActionStatus` | hub/index.js:85-135 | the status is one of 200, 400, 401, 403, 500: 400 and 403 as the gate says, then 401 exactly for failing checks, then 200 exactly when the recipient answers ok and 500 otherwise |
| `HubRoutes.HandleAction` | hub/index.js:78-140 | the status is `ActionStatus` of the prior state; a form goes out exactly on 200 and 500, carrying the recipient's key and `params`; 400 and 403 change nothing; 401 logs nothing; a forwarded action logs one sender event and one recipient entry with the same id; a recipient distinct from the sender keeps its registration |
| `HubRoutes.Admit` | hub/index.js:100-110 | an unregistered sender is registered at its client address; a registered one keeps its registration; the verdict is that of its checks, or a pass when it has none |
| `HubRoutes.ForwardAction` | hub/index.js:112-135 | the recipient's key and `params` go to the recipient's address; 200 exactly when the recipient answers OK, else 500; one sender event and one recipient entry under the same id |
| `HubRoutes.Deliver` | hub/index.js:124-134 | on 200 the entry joins the recipient's events, on 500 its errors, with the sender's event id; the other log stays as it was |
| `HubRoutes.NonRecipientTargetIsBadRequest` | hub/index.js:85-92 | a target without the recipient role gives 400, whatever else the body says |
| `HubRoutes.UnaffectableTargetIsForbidden` | hub/index.js:94-98 | towards a registered recipient, 403 exactly when the key is wrong or the target is not among those the sender may affect |
| `HubRoutes.NoChecksAlwaysPass` | hub/index.js:106-110 | a sender without checks is never refused with 401, and no check function runs |
| `HubRoutes.UnregisteredTargetIsBadRequest` | hub/tests/interaction.test.js:36-46 | an unregistered recipient gives 400 even with correct credentials |
| `HubRoutes.UnknownIdIsBadRequest` | hub/tests/interaction.test.js:54-87 | an unknown sender or target id gives 400 |
| `HubRoutes.WrongKeyIsForbidden` | hub/tests/interaction.test.js:65-74 | a wrong sender key towards a registered recipient gives 403 |
| `HubRoutes.AcceptedFollowsRecipient` | hub/index.js:124-134 | past the gate and the checks, 200 exactly when the recipient answers ok, 500 otherwise |
| `HubRoutes.FailingCheckIsUnauthorized` | hub/index.js:107-110 | past the gate, 401 exactly when some configured check is unknown or fails |
| `HubRoutes.DeliveryEntryCarriesEventId` | hub/index.js:128-134 | the recipient's entry carries the sender's event id and the params; a non-ok answer is logged as `Cannot access affected node` |
| `Relay.DoorForm` | hub/index.js:119-122 | the forwarded form has exactly the fields `psk` and `params` |
| `Relay.RelayedActionAuthentic` | access-front-door/src/main.py:74-75 | the door accepts a relayed action exactly when the forwarded key is its password |
| `Relay.RelayedActionUsesDefault` | access-front-door/src/main.py:77-78 | a relayed action unlocks for the clamped default, whatever `params` holds |
| `Relay.RelayedRequest` | access-front-door/src/main.py:70-82 | the door's whole reaction to a relayed action depends only on the key and the default |
| `Relay.ParamsIgnored` | hub/index.js:119-122 | two relayed actions that differ only in `params` leave the door in the same state |

Some helpers have no row of their own because the rows of their callers pin them down.
`HubRoutes.RecipientUrl` (the fetch URL, hub/index.js:117), `HubRoutes.SenderEvent` (hub/index.js:114),
`HubRoutes.DeliveryEntry` (hub/index.js:128, 134) and `HubRoutes.FailureMessage` (the catch block's `e.message`,
hub/index.js:124, 134) are covered by the `HubRoutes.HandleAction`, `HubRoutes.ForwardAction` and `HubRoutes.Deliver`
rows. `Door.Strip` (the strip inside `int()`) is covered by the `Door.ParseInt`, `Door.TrimStart` and `Door.TrimEnd` rows.

In full, `HubRoutes.HandleAction` states the following:

- Its status is `ActionStatus` of the state before the request: the gate, then 401 for failing checks, then 200 or 500
  from the forward.
- A form is sent exactly on 200 and 500. The form is `{ psk: recipient's key, params }`, sent to the recipient's
  registered address on port 8080.
- A 400 or 403 changes nothing.
- Past the gate, an unregistered sender is registered from this request. A recipient that is not the sender keeps its
  registration whatever the status.
- A 401 logs nothing.
- When the form is sent, the sender logs one event. The recipient then logs an event (on 200) or an error (on 500) with
  the same id. The contract states this both for separate sender and recipient nodes and for one node that is both.

## Left out

- **Networking and hardware.** Left out: the `Wifi` classes and `access-front-door/src/wifi.py`, which are WLAN I/O; the
  phew server; the socket accept loop; `PWM`/`Pin`; `app.listen`; the `dns.lookup` banner. The actuator is one boolean.
- **hub.py and the hub's `GET /network` dump.** These are a thin HTTP client wrapper and JSON serialisation. `toJSON` is
  not modelled.
- **Scheduling.** asyncio scheduling is replaced by an explicit single-threaded event sequence. A request runs the first
  half of `schedule_lock`, up to the sleep, at the time of the request. A `Timer` firing is a separate step, taken in any
  order the caller chooses. The delay before a created task first runs is not modelled.
- **External inputs.** `crypto.randomUUID`, `Date.now`, and `fetch` and its response are inputs. So are the `./checks`
  module (a map from check name to that check's answer for the request) and the JSON configuration files. The side
  effects of check functions are not modelled, only which ones run.
- **Network construction from configuration.** This is `Network`'s constructor mapping the config through `NetworkNode`.
  The model takes the list of nodes directly.
- **The broken top level of `access-front-door/main.py`.** It has these faults:
  - `wlan` is undefined (line 18);
  - the return is mis-indented (line 34);
  - `parmeters` is a misspelling, so line 55 raises NameError after the reply is sent;
  - `parameters["duration"]` raises KeyError when absent, and a str is compared with an int (lines 58-59).
  - The `str(bytes)` repr on line 26 is also not modelled: the parser works on the request text.
  - `LegacyDoor.ServeConnection` stops at the reply, before line 55.
- **`int()` corner cases.** `Door.ParseInt` accepts ASCII decimal literals with optional sign and surrounding ASCII white
  space. It does not accept digit-group underscores or non-ASCII digits.
- **Forms.** URL-encoding and decoding of form bodies is not modelled. Neither are the `extended: true` nested bodies of
  body-parser, which could give arrays or objects. Every field is a string or absent.
- **Express's async error handling.** A `register`, `logEvent` or `logError` that throws is not modelled. None of them
  throws on the modelled inputs. A configured check function that throws or whose promise rejects is not modelled
  either: `await sender.runChecks(req)` (hub/index.js:108, hub/network.js:80) then rejects and no response is sent.
  `HubNetwork.FirstRejected` and `HubNetwork.NetworkNode.RunChecks` treat each check only as a known name with a
  boolean outcome or as an unknown name.
- **Interleaving in the hub.** Each handler is modelled as running alone, from start to finish. In the source,
  `await sender.runChecks(req)` (hub/index.js:108) and `await fetch(...)` (hub/index.js:117) are points where other
  requests can run. `HubRoutes.HandleAction`'s exact log contents (`Keep` of the log before the request) assume that
  no other request changes those nodes' logs or registrations during the awaits.
- **Clock reads in /action.** `HubRoutes.HandleAction` takes three clock readings: `now` for the sender's `registeredAt`,
  `eventAt` for its event after the checks, and `later` for the recipient's entry. They are independent inputs, so the
  model does not promise that they increase.
- **The door's form decoding.** `index` reads the request through phew's `request.data` (access-front-door/src/main.py:71).
  phew is not part of this model. `Door.Request` and the `Relay` lemmas assume that `request.data` is the decoded form
  as a map from field name to string.
- `HubRoutes.HandleAction`: the `console.log` calls are left out. `affectedNode.getIpAddress()` cannot throw on this path
  because the gate requires the target to be registered, so the model reads the address directly.

## Findings

| source | as written | input that shows it | evidently intended | confidence | as-written member | corrected member |
|---|---|---|---|---|---|---|
| access-front-door/src/main.py:88-89 | A request is ignored when `ticks_diff(until_ms, unlocked_until) < 0`, but `index` has already switched the actuator on (line 80). `ticks_diff` compares modulo 2^30, so a deadline whose distance past the stored one, taken modulo 2^30, lies in [2^29, 2^30) looks earlier. | the first authenticated request at 2^29 ms (about 6.2 days) after boot, when `unlocked_until` is still 0, or after an idle spell of that length | a locked door always stores the new deadline and arms a re-lock; only an already-open door may keep a later deadline | not executed | `Door.StaleDeadlineLeavesDoorOpen` (about `Door.Request` / `Door.ArmRelock`) | `Door.ArmRelockGuarded`, with `Door.RequestGuardedKeepsRelockArmed` and `Door.GuardedAgreesWhenCalm` |

The class `Door.DoorServer` follows the code as written. It is tied to `Door.Request`, so the finding applies to it
directly. The corrected rule is proved to keep a re-lock armed for every tick value. It is also proved to agree with the
code while ticks stay below half a period.
