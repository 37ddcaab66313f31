/**
 * What the door makes of an action the hub forwards. The hub posts a form
 * with exactly two fields, `psk` and `params`; the door's handler reads
 * `psk` and a top-level `duration`, never `params`. So an action relayed by
 * the hub always unlocks for the door's default duration, whatever the
 * sender put in `params`.
 */
module Relay {
  import opened Wrappers
  import Door
  import HubRoutes

  /** The form fields the door's web server hands to `index` for a forwarded action. */
  function DoorForm(f: HubRoutes.Forward): (data: map<string, string>)
    ensures data.Keys == {"psk", "params"}
    ensures data["psk"] == f.psk && data["params"] == f.params
  {
    map["psk" := f.psk, "params" := f.params]
  }

  /** The door accepts a relayed action exactly when the recipient's key is the door's password. */
  lemma RelayedActionAuthentic(f: HubRoutes.Forward, secret: string)
    ensures Door.Authentic(DoorForm(f), secret) <==> f.psk == secret
  {
  }

  /** A relayed action unlocks for the clamped default, whatever `params` says. */
  lemma RelayedActionUsesDefault(f: HubRoutes.Forward, defaultSeconds: int)
    ensures Door.UnlockSeconds(DoorForm(f), defaultSeconds) == Door.Clamp(defaultSeconds)
  {
  }

  /** The door's whole reaction to a relayed action, in terms of the key and the default alone. */
  lemma RelayedRequest(s: Door.DoorState, now: nat, f: HubRoutes.Forward, secret: string, defaultSeconds: int)
    ensures Door.Request(s, now, DoorForm(f), secret, defaultSeconds) ==
      if f.psk == secret
      then (Door.ArmRelock(s.(unlocked := true), now, Door.Clamp(defaultSeconds) * 1000), Some("OK"))
      else (s, None)
  {
    RelayedActionAuthentic(f, secret);
    RelayedActionUsesDefault(f, defaultSeconds);
  }

  /** Two relayed actions that differ only in `params` leave the door in the same state. */
  lemma {:induction false} ParamsIgnored(s: Door.DoorState, now: nat, url: string, psk: string, p1: string, p2: string,
                                         secret: string, defaultSeconds: int)
    ensures Door.Request(s, now, DoorForm(HubRoutes.Forward(url, psk, p1)), secret, defaultSeconds) ==
            Door.Request(s, now, DoorForm(HubRoutes.Forward(url, psk, p2)), secret, defaultSeconds)
  {
    RelayedRequest(s, now, HubRoutes.Forward(url, psk, p1), secret, defaultSeconds);
    RelayedRequest(s, now, HubRoutes.Forward(url, psk, p2), secret, defaultSeconds);
  }
}
