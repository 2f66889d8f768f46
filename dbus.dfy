/** Presence tracking of the spotifyd media player on the session bus, and
    dispatch of its property-change notifications to registered callbacks.
    The bus itself is abstracted away: the list of names, the answer to
    "does this name have an owner" and the property-change notifications
    are inputs, and a pause call on the player is counted. */
module Dbus {
  import opened Wrappers

  /** The commands that can be sent to the player. */
  datatype SpotifyCommand = Pause

  /** The player properties a callback can be registered for. */
  datatype SpotifyEvent = Volume | PlaybackStatus
  {
    /** The property name the event is registered under. */
    function Value(): (r: string)
      ensures |r| > 0
    {
      match this
      case Volume => "Volume"
      case PlaybackStatus => "PlaybackStatus"
    }
  }

  /** Distinct events are registered under distinct property names. */
  lemma EventValueInjective(a: SpotifyEvent, b: SpotifyEvent)
    ensures a.Value() == b.Value() <==> a == b
  {
  }

  /** A registered handler, identified by name. */
  datatype Callback = Callback(name: string)

  /** The value a property changed to. */
  datatype Variant = DoubleValue(d: real) | StringValue(s: string)

  /** One call of a registered handler with the new value. */
  datatype Invocation = Invocation(callback: Callback, value: Variant)

  /** The well-known-name prefix every spotifyd instance registers under. */
  const SpotifydPrefix := "org.mpris.MediaPlayer2.spotifyd"

  /** A bus name belongs to a spotifyd instance: non-empty and prefixed. */
  predicate IsSpotifydName(name: string)
  {
    |name| > 0 && SpotifydPrefix <= name
  }

  /** The handlers in the order a notification listing `changed` invokes
      them: one per changed property that has a handler, unregistered
      properties skipped. */
  function Dispatch(callbacks: map<string, Callback>, changed: seq<(string, Variant)>): (r: seq<Invocation>)
    ensures |r| <= |changed|
  {
    if changed == [] then []
    else
      var (name, value) := changed[0];
      (if name in callbacks then [Invocation(callbacks[name], value)] else [])
        + Dispatch(callbacks, changed[1..])
  }

  /** Two notifications back to back dispatch what one joint one would. */
  lemma {:induction false} DispatchAppend(callbacks: map<string, Callback>, a: seq<(string, Variant)>, b: seq<(string, Variant)>)
    ensures Dispatch(callbacks, a + b) == Dispatch(callbacks, a) + Dispatch(callbacks, b)
  {
    if a == [] {
      assert a + b == b;
    } else {
      assert (a + b)[1..] == a[1..] + b;
      DispatchAppend(callbacks, a[1..], b);
    }
  }

  /** When every changed property has a handler, each one is invoked once,
      in order, with its own value. */
  lemma {:induction false} DispatchAllRegistered(callbacks: map<string, Callback>, changed: seq<(string, Variant)>)
    requires forall i | 0 <= i < |changed| :: changed[i].0 in callbacks
    ensures |Dispatch(callbacks, changed)| == |changed|
    ensures forall i | 0 <= i < |changed| ::
              Dispatch(callbacks, changed)[i] == Invocation(callbacks[changed[i].0], changed[i].1)
  {
    if changed != [] {
      DispatchAllRegistered(callbacks, changed[1..]);
    }
  }

  /** When no changed property has a handler, nothing is invoked. */
  lemma {:induction false} DispatchNoneRegistered(callbacks: map<string, Callback>, changed: seq<(string, Variant)>)
    requires forall i | 0 <= i < |changed| :: changed[i].0 !in callbacks
    ensures Dispatch(callbacks, changed) == []
  {
    if changed != [] {
      DispatchNoneRegistered(callbacks, changed[1..]);
    }
  }

  /** The first spotifyd name in a list of bus names, if there is one. */
  function FirstSpotifydName(names: seq<string>): (r: Option<string>)
    ensures r.None? <==> forall i | 0 <= i < |names| :: !IsSpotifydName(names[i])
    ensures r.Some? ==> exists i | 0 <= i < |names| ::
              names[i] == r.value && forall j | 0 <= j < i :: !IsSpotifydName(names[j])
    ensures r.Some? ==> IsSpotifydName(r.value)
  {
    if names == [] then None
    else if IsSpotifydName(names[0]) then Some(names[0])
    else
      var r := FirstSpotifydName(names[1..]);
      assert r.Some? ==> exists i | 0 <= i < |names| ::
        names[i] == r.value && forall j | 0 <= j < i :: !IsSpotifydName(names[j]) by {
        if r.Some? {
          var i :| 0 <= i < |names| - 1 && names[1..][i] == r.value &&
                   forall j | 0 <= j < i :: !IsSpotifydName(names[1..][j]);
          assert forall j | 0 <= j < i + 1 :: !IsSpotifydName(names[j]) by {
            forall j | 0 <= j < i + 1 ensures !IsSpotifydName(names[j]) {
              if j > 0 {
                assert names[j] == names[1..][j - 1];
              }
            }
          }
        }
      }
      r
  }

  /** The next session after a name-owner notification for `busName`,
      given whether that name now has an owner: a session whose own name
      lost its owner ends; with no session, a spotifyd name that has an
      owner starts one; everything else leaves the session as it is. */
  function NextSession(current: Option<string>, busName: string, hasOwner: bool): (r: Option<string>)
    ensures r != current ==> IsSpotifydName(busName)
    ensures r != current ==> (r.None? <==> !hasOwner)
    ensures r.Some? ==> r == current || r == Some(busName)
    ensures current.Some? && current != Some(busName) ==> r == current
    ensures current == Some(busName) && IsSpotifydName(busName) && !hasOwner ==> r.None?
    ensures current.None? && IsSpotifydName(busName) && hasOwner ==> r == Some(busName)
  {
    if !IsSpotifydName(busName) then current
    else if current == Some(busName) && !hasOwner then None
    else if current.None? && hasOwner then Some(busName)
    else current
  }

  /** Repeating a notification with the same answer changes nothing more. */
  lemma NextSessionIdempotent(current: Option<string>, busName: string, hasOwner: bool)
    ensures var next := NextSession(current, busName, hasOwner);
            NextSession(next, busName, hasOwner) == next
  {
  }

  /** The callback registry, a dictionary shared by reference between the
      bus handler and every player session it creates. */
  class CallbackRegistry {
    var entries: map<string, Callback>

    constructor ()
      ensures entries == map[]
    {
      entries := map[];
    }
  }

  /** A session with one running spotifyd instance. */
  class SpotifydHandler {
    const busName: string
    const callbacks: CallbackRegistry
    /** Number of pause calls made on the player. */
    var pauses: nat

    constructor (busName: string, callbacks: CallbackRegistry)
      ensures this.busName == busName && this.callbacks == callbacks && pauses == 0
    {
      this.busName := busName;
      this.callbacks := callbacks;
      pauses := 0;
    }

    /** `_on_properties_changed`: calls, in order, the handler registered
        for each changed property that has one, with its new value. */
    method OnPropertiesChanged(changed: seq<(string, Variant)>) returns (invoked: seq<Invocation>)
      ensures invoked == Dispatch(callbacks.entries, changed)
    {
      invoked := [];
      for i := 0 to |changed|
        invariant invoked == Dispatch(callbacks.entries, changed[..i])
      {
        var (name, value) := changed[i];
        if name in callbacks.entries {
          invoked := invoked + [Invocation(callbacks.entries[name], value)];
        }
        assert changed[..i + 1] == changed[..i] + [changed[i]];
        DispatchAppend(callbacks.entries, changed[..i], [changed[i]]);
      }
      assert changed[..|changed|] == changed;
    }

    /** `send_command`: a pause becomes one pause call on the player. */
    method SendCommand(command: SpotifyCommand)
      modifies this`pauses
      ensures pauses == old(pauses) + 1
    {
      match command
      case Pause =>
        pauses := pauses + 1;
    }
  }

  /** The bus handler: the shared callback registry and the optional
      session with the current spotifyd instance. */
  class DbusHandler {
    const callbacks: CallbackRegistry
    var spotifyHandler: SpotifydHandler?

    /** A session shares the registry and is bound to a spotifyd name. */
    ghost predicate Valid()
      reads this, spotifyHandler
    {
      spotifyHandler != null ==>
        spotifyHandler.callbacks == callbacks && IsSpotifydName(spotifyHandler.busName)
    }

    /** The name the current session is bound to, if any. */
    ghost function Session(): Option<string>
      reads this, spotifyHandler
    {
      if spotifyHandler == null then None else Some(spotifyHandler.busName)
    }

    /** The scan of the names on the bus at startup. */
    static method FindSpotifyd(names: seq<string>) returns (found: Option<string>)
      ensures found == FirstSpotifydName(names)
    {
      found := None;
      var i := 0;
      while i < |names|
        invariant 0 <= i <= |names|
        invariant FirstSpotifydName(names) == FirstSpotifydName(names[i..])
      {
        assert names[i..][1..] == names[i + 1..];
        if IsSpotifydName(names[i]) {
          found := Some(names[i]);
          return;
        }
        i := i + 1;
      }
    }

    /** `create`: an empty registry, and a session with the first spotifyd
        name among those on the bus, if any. */
    constructor (names: seq<string>)
      ensures Valid() && fresh(callbacks) && callbacks.entries == map[]
      ensures Session() == FirstSpotifydName(names)
      ensures spotifyHandler != null ==> fresh(spotifyHandler) && spotifyHandler.pauses == 0
    {
      var registry := new CallbackRegistry();
      var found := FindSpotifyd(names);
      callbacks := registry;
      match found
      case None =>
        spotifyHandler := null;
      case Some(name) =>
        spotifyHandler := new SpotifydHandler(name, registry);
    }

    /** `_on_name_owner_changed`, with the bus's answer to whether
        `busName` has an owner given as `hasOwner`. */
    method OnNameOwnerChanged(busName: string, hasOwner: bool)
      requires Valid()
      modifies this`spotifyHandler
      ensures Valid()
      ensures Session() == NextSession(old(Session()), busName, hasOwner)
      ensures NextSession(old(Session()), busName, hasOwner) == old(Session()) ==> spotifyHandler == old(spotifyHandler)
      ensures spotifyHandler != old(spotifyHandler) && spotifyHandler != null ==>
                fresh(spotifyHandler) && spotifyHandler.pauses == 0
    {
      if !IsSpotifydName(busName) {
        return;
      }
      if spotifyHandler != null && spotifyHandler.busName == busName && !hasOwner {
        spotifyHandler := null;
      } else if spotifyHandler == null && hasOwner {
        spotifyHandler := new SpotifydHandler(busName, callbacks);
      }
    }

    /** `register_spotify_callback`: stores the handler under the event's
        property name, replacing any earlier one. */
    method RegisterSpotifyCallback(event: SpotifyEvent, handler: Callback)
      modifies callbacks
      ensures callbacks.entries == old(callbacks.entries)[event.Value() := handler]
    {
      callbacks.entries := callbacks.entries[event.Value() := handler];
    }

    /** `send_spotify_command`: without a session nothing happens; with one,
        the command reaches its player. */
    method SendSpotifyCommand(command: SpotifyCommand)
      modifies spotifyHandler
      ensures spotifyHandler == old(spotifyHandler)
      ensures spotifyHandler != null ==> spotifyHandler.pauses == old(spotifyHandler.pauses) + 1
    {
      if spotifyHandler == null {
        return;
      }
      spotifyHandler.SendCommand(command);
    }
  }

  /** The registry is shared with the session: a handler registered after
      the session was created is invoked by that session. */
  method LateRegistrationIsSeen(volume: real, handler: Callback) returns (invoked: seq<Invocation>)
    ensures invoked == [Invocation(handler, DoubleValue(volume))]
  {
    var bus := new DbusHandler([SpotifydPrefix + ".instance1"]);
    assert IsSpotifydName(SpotifydPrefix + ".instance1");
    var session := bus.spotifyHandler;
    bus.RegisterSpotifyCallback(Volume, handler);
    invoked := session.OnPropertiesChanged([("Volume", DoubleValue(volume)), ("Metadata", StringValue(""))]);
  }
}
