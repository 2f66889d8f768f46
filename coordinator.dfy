/** The event coordinator: turns player events (volume, playback status),
    the power-off request and the shutdown timer into amplifier commands.
    The pure functions below are the state machine; the `MainHandler` class
    keeps that state in its fields and is proved to follow it. */
module Coordinator {
  import opened Wrappers
  import opened LinTronic
  import Dbus
  import Webserver

  /** The player's playback status as the coordinator tracks it. */
  datatype PlaybackStatus = Playing | Paused | Stopped | Unknown
  {
    /** The status string the player reports for this status. */
    function Value(): (r: string)
      ensures |r| > 0
    {
      match this
      case Playing => "Playing"
      case Paused => "Paused"
      case Stopped => "Stopped"
      case Unknown => "Unknown"
    }
  }

  /** `PlaybackStatus(s)`: the status whose string is s; None where Python
      raises ValueError. */
  function ParseStatus(s: string): (r: Option<PlaybackStatus>)
    ensures r.Some? ==> r.value.Value() == s
    ensures r.None? <==> forall st: PlaybackStatus :: st.Value() != s
  {
    if s == "Playing" then Some(Playing)
    else if s == "Paused" then Some(Paused)
    else if s == "Stopped" then Some(Stopped)
    else if s == "Unknown" then Some(Unknown)
    else None
  }

  /** Every status parses back from its own string. */
  lemma ParseStatusRoundTrip(st: PlaybackStatus)
    ensures ParseStatus(st.Value()) == Some(st)
  {
  }

  /** The shutdown delays, in minutes. */
  const FiveMinutes: nat := 5
  const FifteenMinutes: nat := 15

  /** The volume and playback status last reported by the player. */
  datatype State = State(lastKnownVolume: real, lastKnownPlaybackStatus: PlaybackStatus)

  /** A pending shutdown timer: the generation it was armed in and its delay. */
  datatype Timer = Timer(generation: nat, minutes: nat)

  /** Everything the coordinator's behaviour depends on: the state, the
      single timer slot and the number of timers armed so far. */
  datatype Machine = Machine(state: State, timer: Option<Timer>, generation: nat)

  /** A pending timer is always the one armed last. */
  ghost predicate WellFormed(m: Machine)
  {
    m.timer.Some? ==> m.timer.value.generation == m.generation
  }

  /** The state a freshly constructed coordinator starts in. */
  const Initial := Machine(State(0.5, Unknown), None, 0)

  /** Repeat counts the encoder can format in three digits. */
  type RepeatCount = n: nat | n < 1000

  /** One effect of a handler, in the order the handler performs them. */
  datatype Output =
    | Send(cmd: BeoCommand, repeatCount: RepeatCount)
    | RequestPause

  /** The state after a handler and what it did, in order. */
  datatype Transition = Transition(next: Machine, outputs: seq<Output>)

  /** The frames the amplifier receives for a list of outputs. */
  function Frames(outputs: seq<Output>): (r: seq<seq<Byte>>)
    ensures |r| <= |outputs|
  {
    if outputs == [] then [] else OutputFrames(outputs[0]) + Frames(outputs[1..])
  }

  /** The frames one output puts on the serial line: one for a command,
      none for a pause request. */
  function OutputFrames(o: Output): (r: seq<seq<Byte>>)
    ensures |r| <= 1
  {
    match o
    case Send(cmd, repeatCount) => [EncodeFrame(cmd, repeatCount)]
    case RequestPause => []
  }

  /** The frames of outputs run one after the other are the frames of
      each run, in order. */
  lemma {:induction false} FramesAppend(a: seq<Output>, b: seq<Output>)
    ensures Frames(a + b) == Frames(a) + Frames(b)
  {
    if a == [] {
      assert a + b == b;
    } else {
      assert (a + b)[0] == a[0] && (a + b)[1..] == a[1..] + b;
      FramesAppend(a[1..], b);
      AppendAssoc(OutputFrames(a[0]), Frames(a[1..]), Frames(b));
    }
  }

  /** Concatenation is associative. */
  lemma AppendAssoc<T>(x: seq<T>, y: seq<T>, z: seq<T>)
    ensures x + (y + z) == (x + y) + z
  {
  }

  /** Cancels the pending timer, if any. */
  function Cancel(m: Machine): (r: Machine)
    ensures r.timer.None? && r.state == m.state && r.generation == m.generation
    ensures WellFormed(r)
  {
    m.(timer := None)
  }

  /** `start_shutdown_timer`: cancels the pending timer and arms a new one,
      of a new generation. */
  function Arm(m: Machine, minutes: nat): (r: Machine)
    ensures r.state == m.state && r.generation == m.generation + 1
    ensures r.timer.Some? && r.timer.value.minutes == minutes && WellFormed(r)
  {
    m.(timer := Some(Timer(m.generation + 1, minutes)), generation := m.generation + 1)
  }

  /** `volume_handler`. */
  function OnVolume(m: Machine, volume: real): (t: Transition)
    ensures |t.outputs| == 1 && t.outputs[0].Send? && t.outputs[0].repeatCount == 1
    ensures t.outputs[0].cmd == VolumeUp <==> volume > m.state.lastKnownVolume
    ensures t.outputs[0].cmd == VolumeUp || t.outputs[0].cmd == VolumeDown
    ensures t.next.state.lastKnownVolume == volume
    ensures t.next.state.lastKnownPlaybackStatus == m.state.lastKnownPlaybackStatus
    ensures t.next.timer == m.timer && t.next.generation == m.generation
  {
    var cmd := if volume > m.state.lastKnownVolume then VolumeUp else VolumeDown;
    Transition(m.(state := m.state.(lastKnownVolume := volume)), [Send(cmd, 1)])
  }

  /** `playback_handler`. */
  function OnPlayback(m: Machine, status: string): (t: Transition)
    ensures status == m.state.lastKnownPlaybackStatus.Value() ==> t == Transition(m, [])
    ensures t.next.state.lastKnownVolume == m.state.lastKnownVolume
    ensures t.next.generation >= m.generation
    ensures WellFormed(m) ==> WellFormed(t.next)
    ensures forall i | 0 <= i < |t.outputs| :: t.outputs[i] == Send(AudioAux, 1)
    ensures |t.outputs| <= 1
  {
    if status == m.state.lastKnownPlaybackStatus.Value() then Transition(m, [])
    else match ParseStatus(status)
      case None => Transition(m.(state := m.state.(lastKnownPlaybackStatus := Unknown)), [])
      case Some(parsed) =>
        var after: Transition := match parsed
          case Playing => Transition(Cancel(m), [Send(AudioAux, 1)])
          case Paused =>
            var wake := if m.state.lastKnownPlaybackStatus == Stopped then [Send(AudioAux, 1)] else [];
            Transition(Arm(m, FifteenMinutes), wake)
          case Stopped => Transition(Arm(m, FiveMinutes), [])
          case Unknown => Transition(m, []);
        Transition(after.next.(state := after.next.state.(lastKnownPlaybackStatus := parsed)), after.outputs)
  }

  /** An unparseable status (other than the current one) sets the status to
      Unknown and does nothing else: no command, timer untouched. */
  lemma PlaybackUnparseable(m: Machine, status: string)
    requires ParseStatus(status).None?
    ensures OnPlayback(m, status) == Transition(m.(state := m.state.(lastKnownPlaybackStatus := Unknown)), [])
  {
    assert status != m.state.lastKnownPlaybackStatus.Value();
  }

  /** Delivering the same status string twice in a row: the second delivery
      changes nothing and emits nothing. */
  lemma PlaybackIdempotent(m: Machine, status: string)
    ensures var first := OnPlayback(m, status);
            OnPlayback(first.next, status) == Transition(first.next, [])
  {
    if status != m.state.lastKnownPlaybackStatus.Value() && ParseStatus(status).None? {
      PlaybackUnparseable(m, status);
      PlaybackUnparseable(OnPlayback(m, status).next, status);
    }
  }

  /** A change to Playing emits exactly AUDIO_AUX and leaves no timer
      pending. */
  lemma PlaybackToPlaying(m: Machine)
    requires m.state.lastKnownPlaybackStatus != Playing
    ensures var t := OnPlayback(m, "Playing");
            t.outputs == [Send(AudioAux, 1)] && t.next.timer.None? &&
            t.next.state.lastKnownPlaybackStatus == Playing
  {
  }

  /** A change to Paused wakes the amplifier (AUDIO_AUX) exactly when the
      player was Stopped, and arms a 15-minute timer. */
  lemma PlaybackToPaused(m: Machine)
    requires m.state.lastKnownPlaybackStatus != Paused
    ensures var t := OnPlayback(m, "Paused");
            (t.outputs == [Send(AudioAux, 1)] <==> m.state.lastKnownPlaybackStatus == Stopped) &&
            (t.outputs == [] <==> m.state.lastKnownPlaybackStatus != Stopped) &&
            t.next.timer == Some(Timer(m.generation + 1, FifteenMinutes)) &&
            t.next.state.lastKnownPlaybackStatus == Paused
  {
  }

  /** A change to "Unknown", which parses but has no handling case, sets
      the status to Unknown and does nothing else: no command, timer
      untouched. */
  lemma PlaybackToUnknown(m: Machine)
    requires m.state.lastKnownPlaybackStatus != Unknown
    ensures OnPlayback(m, "Unknown") == Transition(m.(state := m.state.(lastKnownPlaybackStatus := Unknown)), [])
  {
  }

  /** A change to Stopped emits nothing and arms a 5-minute timer. */
  lemma PlaybackToStopped(m: Machine)
    requires m.state.lastKnownPlaybackStatus != Stopped
    ensures var t := OnPlayback(m, "Stopped");
            t.outputs == [] && t.next.timer == Some(Timer(m.generation + 1, FiveMinutes)) &&
            t.next.state.lastKnownPlaybackStatus == Stopped
  {
  }

  /** `power_off_handler`: turn the volume down ten steps, ask the player
      to pause, power the amplifier off; the status becomes Paused and no
      timer is left pending. */
  function OnPowerOff(m: Machine): (t: Transition)
    ensures t.outputs == [Send(VolumeDown, 10), RequestPause, Send(AudioPowerOff, 1)]
    ensures t.next == Machine(m.state.(lastKnownPlaybackStatus := Paused), None, m.generation)
  {
    Transition(Cancel(m).(state := m.state.(lastKnownPlaybackStatus := Paused)),
               [Send(VolumeDown, 10), RequestPause, Send(AudioPowerOff, 1)])
  }

  /** `shutdown_timer` waking up for the timer of generation `gen`: only the
      pending timer wakes (a cancelled or superseded one never does), and it
      powers the amplifier off only if the player is Paused or Stopped. */
  function OnTimerFires(m: Machine, gen: nat): (t: Transition)
    ensures m.timer.None? || m.timer.value.generation != gen ==> t == Transition(m, [])
    ensures t.next.state == m.state && t.next.generation == m.generation
    ensures WellFormed(m) ==> WellFormed(t.next)
    ensures t.outputs == [Send(AudioPowerOff, 1)] <==>
              m.timer.Some? && m.timer.value.generation == gen &&
              (m.state.lastKnownPlaybackStatus == Paused || m.state.lastKnownPlaybackStatus == Stopped)
    ensures t.outputs != [] ==> t.outputs == [Send(AudioPowerOff, 1)]
    ensures m.timer.Some? && m.timer.value.generation == gen ==> t.next.timer.None?
  {
    if m.timer.None? || m.timer.value.generation != gen then Transition(m, [])
    else
      var status := m.state.lastKnownPlaybackStatus;
      if status != Paused && status != Stopped then Transition(Cancel(m), [])
      else Transition(Cancel(m), [Send(AudioPowerOff, 1)])
  }

  /** The frames a power-off puts on the serial line: the volume-down
      burst, then the power-off command; the pause request adds none. */
  lemma PowerOffFrames(m: Machine)
    ensures Frames(OnPowerOff(m).outputs) == [EncodeFrame(VolumeDown, 10), EncodeFrame(AudioPowerOff, 1)]
  {
    var outputs := [Send(VolumeDown, 10), RequestPause, Send(AudioPowerOff, 1)];
    assert outputs[1..][1..] == [Send(AudioPowerOff, 1)];
  }

  /** A timer wakes at most once: its second wake-up emits nothing and
      changes nothing. */
  lemma TimerFiresOnce(m: Machine, gen: nat)
    ensures var first := OnTimerFires(m, gen);
            OnTimerFires(first.next, gen) == Transition(first.next, [])
  {
  }

  /** The events the coordinator reacts to, one at a time. */
  datatype Event =
    | VolumeChanged(volume: real)
    | StatusChanged(status: string)
    | PowerOffRequested
    | TimerWokeUp(gen: nat)

  /** One event. */
  function OnEvent(m: Machine, e: Event): (t: Transition)
    ensures t.next.generation >= m.generation
    ensures WellFormed(m) ==> WellFormed(t.next)
  {
    match e
    case VolumeChanged(v) => OnVolume(m, v)
    case StatusChanged(s) => OnPlayback(m, s)
    case PowerOffRequested => OnPowerOff(m)
    case TimerWokeUp(g) => OnTimerFires(m, g)
  }

  /** Events handled one after another, outputs concatenated in order. */
  function Run(m: Machine, events: seq<Event>): (t: Transition)
    decreases |events|
  {
    if events == [] then Transition(m, [])
    else
      var first := OnEvent(m, events[0]);
      var rest := Run(first.next, events[1..]);
      Transition(rest.next, first.outputs + rest.outputs)
  }

  /** Once a timer has been superseded by a newer one, it stays superseded
      whatever happens next: when it wakes it emits nothing and changes
      nothing. */
  lemma {:induction false} SupersededTimerNeverEmits(m: Machine, events: seq<Event>, gen: nat)
    requires WellFormed(m) && gen < m.generation
    ensures var end := Run(m, events).next;
            WellFormed(end) && gen < end.generation &&
            OnTimerFires(end, gen) == Transition(end, [])
    decreases |events|
  {
    if events != [] {
      SupersededTimerNeverEmits(OnEvent(m, events[0]).next, events[1..], gen);
    }
  }

  /** Arming a second timer before the first fires: the first one's wake-up
      is a no-op, now and after any later events. */
  lemma ArmingSupersedes(m: Machine, minutes: nat, events: seq<Event>)
    requires WellFormed(m) && m.timer.Some?
    ensures var end := Run(Arm(m, minutes), events).next;
            OnTimerFires(end, m.timer.value.generation) == Transition(end, [])
  {
    SupersededTimerNeverEmits(Arm(m, minutes), events, m.timer.value.generation);
  }

  /** From the initial state: "Playing", then "Paused", then the 15-minute
      timer wakes with the player still paused: AUDIO_AUX on Playing,
      nothing on Paused, AUDIO_POWER_OFF on the timer. */
  lemma PlayPauseTimeout()
    ensures Run(Initial, [StatusChanged("Playing"), StatusChanged("Paused"), TimerWokeUp(1)]).outputs ==
              [Send(AudioAux, 1), Send(AudioPowerOff, 1)]
  {
    var events := [StatusChanged("Playing"), StatusChanged("Paused"), TimerWokeUp(1)];
    var m1 := OnPlayback(Initial, "Playing").next;
    PlaybackToPlaying(Initial);
    PlaybackToPaused(m1);
    var m2 := OnPlayback(m1, "Paused").next;
    assert events[1..] == [StatusChanged("Paused"), TimerWokeUp(1)];
    assert events[1..][1..] == [TimerWokeUp(1)];
    assert Run(m2, [TimerWokeUp(1)]).outputs == [Send(AudioPowerOff, 1)];
  }

  /** The frames of each step of the scenario above: AUDIO_AUX, none,
      AUDIO_POWER_OFF. */
  lemma PlayPauseTimeoutFrames()
    ensures var t1 := OnPlayback(Initial, "Playing");
            var t2 := OnPlayback(t1.next, "Paused");
            var t3 := OnTimerFires(t2.next, 1);
            Frames(t1.outputs) == [EncodeFrame(AudioAux, 1)] && Frames(t2.outputs) == [] &&
            Frames(t3.outputs) == [EncodeFrame(AudioPowerOff, 1)]
  {
    PlaybackToPlaying(Initial);
    PlaybackToPaused(OnPlayback(Initial, "Playing").next);
  }

  /** `MainHandler`: the serial connection, the bus handler, the state and
      the shutdown timer slot. */
  class MainHandler {
    const ltc: LinTronicConnection
    const dbusHandler: Dbus.DbusHandler
    var state: State
    var shutdownTimer: Option<Timer>
    var generation: nat

    /** The fields as a state-machine value. */
    ghost function Current(): Machine
      reads this
    {
      Machine(state, shutdownTimer, generation)
    }

    ghost predicate Valid()
      reads this
    {
      WellFormed(Current())
    }

    constructor (ltc: LinTronicConnection, dbusHandler: Dbus.DbusHandler)
      ensures Valid() && Current() == Initial
      ensures this.ltc == ltc && this.dbusHandler == dbusHandler
    {
      this.ltc := ltc;
      this.dbusHandler := dbusHandler;
      shutdownTimer := None;
      state := State(0.5, Unknown);
      generation := 0;
    }

    /** Writes one command to the amplifier. */
    method Emit(cmd: BeoCommand, repeatCount: RepeatCount)
      modifies ltc`sent
      ensures ltc.sent == old(ltc.sent) + [EncodeFrame(cmd, repeatCount)]
    {
      ltc.WriteMessageToLintronic(cmd, repeatCount);
    }

    /** `volume_handler`. */
    method VolumeHandler(volume: real)
      requires Valid()
      modifies this`state, ltc`sent
      ensures Valid() && Current() == OnVolume(old(Current()), volume).next
      ensures ltc.sent == old(ltc.sent) + Frames(OnVolume(old(Current()), volume).outputs)
    {
      if volume > state.lastKnownVolume {
        Emit(VolumeUp, 1);
      } else {
        Emit(VolumeDown, 1);
      }
      state := state.(lastKnownVolume := volume);
    }

    /** `playback_handler`. */
    method PlaybackHandler(status: string)
      requires Valid()
      modifies this, ltc`sent
      ensures Valid() && Current() == OnPlayback(old(Current()), status).next
      ensures ltc.sent == old(ltc.sent) + Frames(OnPlayback(old(Current()), status).outputs)
    {
      if status == state.lastKnownPlaybackStatus.Value() {
        return;
      }
      var parsed := ParseStatus(status);
      if parsed.None? {
        state := state.(lastKnownPlaybackStatus := Unknown);
        return;
      }
      var playbackStatus := parsed.value;
      match playbackStatus {
        case Playing =>
          Emit(AudioAux, 1);
          if shutdownTimer.Some? {
            shutdownTimer := None;
          }
        case Paused =>
          if state.lastKnownPlaybackStatus == Stopped {
            Emit(AudioAux, 1);
          }
          StartShutdownTimer(FifteenMinutes);
        case Stopped =>
          StartShutdownTimer(FiveMinutes);
        case Unknown =>
      }
      state := state.(lastKnownPlaybackStatus := playbackStatus);
    }

    /** `power_off_handler`; the one-second settling delay is not modelled. */
    method PowerOffHandler()
      requires Valid()
      modifies this`state, this`shutdownTimer, ltc`sent, dbusHandler.spotifyHandler
      ensures Valid() && Current() == OnPowerOff(old(Current())).next
      ensures ltc.sent == old(ltc.sent) + Frames(OnPowerOff(old(Current())).outputs)
      ensures dbusHandler.spotifyHandler == old(dbusHandler.spotifyHandler)
      ensures dbusHandler.spotifyHandler != null ==>
                dbusHandler.spotifyHandler.pauses == old(dbusHandler.spotifyHandler.pauses) + 1
    {
      Emit(VolumeDown, 10);
      dbusHandler.SendSpotifyCommand(Dbus.Pause);
      Emit(AudioPowerOff, 1);
      state := state.(lastKnownPlaybackStatus := Paused);
      if shutdownTimer.Some? {
        shutdownTimer := None;
      }
      PowerOffFrames(old(Current()));
    }

    /** A request to the power-off endpoint: with the right bearer token the
        power-off runs once and the answer is 200; otherwise the answer is
        401 and nothing changes. */
    method OffRequest(authHeader: Option<string>, secret: string) returns (status: int)
      requires Valid()
      modifies this`state, this`shutdownTimer, ltc`sent, dbusHandler.spotifyHandler
      ensures Valid()
      ensures status == Webserver.Authorize(authHeader, secret).status
      ensures status == 200 ==> Current() == OnPowerOff(old(Current())).next &&
                                ltc.sent == old(ltc.sent) + Frames(OnPowerOff(old(Current())).outputs)
      ensures dbusHandler.spotifyHandler == old(dbusHandler.spotifyHandler)
      ensures status == 200 && dbusHandler.spotifyHandler != null ==>
                dbusHandler.spotifyHandler.pauses == old(dbusHandler.spotifyHandler.pauses) + 1
      ensures status != 200 ==> Current() == old(Current()) && ltc.sent == old(ltc.sent) &&
                                (dbusHandler.spotifyHandler != null ==>
                                   dbusHandler.spotifyHandler.pauses == old(dbusHandler.spotifyHandler.pauses))
    {
      var outcome := Webserver.Authorize(authHeader, secret);
      if outcome.callbackCalls == 1 {
        PowerOffHandler();
      }
      status := outcome.status;
    }

    /** `start_shutdown_timer`: cancel the pending timer, arm a new one. */
    method StartShutdownTimer(minutes: nat)
      modifies this`shutdownTimer, this`generation
      ensures Current() == Arm(old(Current()), minutes)
    {
      if shutdownTimer.Some? {
        shutdownTimer := None;
      }
      generation := generation + 1;
      shutdownTimer := Some(Timer(generation, minutes));
    }

    /** `shutdown_timer` after its sleep, for the timer of generation `gen`. */
    method ShutdownTimer(gen: nat)
      requires Valid()
      modifies this`shutdownTimer, ltc`sent
      ensures Valid() && Current() == OnTimerFires(old(Current()), gen).next
      ensures ltc.sent == old(ltc.sent) + Frames(OnTimerFires(old(Current()), gen).outputs)
    {
      if shutdownTimer.None? || shutdownTimer.value.generation != gen {
        return;
      }
      shutdownTimer := None;
      var status := state.lastKnownPlaybackStatus;
      if status != Paused && status != Stopped {
        return;
      }
      Emit(AudioPowerOff, 1);
    }
  }

  /** The whole system in one run: spotifyd appears on the bus, then reports
      "Playing", then "Paused", then the 15-minute timer wakes. A session is
      created and the amplifier receives AUDIO_AUX and then AUDIO_POWER_OFF. */
  method PresencePlayPauseTimeout() returns (sessionCreated: bool, sent: seq<seq<Byte>>)
    ensures sessionCreated
    ensures sent == [EncodeFrame(AudioAux, 1), EncodeFrame(AudioPowerOff, 1)]
  {
    var ltc := new LinTronicConnection([]);
    var bus := new Dbus.DbusHandler([]);
    var name := Dbus.SpotifydPrefix + ".instance1";
    assert Dbus.IsSpotifydName(name);
    bus.OnNameOwnerChanged(name, true);
    sessionCreated := bus.spotifyHandler != null;
    var main := new MainHandler(ltc, bus);
    PlayPauseTimeoutFrames();
    main.PlaybackHandler("Playing");
    main.PlaybackHandler("Paused");
    main.ShutdownTimer(1);
    sent := ltc.sent;
  }
}
