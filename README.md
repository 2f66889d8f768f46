# raspessence in Dafny

raspessence bridges a Spotify Connect player (spotifyd, reached over the
D-Bus session bus) and a Bang & Olufsen amplifier (a BeoMaster, reached
through a LinTronic serial interface). This project models its core and
proves properties of the model:

- `lintronic.dfy` (module `LinTronic`):
  - the serial frame codec: the `BeoCommand` table, the frame encoder and the validator for incoming frames;
  - the receive loop;
  - the `LinTronicConnection` class, with an append-only log of written frames and an input byte sequence read through a cursor.
- `dbus.dfy` (module `Dbus`):
  - presence tracking of the spotifyd instance: the optional player session, created by the startup scan and changed by name-owner notifications;
  - the shared callback registry;
  - dispatch of property-change notifications;
  - the pause command.
- `coordinator.dfy` (module `Coordinator`):
  - the event coordinator `MainHandler`, with its volume, playback-status, power-off and shutdown-timer handlers;
  - the coordinator's behaviour as pure state-machine functions (`OnVolume`, `OnPlayback`, `OnPowerOff`, `OnTimerFires`, `Run`), and the class's methods proved to follow those functions;
  - the shutdown timer, modelled as a single slot holding a generation-numbered timer. Arming a timer takes a fresh generation, so any earlier timer is superseded. `ShutdownTimer(gen)` is the explicit wake-up of the timer armed in generation `gen`.
- `webserver.dfy` (module `Webserver`): the bearer-token check of the HTTP power-off endpoint.
- `wrappers.dfy`: the `Option` type.

Bytes are integers in 0..255 and byte strings are `seq<Byte>`. Python's
slices with negative bounds are modelled by `PyPrefix` and `PySlice`.

The shutdown delays are the constants `FiveMinutes` and `FifteenMinutes`
(raspessence/main.py:20-21). They serve only as labels on the armed timer.

The command blobs (raspessence/lintronic.py:21-29) are 33 digits long, so
encoded frames are 48 bytes long.

## Model

| member | source | states |
|---|---|---|
| LinTronic.CommandValuesDistinct | raspessence/lintronic.py:20-29 | The nine commands have pairwise different byte values, so no enum member is an alias of another. |
| LinTronic.BeoCommand.Value | raspessence/lintronic.py:20-29 | Each of the nine commands maps to its own 33-digit blob, the constants `VolumeDownBlob` to `AudioPowerOffBlob`. Their distinctness is `CommandValuesDistinct`. |
| LinTronic.ThreeDigits | raspessence/lintronic.py:85 | For n < 1000 the repeat field is exactly three ASCII digits whose decimal value is n. For n < 256 the first digit is at most '2'. |
| LinTronic.ThreeDigitsInjective | raspessence/lintronic.py:85 | Different repeat counts give different three-digit fields. |
| LinTronic.DefaultRepeatCount | raspessence/lintronic.py:83-85 | The default repeat count 1 is sent as "001". |
| LinTronic.Checksum | raspessence/lintronic.py:94 | The checksum is three ASCII digits. They denote the byte sum of the message mod 256, in "000".."255". |
| LinTronic.Sum | raspessence/lintronic.py:73 | The byte sum of a message. Both the encoder (line 94) and the decoder use it for the checksum, through `Checksum`. |
| LinTronic.Frame | raspessence/lintronic.py:86-95 | The frame is 15 bytes longer than its payload. Byte 0 is '<' and the last byte is '>'. In between come the two addresses, the payload, the repeat count as three digits and "024", then the checksum of everything from the first address through "024". |
| LinTronic.EncodeFrame | raspessence/lintronic.py:82-95 | The frame is 15 + 33 = 48 bytes. Its layout is '<', "01", "00", the command blob, the repeat count as three digits, "024", then three digits for the byte sum of bytes 1..43 mod 256, then '>'. |
| LinTronic.FrameDelimiters | raspessence/lintronic.py:85-95 | Every byte strictly between '<' and '>' of an encoded frame is an ASCII digit. |
| LinTronic.FrameDigits | raspessence/lintronic.py:86-95 | For any digit addresses and digit payload, every byte of the frame between '<' and '>' is an ASCII digit. |
| LinTronic.PyPrefix | raspessence/lintronic.py:68 | Python's `t[:end]`: a prefix of t whose length is the end bound counted from the back when negative and clamped to 0..len(t), so `t[:-4]` drops the last four elements and is empty for shorter t. |
| LinTronic.PySlice | raspessence/lintronic.py:69 | Python's `t[start:end]`: with both bounds clamped to 0..len(t) (negative ones counted from the back), the result has the length between them, or is empty, and its i-th element is t's at the clamped start plus i. |
| LinTronic.FindByte | raspessence/lintronic.py:66 | The separator search of `readuntil`: the first position at or after the cursor that holds the byte, or none. |
| LinTronic.CheckFrame | raspessence/lintronic.py:68-80 | The checksum test either reports a mismatch or accepts with the command and `tail[:-4]` as data. With the code's checksum start -3 it always reports a mismatch. |
| LinTronic.Decode | raspessence/lintronic.py:51-80 | Each frame read advances the stream by at least two bytes. With a checksum start between -3 and -1 no frame is accepted. |
| LinTronic.Handle | raspessence/lintronic.py:51-80 | Each handled frame advances the stream by at least two bytes. As written, no frame is ever accepted: the accept branch is unreachable. |
| LinTronic.RejectsForeignDestination | raspessence/lintronic.py:53-56 | A frame whose first two bytes are not "00" is rejected after reading just those two bytes. |
| LinTronic.RejectsForeignSource | raspessence/lintronic.py:58-63 | A frame to "00" whose next two bytes are not "01" is rejected after reading those four bytes. |
| LinTronic.StopsInSource | raspessence/lintronic.py:58 | A frame to "00" whose stream ends inside the source address yields nothing. |
| LinTronic.HandleAfterAddresses | raspessence/lintronic.py:65-80 | With both addresses right, the frame yields nothing when the stream ends inside the command or before a '>'; otherwise its verdict is the checksum test on the command and the bytes up to the first '>', and the stream goes on after that '>'. |
| LinTronic.HandleComplete | raspessence/lintronic.py:65-80 | With both addresses right and the first '>' after the command at e, the verdict is the checksum test on the command and the bytes up to e. |
| LinTronic.ChecksumCoverage | raspessence/lintronic.py:65-78 | With the addresses right and the frame ending at the '>' at e, the frame is rejected. The expected checksum covers every byte from the destination up to the last three before '>', including the repeat count and suffix. Only the at most two bytes just before '>' are compared against it. When fewer than four bytes follow the command, the expected checksum covers just the addresses and the command. |
| LinTronic.CheckFrameCoverage | raspessence/lintronic.py:68-74 | The same two ranges for the checksum test on its own: expected over the stream from the destination to three bytes before '>', received from the at most two bytes before '>'. |
| LinTronic.EncodedFrameRejected | raspessence/lintronic.py:53-56 | A frame of our own encoder fed to the decoder is rejected at the destination check, because it is addressed to "01". |
| LinTronic.IntendedHandle | raspessence/lintronic.py:69 | Hypothetical, not the code: the decoder with the checksum slice `[-4:-1]`. Each frame it reads advances the stream by at least two bytes. |
| LinTronic.IntendedAccepts | raspessence/lintronic.py:65-80 | Hypothetical, not the code: any 43-byte message from "01" to "00" whose bytes after the command are digits, framed with its checksum, is accepted by the `[-4:-1]` decoder with its command and data. |
| LinTronic.IntendedComplete | raspessence/lintronic.py:53-69 | Hypothetical, not the code: with both addresses right and the first '>' after the command at e, the `[-4:-1]` decoder's verdict is its checksum test on the command and the bytes up to e. |
| LinTronic.IntendedCheckFrame | raspessence/lintronic.py:68-80 | Hypothetical, not the code: when the three bytes before '>' are the checksum of the stream from the destination up to them, the `[-4:-1]` test accepts. The data is everything between the command and those three bytes. |
| LinTronic.IntendedRoundTrip | raspessence/lintronic.py:68-74 | Hypothetical, not the code: with the checksum slice `[-4:-1]`, a frame from "01" to "00" is accepted and yields its command and data. |
| LinTronic.AsWrittenRejectsIntendedFrame | raspessence/lintronic.py:69-78 | The decoder as written rejects that same frame with a checksum mismatch. |
| LinTronic.Listen | raspessence/lintronic.py:46-49 | The receive loop logs at most one entry per three bytes of input. |
| LinTronic.ListenContinuesAfterFrame | raspessence/lintronic.py:46-49 | After any frame, rejected or not, the loop goes on with the bytes that follow it. |
| LinTronic.ListenStops | raspessence/lintronic.py:46-49 | The loop ends, logging nothing more, when no '<' is left or the stream ends inside a frame. |
| LinTronic.ListenNeverAccepts | raspessence/lintronic.py:46-80 | No entry the loop logs is an accepted command. |
| LinTronic.ListenSkipsNoise | raspessence/lintronic.py:48 | Bytes before the next '<' are discarded without changing what the loop logs. |
| LinTronic.ListenOwnFrame | raspessence/lintronic.py:46-56 | Our own frame echoed back gives exactly one log entry, a wrong-destination rejection. |
| LinTronic.LinTronicConnection.constructor | raspessence/lintronic.py:33-37 | A new connection has written nothing and reads its input from the start. |
| LinTronic.LinTronicConnection.WriteMessageToLintronic | raspessence/lintronic.py:82-99 | Exactly one frame, `EncodeFrame(cmd, repeatCount)`, is appended to the written log. |
| LinTronic.LinTronicConnection.ReadExactly | raspessence/lintronic.py:53 | Returns the next n bytes and advances the cursor by n. At end of stream it returns none and the cursor reaches the end. |
| LinTronic.LinTronicConnection.ReadUntil | raspessence/lintronic.py:66 | Returns the bytes up to and including the first separator and moves the cursor just past it. Without a separator it returns none at end of stream. |
| LinTronic.LinTronicConnection.HandleIncomingMessage | raspessence/lintronic.py:51-80 | Its result and the new cursor are those of `Handle` at the old cursor. |
| LinTronic.LinTronicConnection.CheckSource | raspessence/lintronic.py:58-80 | After the destination "00" was read, the result and the new cursor are those of `Handle` from the frame's start. |
| LinTronic.LinTronicConnection.CheckBody | raspessence/lintronic.py:65-80 | After both addresses were read and found right, the result and the new cursor are those of `Handle` from the frame's start. |
| LinTronic.LinTronicConnection.ReceiveNext | raspessence/lintronic.py:48-49 | One round of the loop: either the stream ends and nothing more is logged, or one frame's entry is logged and the rest follows from the new cursor. |
| LinTronic.LinTronicConnection.ListenForIncomingMessages | raspessence/lintronic.py:46-49 | Runs until the stream ends and logs exactly `Listen` of the input from the old cursor. |
| Dbus.EventValueInjective | raspessence/dbus.py:15-17 | "Volume" and "PlaybackStatus" name distinct events. |
| Dbus.SpotifyEvent.Value | raspessence/dbus.py:15-17 | Each event is registered under a non-empty property name, "Volume" or "PlaybackStatus". `EventValueInjective` shows they differ. |
| Dbus.IsSpotifydName | raspessence/dbus.py:100 | A bus name is a spotifyd name iff it is non-empty and starts with "org.mpris.MediaPlayer2.spotifyd". The same test guards the name-owner handler at line 115. |
| Dbus.CallbackRegistry.constructor | raspessence/dbus.py:97 | The callback registry starts empty. |
| Dbus.Dispatch | raspessence/dbus.py:56-58 | A notification invokes at most one handler per changed property. |
| Dbus.DispatchAppend | raspessence/dbus.py:56-58 | Handlers are invoked in the order the properties are listed: a concatenated list dispatches as one list after the other. |
| Dbus.DispatchAllRegistered | raspessence/dbus.py:56-58 | When every changed property has a handler, the i-th invocation calls the handler of the i-th property with its value. |
| Dbus.DispatchNoneRegistered | raspessence/dbus.py:56-58 | Properties without a handler are skipped; if none has one, nothing is invoked. |
| Dbus.FirstSpotifydName | raspessence/dbus.py:99-109 | Returns none iff no name is a non-empty "org.mpris.MediaPlayer2.spotifyd…" name. Otherwise it returns the first such name in list order. |
| Dbus.NextSession | raspessence/dbus.py:114-131 | The session changes only for a spotifyd name, and it becomes none exactly when that name has no owner. A session whose own name lost its owner ends. With no session, a spotifyd name that has an owner starts one. A session bound to another name is never replaced. |
| Dbus.NextSessionIdempotent | raspessence/dbus.py:114-131 | A repeated notification with the same owner answer changes nothing more. |
| Dbus.SpotifydHandler.constructor | raspessence/dbus.py:21-29 | A session is bound to its bus name, shares the registry it is given and has made no pause calls. |
| Dbus.SpotifydHandler.OnPropertiesChanged | raspessence/dbus.py:53-58 | The invocations made are exactly `Dispatch` over the registry as it is when the notification arrives. |
| Dbus.SpotifydHandler.SendCommand | raspessence/dbus.py:60-64 | A pause makes exactly one pause call on the player. |
| Dbus.DbusHandler.FindSpotifyd | raspessence/dbus.py:99-106 | The startup scan finds `FirstSpotifydName` of the listed names. |
| Dbus.DbusHandler.constructor | raspessence/dbus.py:97-109 | Starts with an empty registry. The session is bound to the first spotifyd name, or is none, and it shares the registry. |
| Dbus.DbusHandler.OnNameOwnerChanged | raspessence/dbus.py:114-131 | The session moves as `NextSession` says. When it does not move, the same session object is kept. A newly created session shares the registry and has made no calls. |
| Dbus.DbusHandler.RegisterSpotifyCallback | raspessence/dbus.py:133-136 | Stores the handler under the event's name and overwrites any previous one. The rest of the registry is unchanged. |
| Dbus.DbusHandler.SendSpotifyCommand | raspessence/dbus.py:138-144 | Without a session, no call is made. With one, the session's player gets exactly one pause call. |
| Dbus.LateRegistrationIsSeen | raspessence/dbus.py:97-103 | A handler registered after the session was created is invoked by that session, because the registry is shared by reference. |
| Coordinator.FramesAppend | raspessence/main.py:59-122 | The frames of two output lists run one after the other are the frames of the first followed by those of the second, so the written frames keep the order of the handlers' outputs. |
| Coordinator.ParseStatus | raspessence/main.py:81 | Parsing a string gives the status whose string it is, or none iff no status has that string. |
| Coordinator.ParseStatusRoundTrip | raspessence/main.py:24-28 | Every status parses back from its own string. |
| Coordinator.PlaybackStatus.Value | raspessence/main.py:24-28 | Each status has a non-empty status string ("Playing", "Paused", "Stopped", "Unknown"). `ParseStatus` inverts it, as `ParseStatusRoundTrip` shows. |
| Coordinator.Arm | raspessence/main.py:124-127 | Arming takes a new generation and leaves exactly one pending timer, the new one, with the given delay. |
| Coordinator.OnVolume | raspessence/main.py:59-74 | Emits exactly one command with repeat count 1. It is VOLUME_UP iff the new volume exceeds the last one, otherwise VOLUME_DOWN (equal volumes included). The volume is updated and nothing else changes. |
| Coordinator.OnPlayback | raspessence/main.py:76-109 | The current status's own string is a no-op. The volume is kept. At most one timer stays pending, and the generation never decreases. The only command it emits is at most one AUDIO_AUX. |
| Coordinator.PlaybackUnparseable | raspessence/main.py:80-85 | An unparseable string sets the status to Unknown, emits nothing and leaves the timer alone. |
| Coordinator.PlaybackToUnknown | raspessence/main.py:81-109 | The string "Unknown" parses to Unknown, which no case handles. It only records Unknown as the status: nothing is emitted and the timer is untouched. |
| Coordinator.PlaybackIdempotent | raspessence/main.py:76-85 | Delivering the same string twice in a row: the second delivery changes nothing and emits nothing. |
| Coordinator.PlaybackToPlaying | raspessence/main.py:89-93 | A change to Playing emits exactly AUDIO_AUX and leaves no timer pending. |
| Coordinator.PlaybackToPaused | raspessence/main.py:94-104 | A change to Paused emits AUDIO_AUX iff the previous status was Stopped, and nothing otherwise. It arms a 15-minute timer of a new generation. |
| Coordinator.PlaybackToStopped | raspessence/main.py:105-107 | A change to Stopped emits nothing and arms a 5-minute timer of a new generation. |
| Coordinator.OnPowerOff | raspessence/main.py:111-122 | Emits VOLUME_DOWN with repeat 10, then a pause request, then AUDIO_POWER_OFF. Afterwards the status is Paused, no timer is pending and the volume is unchanged. |
| Coordinator.PowerOffFrames | raspessence/main.py:111-122 | A power-off writes exactly two frames: VOLUME_DOWN with repeat 10, then AUDIO_POWER_OFF; the pause request writes none. |
| Coordinator.OnTimerFires | raspessence/main.py:129-142 | Only the pending timer's wake-up does anything, and it uses that timer up: no timer is pending afterwards. It emits AUDIO_POWER_OFF iff the status is Paused or Stopped, otherwise nothing. It never changes the state. |
| Coordinator.TimerFiresOnce | raspessence/main.py:129-142 | A timer wakes at most once. A second wake-up with the same generation emits nothing and changes nothing. |
| Coordinator.Cancel | raspessence/main.py:121-122 | Cancelling leaves no timer pending and keeps the state and the generation. `OnPowerOff` uses it here, `OnPlayback` uses it for Playing (lines 92-93), and `OnTimerFires` uses it on the pending wake-up. Re-arming (lines 125-127) is `Arm`, which replaces the pending timer outright. |
| Coordinator.OnEvent | raspessence/main.py:59-142 | No handler lowers the generation or leaves a timer other than the last armed one pending. |
| Coordinator.SupersededTimerNeverEmits | raspessence/main.py:124-127 | A timer older than the last armed one stays superseded after any sequence of events, and its wake-up changes nothing and emits nothing. |
| Coordinator.ArmingSupersedes | raspessence/main.py:124-127 | After a new timer is armed, the previous one never emits, whatever happens next. |
| Coordinator.PlayPauseTimeout | raspessence/main.py:88-142 | From the initial state, "Playing", then "Paused", then the timer's wake-up emit AUDIO_AUX and then AUDIO_POWER_OFF. |
| Coordinator.PlayPauseTimeoutFrames | raspessence/main.py:88-142 | In that scenario, "Playing" writes the AUDIO_AUX frame, "Paused" writes nothing, and the wake-up writes the AUDIO_POWER_OFF frame. |
| Coordinator.MainHandler.constructor | raspessence/main.py:31-42 | Starts with volume 0.5, status Unknown and no pending timer. |
| Coordinator.MainHandler.Emit | raspessence/main.py:65-72 | One call of `write_message_to_lintronic` appends exactly the encoded frame of the command. |
| Coordinator.MainHandler.VolumeHandler | raspessence/main.py:59-74 | The new fields are `OnVolume`'s next state, and the frames written are its outputs. |
| Coordinator.MainHandler.PlaybackHandler | raspessence/main.py:76-109 | The new fields are `OnPlayback`'s next state, and the frames written are its outputs. |
| Coordinator.MainHandler.PowerOffHandler | raspessence/main.py:111-122 | The new fields are `OnPowerOff`'s next state. The two frames are written, and the session, if any, gets exactly one pause call. |
| Coordinator.MainHandler.StartShutdownTimer | raspessence/main.py:124-127 | The timer slot and generation become those of `Arm`. |
| Coordinator.MainHandler.ShutdownTimer | raspessence/main.py:129-142 | The new fields are `OnTimerFires`'s next state, and the frames written are its outputs. |
| Coordinator.MainHandler.OffRequest | raspessence/webserver.py:12-21 | The answer is `Authorize`'s status. With 200, the power-off ran once: the fields and frames follow `OnPowerOff`, and the session, if any, gets exactly one pause call. With 401, nothing changed. |
| Coordinator.PresencePlayPauseTimeout | raspessence/dbus.py:127-131 | spotifyd appears and a session is created. Then "Playing", "Paused" and the timer's wake-up put AUDIO_AUX and then AUDIO_POWER_OFF on the serial line. |
| Webserver.Authorize | raspessence/webserver.py:12-21 | The result is either 401 with no callback or one callback then 200. A missing or empty header, or one not starting with "Bearer ", gives 401. The callback runs iff the header is exactly "Bearer " followed by the secret. |
| Webserver.WrongTokenRejected | raspessence/webserver.py:17-18 | A well-formed header with any other token gives 401 and no callback. |

## Left out

- Opening the serial port (raspessence/lintronic.py:39-44) and the writer's `drain`. The outbound link is the log of written frames; the inbound link is a fixed byte sequence with a cursor.
- End of the inbound stream: `readexactly` and `readuntil` raise an incomplete-read error there. The model consumes what is left and returns none, and the receive loop ends there. What the exception then does to the rest of the process is not modelled.
- The reader's buffer limit: `readuntil` fails when no separator appears within its limit. This is not modelled.
- Logging. Each log line of the decoder is modelled as the `Received` value it reports.
- LinTronic.LinTronicConnection.WriteMessageToLintronic: repeat counts of 1000 or more are excluded by a precondition, because Python would format them with more than three characters. Negative counts cannot be expressed.
- Everything about the bus connection: connecting, introspection, proxies and signal subscription (raspessence/dbus.py:31-51, raspessence/dbus.py:82-95, raspessence/dbus.py:111). The list of names and the `NameHasOwner` answer are parameters. The player's pause call is counted in `pauses`.
- Dbus.Variant: only double and string property values are modelled. The interface name and the invalidated properties of a notification are ignored, as the code ignores them.
- The handlers in the registry are opaque tokens (`Callback`). Running an invoked handler is modelled separately, by the coordinator's methods. The registration in `MainHandler.create` (raspessence/main.py:44-54) is not modelled.
- Values of the wrong type handed to a handler are not modelled. In Python, a string volume raises in the comparison, and a non-string status takes the unparseable path.
- asyncio scheduling is not modelled: task creation, `cancel()`, real sleep durations (including the one-second pause in the power-off handler), and interleavings at await points. Handlers run one at a time. The timer slot with generations and the explicit wake-up step stand in for the timer task.
- Coordinator.MainHandler.PowerOffHandler: states the frames written and the session's pause count separately. The order of the pause between the two frames is stated only by `Coordinator.OnPowerOff`'s outputs.
- The unreachable `NotImplementedError` branch of `send_command` (raspessence/dbus.py:63-64): `SpotifyCommand` has only `PAUSE`.
- Volume is a `real`; floating-point representation is not modelled. Only the `>` comparison matters.
- The aiohttp application, route and site (raspessence/webserver.py:23-28) are not modelled.
- Webserver.Authorize: compares plain strings and does not model the constant-time behaviour of `compare_digest`. Comparing the UTF-8 encodings of two strings gives the same answer as comparing the strings.
- Process start-up (raspessence/main.py:145-162): the environment variable, the serial device path and the event-loop runner. `MainHandler.wait` is also left out.

## Findings

| source | as written | input that shows it | evidently intended | confidence | as-written member | corrected member |
|---|---|---|---|---|---|---|
| raspessence/lintronic.py:69 | `data_and_checksum[-3:-1]` takes the two bytes before '>' as the checksum and compares them with a three-digit value, so every frame fails the check and the accept branch at :80 is dead | `Frame(OurAddress, LintronicAddress, AudioAux blob, 1)`: a well-formed frame from the amplifier with a correct checksum | `data_and_checksum[-4:-1]`, the three checksum digits | high (not executed) | LinTronic.AsWrittenRejectsIntendedFrame | LinTronic.IntendedRoundTrip |

The receive loop (`Listen`, `HandleIncomingMessage`) deliberately keeps the
as-written decoder `Handle`, so that it models the code as it runs.
`IntendedHandle` is the corrected decoder. The round trip is proved about
it, and nothing else depends on it.
