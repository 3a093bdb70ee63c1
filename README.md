# Telemetry supervision core, in Dafny

This project models the deterministic logic of a Blazor supervision application, which
exchanges telemetry with a simulator over UDP. The parts it models are:

- **The telemetry packet** (`UdpPacketData`): a packed record of an `int`, two `double`s, an
  `int` and a `double`, 32 bytes on the wire. The doubles are 64-bit patterns. Byte order is
  little-endian. (`bytes.dfy`, `packet.dfy`)
- **The sender** (`UdpSenderService`):
  - it serialises the packet into a fresh 32-byte array;
  - it picks the endpoint: a literal address as written, otherwise the first IPv4 result of name
    resolution, otherwise the first result, and an error when there is none;
  - it sends once, with one loopback-bound retry when the network reports the host or network
    unreachable and the destination was a literal address.

  Name resolution, the literal-address parse and the outcome of each send are inputs.
  (`net.dfy`, `sender.dfy`)
- **The listener** (`UdpListenerService`):
  - a start/stop state machine over the socket field and its `CancellationTokenSource`;
  - the receive loop over a sequence of receive results, which delivers the decodes of the
    buffers of at least 32 bytes and stops only on `OperationCanceledException`;
  - the decoding of a buffer, which reads its first 32 bytes.

  (`listener.dfy`)
- **The Supervision page**:
  - eleven symbol records (`symbols.dfy`);
  - the packet-arrival handler and the comm-loss watchdog. Loss is entered on a timer tick more
    than 3 s after the last packet and cleared at once by the next packet. Only changes are
    propagated to the symbols;
  - selection, the alarm setters and getters, the toggles and the settings dialog.

  Time is the DateTime tick count (100 ns) given to each callback. (`supervision.dfy`)
- **CompassService**: the heading is normalised into [0, 360) using C#'s truncated `%` followed
  by a correction for negatives. (`compass.dfy`)
- **SimulationService**: motor speed and tank level take random steps clamped to [0, 100], a
  valve toggles one time in fifty, and the alarm is derived from the new speed. The random draws
  are parameters. (`simulation_service.dfy`)
- **SymbolWrapper**: the `??` fallbacks between a bound symbol and the wrapper's own
  parameters, and the three CSS builders. Doubles are rendered by an abstract formatter.
  (`symbol_wrapper.dfy`, with decimal `int` text in `text.dfy`)
- **The Simulation page**: `GetColor` thresholds, the packet the form builds, and the status
  text after a send. (`simulation_page.dfy`)

Three facts about the listener shape the model:

- `IUdpListenerService.StartListening` takes only a port; nothing joins a multicast group.
  Supervision's two-argument call has no counterpart in the listener.
- `StopListening` does not wait for the loop to finish.
- `Dispose` leaves the disposed token source in its field (see Findings).

## Model

| member | source | states |
|---|---|---|
| Bytes.Int32ToBits | Models/UdpPacketData.cs:12 | an `int` field is stored as its 32-bit two's-complement pattern: below 2^32, congruent to the value mod 2^32, top bit set iff negative |
| Bytes.FromToLittleEndian | Services/UdpSenderService.cs:104 | reading back the n-byte little-endian image of a number below 256^n gives the number |
| Bytes.ToFromLittleEndian | Services/UdpListenerService.cs:91 | the image of the number a byte string reads as is that byte string |
| Bytes.Int32RoundTrip | Models/UdpPacketData.cs:12 | an `int` field decodes from its 4 bytes to the same value |
| Bytes.Int32BytesRoundTrip | Models/UdpPacketData.cs:17 | any 4 bytes decode to an `int` whose encoding is those bytes |
| Bytes.Bits64RoundTrip | Models/UdpPacketData.cs:15 | a `double` field's bit pattern survives encoding and decoding unchanged |
| Bytes.Bits64BytesRoundTrip | Models/UdpPacketData.cs:18 | any 8 bytes decode to a pattern whose encoding is those bytes |
| Packet.PackedLayout | Models/UdpPacketData.cs:5-18 | with Pack = 1 the fields start at 0, 4, 12, 20, 24 and the record is 4+8+8+4+8 = 32 bytes |
| Packet.Encode | Models/UdpPacketData.cs:5-18 | the wire image of every packet is exactly 32 bytes |
| Packet.EncodeLayout | Models/UdpPacketData.cs:12-18 | each field's encoding sits at its offset in the wire image, in declaration order, with no padding |
| Net.IPEndPointOf | Services/UdpSenderService.cs:37 | building an endpoint succeeds iff the port is in 0..65535, keeps the address and port, and otherwise fails with ArgumentOutOfRangeException for `port` |
| Sender.Serialize | Services/UdpSenderService.cs:93-114 | returns a fresh array of exactly 32 bytes that holds the packet's wire image |
| Sender.MarshalCopy | Services/UdpSenderService.cs:106 | the first `length` bytes of the source land at the start of the array, and the rest of the array is untouched |
| Sender.FirstInterNetwork | Services/UdpSenderService.cs:48 | the index of the first IPv4 address; every address before it is not IPv4; it is the length when there is none |
| Sender.ChooseAddress | Services/UdpSenderService.cs:48 | the chosen address is in the list; it is IPv4 whenever the list holds one, is the first IPv4 entry, and is the first entry when no entry is IPv4 |
| Sender.ResolveEndpoint | Services/UdpSenderService.cs:33-50 | a literal address is used with no resolution; a resolution error propagates; zero results fail with "Could not resolve IP address: " + name; otherwise the chosen address is used; on success the port is the requested, valid port |
| Sender.SendPacket | Services/UdpSenderService.cs:20-85 | at most two attempts, both carrying the one serialised image; a primary attempt iff an endpoint was found; a second attempt iff the primary failed as unreachable, the destination is literal and the loopback client could be bound, and it goes to the same endpoint; the call returns iff the primary or the fallback send returned; an escaping exception is always the original one |
| Listener.EncodeDeserialize | Services/UdpListenerService.cs:86-97 | every buffer of at least 32 bytes decodes to the packet whose wire image is its first 32 bytes |
| Listener.DeserializePrefix | Services/UdpListenerService.cs:86-97 | Deserialize reads only the first 32 bytes: bytes after them never change the packet |
| Listener.DeserializeImage | Services/UdpListenerService.cs:86-97 | reading a packet's own wire image gives the packet back, field by field |
| Listener.DeserializeEncode | Services/UdpListenerService.cs:64-66 | decoding an encoded packet followed by any trailing bytes gives the packet back |
| Listener.EncodeInjective | Services/UdpSenderService.cs:93-114 | distinct packets have distinct wire images |
| Listener.Decode | Services/UdpListenerService.cs:64-66 | the size test and decode give nothing iff the buffer is shorter than 32 bytes, and otherwise a packet whose image is the buffer's first 32 bytes |
| Listener.DecodeEncode | Services/UdpListenerService.cs:64-66 | an encoded packet with any tail decodes to itself |
| Listener.CancelPoint | Services/UdpListenerService.cs:75-78 | the position of the first receive result that ends the loop, with no earlier result that ends it |
| Listener.NoCancelPoint | Services/UdpListenerService.cs:75-78 | when no result ends the loop, the loop consumes them all |
| Listener.DeliveriesAppend | Services/UdpListenerService.cs:53-73 | the deliveries of consecutive stretches of results concatenate, in order |
| Listener.DroppedResults | Services/UdpListenerService.cs:69-82 | a short buffer or a failed receive delivers nothing, wherever it occurs |
| Listener.DeliveriesOfEncoded | Services/UdpListenerService.cs:53-73 | the encodings of a list of packets, each with any tail, are delivered as exactly that list |
| Listener.DroppedBetween | Services/UdpListenerService.cs:64-73 | a dropped result between two others leaves exactly the deliveries of those two, in order |
| Listener.DeliveredEncoding | Services/UdpListenerService.cs:64-73 | one datagram holding a packet's wire image is delivered as that packet |
| Listener.Resilience | Services/UdpListenerService.cs:64-82 | a corrupt datagram between two valid ones: both valid packets are delivered in order and the loop does not end |
| Listener.ResilienceOf | Services/UdpListenerService.cs:64-82 | three received datagrams without handler errors, the middle one short: the outer two are delivered in order and none ends the loop |
| Listener.CancellationTokenSource.Cancel | Services/UdpListenerService.cs:46 | cancelling requests cancellation, or fails with ObjectDisposedException iff the source was disposed |
| Listener.UdpListenerService.constructor | Services/UdpListenerService.cs:17-19 | a new listener is stopped and has no token source |
| Listener.UdpListenerService.StartListening | Services/UdpListenerService.cs:23-42 | a no-op while listening; an invalid port or a bind failure is swallowed and leaves the service stopped; otherwise the service listens on the port with a fresh, uncancelled token source |
| Listener.UdpListenerService.StopListening | Services/UdpListenerService.cs:44-49 | the service stops, closing the socket if one was open, and the token source is cancelled; it is safe when stopped; it fails with ObjectDisposedException, changing nothing, iff the token source was disposed |
| Listener.UdpListenerService.ListenLoop | Services/UdpListenerService.cs:51-84 | with the token live and a socket, the loop consumes results up to and including the first one that cancels it (or all of them) and delivers exactly the decodes of the buffers of at least 32 bytes among those, in order; with a cancelled token or no socket it does nothing |
| Listener.UdpListenerService.Dispose | Services/UdpListenerService.cs:99-103 | stops, closing the socket if one was open, cancels and disposes the token source, keeping it in the field; fails with ObjectDisposedException iff the source was already disposed, and then the socket, the close count and the cancellation flag are unchanged |
| Listener.UdpListenerService.DisposeCorrected | Services/UdpListenerService.cs:99-103 | the corrected Dispose always returns normally, closes the socket if one was open, cancels and disposes the old token source, and leaves the service stopped with no token source |
| Listener.StartStopScenario | Services/UdpListenerService.cs:23-49 | a second start binds nothing; a stopped service can start again; a second stop closes nothing |
| Listener.ListenerScenario | Services/UdpListenerService.cs:51-84 | a running loop fed valid, short and valid datagrams delivers the two packets in order and keeps receiving |
| Listener.SecondDisposeThrows | Services/UdpListenerService.cs:99-103 | as written, the first Dispose returns and the second throws ObjectDisposedException |
| Listener.SecondDisposeCorrectedSucceeds | Services/UdpListenerService.cs:99-103 | with the corrected Dispose, a second Dispose and a later StopListening return normally |
| Symbols.NewSymbol | Models/Symbols/SymbolProperties.cs:11-30 | a new symbol has its name, is enabled, has every other flag off, alarm and rotation 0, and no position |
| Supervision.InitialSymbols | Components/Pages/Supervision.razor.cs:16-28 | the page holds eleven symbols |
| Supervision.InitialSymbolNames | Components/Pages/Supervision.razor.cs:16-28 | each of the eleven symbol constants indexes the symbol created with that name |
| Supervision.InitialSymbolsConfigured | Components/Pages/Supervision.razor.cs:16-28 | only Pump 2 is mirrored; only Input 1 and Progress 1 hold a value, 50; every other field of every symbol is as its constructor leaves it |
| Supervision.OnArrival | Components/Pages/Supervision.razor.cs:44-52 | an arrival records its time and clears loss; it reports `false` iff the page was in loss |
| Supervision.OnTick | Components/Pages/Supervision.razor.cs:96-107 | after a tick, loss holds iff strictly more than 3 s passed since the last packet; a change is reported iff the flag changed, and what is reported is the new flag |
| Supervision.OnTickSettles | Components/Pages/Supervision.razor.cs:101-106 | once a tick has entered loss, later ticks report nothing |
| Supervision.RunAlternates | Components/Pages/Supervision.razor.cs:101-104 | over any events, the reported values alternate, starting with the opposite of the initial flag, and the final flag matches the parity of the report count |
| Supervision.RunAppend | Components/Pages/Supervision.razor.cs:42-107 | a run over two event lists is the second run started where the first ended |
| Supervision.TicksInLossSilent | Components/Pages/Supervision.razor.cs:101 | in loss, ticks that all come more than 3 s after the last packet report nothing |
| Supervision.DebouncedLoss | Components/Pages/Supervision.razor.cs:96-107 | after a packet, ticks in time order report loss exactly once iff the last tick is more than 3 s after it, and report nothing else |
| Supervision.WatchdogTimeline | Components/Pages/Supervision.razor.cs:93-107 | with no packet after time 0: a tick at 3 s reports nothing and keeps the page out of loss; a second tick at 4 s reports loss; over ticks at 3, 4 and 5 s and a packet just after 5 s, loss is reported once and then cleared |
| Supervision.WithLoss | Components/Pages/Supervision.razor.cs:109-122 | a comm-loss update sets HasCommLoss on every symbol and changes nothing else |
| Supervision.WithPacket | Components/Pages/Supervision.razor.cs:55-62 | Pump1 is enabled iff the pump-1 value is positive; Pump1 takes the packet's alarm only when it is above 0 and keeps its alarm otherwise; Input1 shows input 1; no other symbol or field changes |
| Supervision.Deselect | Components/Pages/Supervision.razor.cs:126 | one `IsSelected = false` changes that symbol's flag only |
| Supervision.DeselectStep | Components/Pages/Supervision.razor.cs:126-130 | each statement of ClearSelection extends the deselected prefix by one symbol |
| Supervision.DeselectedAllButCompass | Components/Pages/Supervision.razor.cs:126-130 | deselecting the first ten symbols is deselecting all but Compass1 |
| Supervision.Deselected | Components/Pages/Supervision.razor.cs:124-131 | every symbol but Compass1 is deselected, and nothing else changes |
| Supervision.ClearNamed | Components/Pages/Supervision.razor.cs:124-131 | the ten statements of ClearSelection together deselect every symbol but Compass1 |
| Supervision.MarkThenSelect | Components/Pages/Supervision.razor.cs:77-83 | marking the symbol before ClearSelection and marking it again after gives the same symbols as clearing first and marking once |
| Supervision.SelectionAfterSelect | Components/Pages/Supervision.razor.cs:77-83 | after Select, the chosen symbol is selected and the nine other named symbols are not; Compass1 keeps what it had unless it was chosen; only selection flags change |
| Supervision.SupervisionPage.constructor | Components/Pages/Supervision.razor.cs:16-88 | from the property initialisers (lines 16-33) and the watchdog fields (lines 87-88): the page starts with no loss, its packet clock at construction time, no selection and no dialog |
| Supervision.SupervisionPage.UpdateCommLossState | Components/Pages/Supervision.razor.cs:109-122 | HasCommLoss = b on all eleven symbols; nothing else on the page changes |
| Supervision.SupervisionPage.HandleUdpData | Components/Pages/Supervision.razor.cs:42-65 | the watchdog state follows OnArrival; the symbols are the packet mapping applied after any loss clearing; one render request |
| Supervision.SupervisionPage.WatchdogCallback | Components/Pages/Supervision.razor.cs:96-107 | the watchdog state follows OnTick; the symbols get the reported flag, if any; a render request only on a change |
| Supervision.SupervisionPage.ClearSelection | Components/Pages/Supervision.razor.cs:124-131 | the symbols are deselected except Compass1; nothing else changes |
| Supervision.SupervisionPage.Select | Components/Pages/Supervision.razor.cs:77-83 | the symbol becomes the selection and is the only selected one among the ten names ClearSelection clears |
| Supervision.SupervisionPage.SetAlarmState | Components/Pages/Supervision.razor.cs:134-137 | sets the selected symbol's alarm; changes nothing without a selection |
| Supervision.SupervisionPage.GetAlarmState | Components/Pages/Supervision.razor.cs:139 | the selected symbol's alarm, or 0 without a selection |
| Supervision.SupervisionPage.SetAlarmBlink | Components/Pages/Supervision.razor.cs:141-144 | sets the selected symbol's blink flag; changes nothing without a selection |
| Supervision.SupervisionPage.GetAlarmBlink | Components/Pages/Supervision.razor.cs:146 | the selected symbol's blink flag, or false without a selection |
| Supervision.SupervisionPage.ToggleEnable | Components/Pages/Supervision.razor.cs:154 | flips IsEnabled of the selected symbol only; changes nothing without a selection |
| Supervision.SupervisionPage.ToggleCommLoss | Components/Pages/Supervision.razor.cs:155 | flips HasCommLoss of the selected symbol only, leaving the watchdog state alone |
| Supervision.SupervisionPage.OpenSettings | Components/Pages/Supervision.razor.cs:162-166 | remembers the symbol's name and shows the dialog |
| Supervision.SupervisionPage.CloseSettings | Components/Pages/Supervision.razor.cs:168-169 | confirm and cancel both hide the dialog and change nothing else |
| Supervision.CommLossScenario | Components/Pages/Supervision.razor.cs:96-122 | exactly 3 s of silence is not a loss; one more second marks all eleven symbols |
| Supervision.RecoveryScenario | Components/Pages/Supervision.razor.cs:42-52 | a packet arriving in loss reports `false` and clears the mark on all eleven symbols |
| Supervision.PanelScenario | Components/Pages/Supervision.razor.cs:134-155 | without a selection the setters change nothing and GetAlarmState is 0; toggling twice restores the symbols |
| Compass.TruncatedRem | Services/CompassService.cs:17 | C#'s `% 360`: congruent to the dividend mod 360, in [0, 360) for a non-negative dividend and in (-360, 0] for a negative one |
| Compass.NormalizedIsResidue | Services/CompassService.cs:17-18 | the normalised heading is in [0, 360) and equals the mathematical residue of the input mod 360 |
| Compass.NormalizedInRange | Services/CompassService.cs:17-18 | a heading already in [0, 360) is kept |
| Compass.NormalizedIdempotent | Services/CompassService.cs:17-18 | normalising twice is normalising once |
| Compass.CompassService.constructor | Services/CompassService.cs:7 | the heading starts at 0 |
| Compass.CompassService.SetHeading | Services/CompassService.cs:13-22 | the heading becomes the input normalised into [0, 360), and exactly one change notification is raised |
| Compass.CompassScenario | Services/CompassService.cs:13-22 | -90 is stored as 270 and 725 as 5, and setting the current heading again keeps it |
| SimulationService.Clamp | Services/SimulationService.cs:38-39 | the result is in [0, 100]; a value in range is kept; values below or above are pinned to the nearer bound |
| SimulationService.AlarmFor | Services/SimulationService.cs:48-50 | 2 iff the speed is above 90, 1 iff above 75 and at most 90, 0 iff at most 75 |
| SimulationService.TickProperties | Services/SimulationService.cs:35-54 | after a tick both values are in [0, 100]; from a state in range they move by at most 2 and 1; the valve flips iff its draw is 0; the alarm classifies the new speed |
| SimulationService.SimulateInRange | Services/SimulationService.cs:29-54 | from the initial state, any run of ticks stays in range, keeps the alarm consistent with the speed, and raises the speed by at most 2 per tick |
| SimulationService.Simulation.constructor | Services/SimulationService.cs:29-32 | speed 0, level 50, valve closed, no alarm |
| SimulationService.Simulation.OnTimerElapsed | Services/SimulationService.cs:35-54 | the new state is one tick from the old with the given draws, and exactly one change notification is raised |
| Text.NatToString | Components/Symbols/SymbolWrapper.razor.cs:64 | the decimal text of a number is a non-empty string of digits |
| Text.IntToString | Components/Pages/Simulation.razor.cs:98 | the text of an `int` is digits with a leading '-' iff the number is negative |
| Text.NatToStringCanonical | Components/Symbols/SymbolWrapper.razor.cs:64 | the text starts with '0' only for 0 |
| Text.NatToStringRoundTrip | Components/Symbols/SymbolWrapper.razor.cs:64 | the digits read back as the number |
| Text.IntToStringRoundTrip | Components/Pages/Simulation.razor.cs:98 | the text of an `int` reads back as the same `int` |
| Text.ParseSigned | Components/Pages/Simulation.razor.cs:98 | a minus sign followed by digits is integer text and reads as the negated digits |
| Text.IntToStringInjective | Components/Pages/Simulation.razor.cs:98 | distinct integers have distinct texts |
| SymbolWrapper.BoundSymbolDecides | Components/Symbols/SymbolWrapper.razor.cs:22-59 | with a bound symbol, every state flag, the rotation and the mirroring are the symbol's, whatever the wrapper's own parameters say |
| SymbolWrapper.DefaultsAreNewSymbol | Components/Symbols/SymbolWrapper.razor.cs:22-59 | without a symbol the wrapper behaves as if bound to a new symbol that carries the wrapper's cross-filter, rotation and mirror parameters |
| SymbolWrapper.ExtentFallbacks | Components/Symbols/SymbolWrapper.razor.cs:51-52 | `ActualWidth` and `ActualHeight` take the explicit dimension, else `Size`, else 100; with neither dimension set the two are equal |
| SymbolWrapper.CoordinateFallbacks | Components/Symbols/SymbolWrapper.razor.cs:54-55 | `EffectiveX` and `EffectiveY` take the bound symbol's coordinate when it has one and the parameter otherwise, including a bound symbol whose coordinate is null; a coordinate is known iff the symbol or the parameter knows it |
| SymbolWrapper.GetRootStyle | Components/Symbols/SymbolWrapper.razor.cs:62-78 | the style starts with the actual width and height; when either coordinate is known it continues with absolute placement, a missing coordinate written as 0; otherwise it is exactly the size followed by relative placement |
| SymbolWrapper.RootStyleRelative | Components/Symbols/SymbolWrapper.razor.cs:67-75 | the style ends with relative placement iff neither effective coordinate is known |
| SymbolWrapper.TransformParts | Components/Symbols/SymbolWrapper.razor.cs:83-97 | the transform list is empty iff the rotation is 0 and neither mirror is set |
| SymbolWrapper.GetRotationStyle | Components/Symbols/SymbolWrapper.razor.cs:81-105 | empty iff the effective rotation is 0 and neither effective mirror is set; otherwise "transform: " + the parts + "; transform-origin: center;" |
| SymbolWrapper.TransformPartsSpaced | Components/Symbols/SymbolWrapper.razor.cs:86-96 | a non-empty transform list ends with the space its last part carries |
| SymbolWrapper.GetMirrorStyle | Components/Symbols/SymbolWrapper.razor.cs:108-116 | always starts with "width: 100%; height: 100%;" and is exactly that iff neither mirror parameter is set; otherwise it adds " transform:" with " scaleX(-1)" and then " scaleY(-1)" for the parameters set, and "; transform-origin: center;" |
| SymbolWrapper.MirrorStyleIgnoresSymbol | Components/Symbols/SymbolWrapper.razor.cs:112-113 | the mirror style reads the wrapper's parameters, never the bound symbol |
| SymbolWrapper.MirroredSymbolStyles | Components/Symbols/SymbolWrapper.razor.cs:89-115 | a bound mirrored symbol is flipped by the rotation style only, never by the mirror style |
| SimulationPage.GetColor | Components/Pages/Simulation.razor.cs:49-54 | red iff above 90, yellow iff above 75 and at most 90, green iff at most 75 |
| SimulationPage.GetColorMonotone | Components/Pages/Simulation.razor.cs:51-53 | a higher value is never shown in a milder colour |
| SimulationPage.GetColorMatchesAlarm | Components/Pages/Simulation.razor.cs:49-54 | for a whole-number speed the colour's severity equals the simulation's alarm state |
| SimulationPage.FormPacket | Components/Pages/Simulation.razor.cs:88-95 | the packet has an id in 0..999, the form's two pump values, alarm 0 and input 0 |
| SimulationPage.Simulation.constructor | Components/Pages/Simulation.razor.cs:77-81 | the form starts at 239.0.0.1:11000 with both pumps at 50 and an empty status |
| SimulationPage.Simulation.SendUdpPacket | Components/Pages/Simulation.razor.cs:83-104 | the send is the sender's for the form's packet; the status names the address and port on success and is "Erreur: " + the message on failure; nothing escapes; the form fields are kept |
| SimulationPage.StatusShowsOutcome | Components/Pages/Simulation.razor.cs:85-103 | the status after a send shows which way it went: the success text differs from every error text, and both differ from the text shown while sending |

## Left out

- Text.IntToString: writes the minus sign as '-'. C# interpolation formats an `int` with the current culture, whose negative sign may be another string; cultures are not modelled.
- Sockets, name resolution, `UdpClient`, `SendAsync` and `ReceiveAsync` are not modelled. Their answers are inputs: the literal-address parse, the resolution result, the outcome of each send, the bind failure, and the sequence of receive results.
- The unmanaged memory behind `Marshal` and `GCHandle` is not modelled. The struct image is an explicit little-endian layout. A big-endian host is not covered.
- Creating the sender's IPv4 client (Services/UdpSenderService.cs:23) and setting its TTL can fail. Such a failure would escape before any send; it is not modelled, and neither are socket options.
- Timers, `Task.Run` and the races between the watchdog timer thread and the UDP thread are not modelled. Ticks and arrivals are sequential calls carrying a time. The watchdog period (`WatchdogPeriodMs`, 1 s) only spaces the ticks of `WatchdogTimeline` and the scenarios. Cancellation is a flag on the token-source object.
- `InvokeAsync(StateHasChanged)` is kept only as a count of render requests. `OnChange` events are kept only as a count of notifications. Subscribing and unsubscribing handlers, and multiple subscribers, are not modelled. Console logging is not modelled.
- Floating point is not modelled. Packet doubles are bit patterns. `Pump1Value > 0` is the predicate `0 < bits <= 0x7FF0_0000_0000_0000` (positive subnormals, normals and +infinity). The simulation values are integers; the service starts them at 0 and 50 and changes them by whole numbers. `GetColor` works on reals, so NaN is not covered. The text of a coordinate in `GetRootStyle` is an abstract formatter.
- Supervision's `OnInitialized` and `Dispose` (subscribing, starting the listener and the timer) are not modelled. Its call `StartListening(11000, "239.0.0.1")` has no counterpart in the listener interface, which takes only a port.
- `SetRotation`, `ToggleOverlay` and `ToggleCrossFilter` on the Supervision page have empty bodies and are not modelled.
- The symbol `Id` (a fresh Guid) is not modelled. Neither are `Unit`, `MinValue` and `MaxValue` of the input and analog-display kinds, nor `Speed` and `IsRunning` of the rotating machines. `Value` exists only on the input and analog-display kinds, so it is optional on the record. Pump, Valve, Fan and CompassProperties are not part of this model. Their constructors are taken to set only the name, like the base class.
- The Simulation page's symbol lookups in `OnInitialized` and the WCF test are not modelled. `SendUdpPacket` writes the "Envoi..." status before the send, but no contract describes the pending state: the send is one atomic call, so only the final status is stated.
- SimulationPage.Simulation.SendUdpPacket: the random packet id is a parameter in 0..999, not a draw.
- The ToDo services, the database context, the WCF client, `Program.cs`, the service worker, and the Compass, ProgressBar, Moteur and InputSymbol components are outside the modelled core.

## Findings

| source | as written | input that shows it | evidently intended | confidence | as-written member | corrected member |
|---|---|---|---|---|---|---|
| Services/UdpListenerService.cs:99-103 | `Dispose` disposes `_cts` but leaves it in the field, so the next `StopListening` calls `Cancel` on a disposed source | `StartListening(11000)`, then `Dispose()` twice: the second call throws ObjectDisposedException (so does a `StopListening` after `Dispose`) | `Dispose` can be called again without throwing, as `IDisposable` expects | not executed | Listener.SecondDisposeThrows | Listener.SecondDisposeCorrectedSucceeds |
