/** The intelligent mode of the MPU-401: a sequencer clocked by an exact rational
    phase accumulator, that asks the guest for timed events one at a time. Bit masks
    of tracks and of pending requests are sets of bit numbers. */
module Mpu401Model {
  import opened Wrappers
  import opened MidiParsing

  const ACK := 0xfe
  const RESET := 0xff
  const INPUT_CAPACITY := 4096
  const OUTPUT_CAPACITY := 1024
  const MASTER_CLOCK_HZ := 5_478_000_000
  const CLOCK_NUMERATOR := 60 * 5_478_000_000
  const IMMEDIATE_DELAY := 5_478_000_000 * 60 / 1_000_000
  const LAST_TICK := 0xffff_ffff_ffff_ffff
  const CONDUCTOR_BIT := 9
  const END_BIT := 12

  datatype Timed = Timed(tick: nat, bytes: seq<int>)
  datatype Mode = Intelligent | Uart
  datatype Parameter = Tempo | ActiveTracks | Discard
  datatype Target = TrackTarget(track: nat) | ConductorTarget
  datatype Request = Request(target: Target, timing: Option<int>, bytes: seq<int>, expected: int)
  datatype TrackEvent = Midi(bytes: seq<int>) | Mark(byte: int)
  datatype ConductorEvent = ConductorEvent(command: int, parameter: Option<int>)
  datatype Action = TrackAction(track: nat, event: TrackEvent) | ConductorAction(order: ConductorEvent)
  datatype Immediate = Immediate(due: nat, action: Action)
  datatype Track = Track(counter: int, event: Option<TrackEvent>, running: Option<int>)
  datatype Conductor = Conductor(counter: int, event: Option<ConductorEvent>)

  datatype Mpu = Mpu(
    mode: Mode, input: seq<int>, output: seq<Timed>, parser: Parser, timebase: nat, tempo: nat,
    parameter: Option<Parameter>, configured: set<nat>, active: set<nat>, conductorEnabled: bool, conductorActive: bool,
    playing: bool, tracks: seq<Track>, conductor: Conductor, pending: set<nat>,
    request: Option<Request>, immediate: Option<Immediate>, now: nat, phase: nat)
  {
    function Rate(): nat { timebase * tempo }

    /** The sequencer waits for the guest, or for an event due at once. */
    predicate Blocked() { input != [] || request.Some? || immediate.Some? }
  }

  function PowerUp(): Mpu {
    Mpu(Intelligent, [], [], Fresh(), 120, 100, None, {}, {}, false, false, false,
        seq(8, _ => Track(0, None, None)), Conductor(0, None), {}, None, None, 0, 0)
  }

  // ----- Queues --------------------------------------------------------------------

  /** A response drops what is last in a full queue to make room. */
  function Respond(m: Mpu, bytes: seq<int>): (r: Mpu)
    ensures r.now == m.now
  {
    var room := if |bytes| <= INPUT_CAPACITY then INPUT_CAPACITY - |bytes| else 0;
    m.(input := (if |m.input| <= room then m.input else m.input[..room]) + bytes)
  }

  /** An output drops what is first in a full queue. */
  function Emit(m: Mpu, tick: nat, bytes: seq<int>): (r: Mpu)
    ensures r.now == m.now && |r.tracks| == |m.tracks|
  {
    m.(output := (if |m.output| == OUTPUT_CAPACITY then m.output[1..] else m.output) + [Timed(tick, bytes)])
  }

  /** "All notes off" on the first `n` channels. */
  function NotesOff(m: Mpu, tick: nat, n: nat): (r: Mpu)
    ensures r.now == m.now
  {
    if n == 0 then m else Emit(NotesOff(m, tick, n - 1), tick, [0xb0 + (n - 1), 123, 0])
  }

  /** The lowest pending bit from `from` up. */
  function LowestBit(pending: set<nat>, from: nat): (b: Option<nat>)
    requires from <= 13
    ensures b.Some? ==> from <= b.value <= END_BIT && b.value in pending
    ensures b.Some? ==> forall k: nat :: from <= k < b.value ==> k !in pending
    ensures b.None? ==> forall k: nat :: from <= k <= END_BIT ==> k !in pending
    decreases 13 - from
  {
    if from > END_BIT then None else if from in pending then Some(from) else LowestBit(pending, from + 1)
  }

  /** Ask the guest for the next event, if the sequencer is free to. */
  function IssueNext(m: Mpu): (r: Mpu)
    ensures r.now == m.now
  {
    if m.mode.Uart? || !m.playing || m.Blocked() then m
    else
      var bit := LowestBit(m.pending, 0);
      if bit.None? then m else Respond(m.(pending := m.pending - {bit.value}), [0xf0 + bit.value])
  }

  // ----- Commands ------------------------------------------------------------------

  function RestartClock(m: Mpu): (r: Mpu)
    ensures r.now == m.now
  {
    if m.playing then m.(phase := 0) else m
  }

  function StartPlayback(m: Mpu): (r: Mpu)
    ensures r.now == m.now
  {
    m.(phase := if m.playing then m.phase else 0, playing := true, input := [], request := None)
  }

  function StopPlayback(m: Mpu, tick: nat): (r: Mpu)
    ensures r.now == m.now
  {
    NotesOff(m.(playing := false, pending := {}, request := None, immediate := None), tick, 16)
  }

  function Cleared(m: Mpu): (r: Mpu)
    ensures r.now == m.now
  {
    m.(pending := {}, request := None, immediate := None, conductor := Conductor(0, None),
       tracks := seq(|m.tracks|, k requires 0 <= k < |m.tracks| => Track(0, None, m.tracks[k].running)))
  }

  function ClearCounters(m: Mpu): (r: Mpu)
    ensures r.now == m.now
  {
    Cleared(m).(active := m.configured, conductorActive := m.conductorEnabled)
  }

  function ResetProtocol(m: Mpu, tick: nat): (r: Mpu)
    ensures r.now == m.now
  {
    NotesOff(Emit(PowerUp().(output := m.output, now := m.now), tick, [RESET]), tick, 16)
  }

  function Acknowledged(m: Mpu, acknowledge: bool): (r: Mpu)
    ensures r.now == m.now
  {
    if acknowledge then Respond(m, [ACK]) else m
  }

  function Transport(m: Mpu, command: int, tick: nat): (r: Mpu)
    ensures r.now == m.now
  {
    if command % 16 >= 12 then m else
    var a := if command % 4 == 1 then Emit(m, tick, [0xfc])
             else if command % 4 == 2 then Emit(m, tick, [0xfb])
             else if command % 4 == 3 then Emit(m, tick, [0xfa]) else m;
    if command / 4 % 4 == 1 then StopPlayback(a, tick) else if command / 4 % 4 == 2 then StartPlayback(a) else a
  }

  function Timebase(command: int): nat
    requires 0xc2 <= command <= 0xc8
  {
    48 + 24 * (command - 0xc2)
  }

  function Command(m: Mpu, command: int, acknowledge: bool, tick: nat): (r: Mpu)
    ensures r.now == m.now
  {
    if m.mode.Uart? && command != RESET then m
    else if command <= 0x2f then Acknowledged(Transport(m, command, tick), acknowledge)
    else if command == 0xac && acknowledge then Respond(m, [ACK, 0x15])
    else if command == 0xad && acknowledge then Respond(m, [ACK, 0x01])
    else if command == 0xaf && acknowledge then Respond(m, [ACK, m.tempo])
    else Acknowledged(Setting(m, command, tick), acknowledge)
  }

  function Setting(m: Mpu, command: int, tick: nat): (r: Mpu)
    ensures r.now == m.now
  {
    if command == 0x3f then m.(mode := Uart, parser := Fresh(), parameter := None)
    else if command == 0x8e || command == 0x8f then m.(conductorEnabled := command == 0x8f)
    else if command == 0xb8 then ClearCounters(m)
    else if command == 0xb9 then NotesOff(Cleared(m), tick, 16)
    else if 0xc2 <= command <= 0xc8 then RestartClock(m.(timebase := Timebase(command)))
    else if command == 0xe0 then m.(parameter := Some(Tempo))
    else if command == 0xec then m.(parameter := Some(ActiveTracks))
    else if HasParameter(command) then m.(parameter := Some(Discard))
    else if command == RESET then ResetProtocol(m, tick)
    else m
  }

  predicate HasParameter(command: int) {
    command in {0xe0, 0xe1, 0xe2, 0xe4, 0xe6, 0xe7, 0xec, 0xed, 0xee, 0xef}
  }

  function Clamp(v: int): nat { if v < 8 then 8 else if v > 250 then 250 else v }

  function BitsOf(value: int): set<nat> { set k: nat | k < 8 && value / Power(k) % 2 == 1 }

  function Power(k: nat): (p: int)
    ensures p > 0
  {
    if k == 0 then 1 else 2 * Power(k - 1)
  }

  function Apply(m: Mpu, parameter: Parameter, value: int): (r: Mpu)
    ensures r.now == m.now
  {
    match parameter
    case Tempo => RestartClock(m.(tempo := Clamp(value)))
    case ActiveTracks => m.(configured := BitsOf(value))
    case Discard => m
  }

  // ----- Events --------------------------------------------------------------------

  function FinishTrack(m: Mpu, track: nat, event: TrackEvent): (r: Mpu)
    ensures r.now == m.now && |r.tracks| == |m.tracks|
  {
    var a := match event
      case Midi(bytes) => Emit(m, m.now, bytes)
      case Mark(byte) => if byte == 0xfc then Emit(m, m.now, [0xfc]).(active := m.active - {track}) else m;
    if track in a.active then a.(pending := a.pending + {track})
    else if a.active == {} && !a.conductorActive then a.(pending := a.pending + {END_BIT})
    else a
  }

  function FinishConductor(m: Mpu, event: ConductorEvent): (r: Mpu)
    ensures r.now == m.now
  {
    var a := Command(m.(parameter := None), event.command, false, m.now);
    var b := if event.parameter.Some? && a.parameter.Some?
             then Apply(a.(parameter := None), a.parameter.value, event.parameter.value) else a;
    if b.playing && b.conductorActive then b.(pending := b.pending + {CONDUCTOR_BIT}) else b
  }

  function Execute(m: Mpu, action: Action): (r: Mpu)
    ensures r.now == m.now
  {
    IssueNext(match action
              case TrackAction(track, event) => FinishTrack(m, track, event)
              case ConductorAction(event) => FinishConductor(m, event))
  }

  predicate TrackOutstanding(m: Mpu, track: nat) {
    || track in m.pending
    || (m.request.Some? && m.request.value.target == TrackTarget(track))
    || (m.immediate.Some? && m.immediate.value.action.TrackAction? && m.immediate.value.action.track == track)
  }

  predicate ConductorOutstanding(m: Mpu) {
    || CONDUCTOR_BIT in m.pending
    || (m.request.Some? && m.request.value.target.ConductorTarget?)
    || (m.immediate.Some? && m.immediate.value.action.ConductorAction?)
  }

  function Less(counter: int): int { if counter <= 0 then 0 else counter - 1 }

  /** One clock pulse on one track. */
  function TrackPulse(m: Mpu, track: nat): (r: Mpu)
    ensures r.now == m.now && |r.tracks| == |m.tracks|
  {
    if track !in m.active || track >= |m.tracks| then m else
    var state := m.tracks[track];
    if state.event.None? then
      if TrackOutstanding(m, track) then m else m.(pending := m.pending + {track})
    else if Less(state.counter) > 0 then m.(tracks := m.tracks[track := state.(counter := Less(state.counter))])
    else FinishTrack(m.(tracks := m.tracks[track := state.(counter := 0, event := None)]), track, state.event.value)
  }

  function TracksPulse(m: Mpu, n: nat): (r: Mpu)
    ensures r.now == m.now && |r.tracks| == |m.tracks|
  {
    if n == 0 then m else TrackPulse(TracksPulse(m, n - 1), n - 1)
  }

  function ConductorPulse(m: Mpu): (r: Mpu)
    ensures r.now == m.now
  {
    if !m.conductorActive then m
    else if m.conductor.event.None? then
      if ConductorOutstanding(m) then m else m.(pending := m.pending + {CONDUCTOR_BIT})
    else if Less(m.conductor.counter) > 0 then m.(conductor := m.conductor.(counter := Less(m.conductor.counter)))
    else FinishConductor(m.(conductor := Conductor(0, None)), m.conductor.event.value)
  }

  function Pulse(m: Mpu): (r: Mpu)
    ensures r.now == m.now
  {
    if m.Blocked() then m else IssueNext(ConductorPulse(TracksPulse(m, 8)))
  }

  // ----- The guest's side ------------------------------------------------------------

  function FeedRequest(m: Mpu, value: int, tick: nat): Mpu
    requires m.request.Some?
  {
    var request := m.request.value;
    if request.timing.None? then
      if value >= 0xf0 then IssueNext(m.(request := None)) else m.(request := Some(request.(timing := Some(value))))
    else match request.target
      case TrackTarget(track) => FeedTrack(m.(request := None), request, track, value, tick)
      case ConductorTarget => FeedConductor(m.(request := None), request, value, tick)
  }

  function FeedTrack(m: Mpu, request: Request, track: nat, value: int, tick: nat): Mpu
    requires request.timing.Some?
  {
    if track >= |m.tracks| then m
    else if request.bytes != [] then TrackBytes(m, request.(bytes := request.bytes + [value]), track, tick)
    else if 0x80 <= value <= 0xef then
      TrackBytes(m.(tracks := m.tracks[track := m.tracks[track].(running := Some(value))]),
                 request.(bytes := [value], expected := MessageLen(value)), track, tick)
    else if value == 0xf8 || value == 0xf9 || value == 0xfc then
      TrackBytes(m, request.(bytes := [value], expected := 1), track, tick)
    else if value < 0x80 && m.tracks[track].running.Some? then
      var status := m.tracks[track].running.value;
      TrackBytes(m, request.(bytes := [status, value], expected := MessageLen(status)), track, tick)
    else IssueNext(m)
  }

  function TrackBytes(m: Mpu, request: Request, track: nat, tick: nat): Mpu
    requires request.timing.Some? && request.bytes != [] && track < |m.tracks|
  {
    if |request.bytes| < request.expected then m.(request := Some(request))
    else
      var event := if |request.bytes| == 1 then Mark(request.bytes[0]) else Midi(request.bytes);
      if request.timing.value == 0 then m.(immediate := Some(Immediate(DueAt(tick), TrackAction(track, event))))
      else
        var loaded := m.tracks[track].(counter := request.timing.value, event := Some(event));
        IssueNext(m.(tracks := m.tracks[track := loaded]))
  }

  function FeedConductor(m: Mpu, request: Request, value: int, tick: nat): Mpu
    requires request.timing.Some?
  {
    var bytes := request.bytes + [value];
    var expected := if |bytes| == 1 then (if HasParameter(value) then 2 else 1) else request.expected;
    if |bytes| < expected then m.(request := Some(request.(bytes := bytes, expected := expected)))
    else
      var event := ConductorEvent(bytes[0], if |bytes| > 1 then Some(bytes[1]) else None);
      if request.timing.value == 0 then m.(immediate := Some(Immediate(DueAt(tick), ConductorAction(event))))
      else IssueNext(m.(conductor := Conductor(request.timing.value, Some(event))))
  }

  /** An immediate event is due a fixed time after the byte that completed it. */
  function DueAt(tick: nat): nat { if tick + IMMEDIATE_DELAY > LAST_TICK then LAST_TICK else tick + IMMEDIATE_DELAY }

  function WriteCommand(m: Mpu, command: int, tick: nat): Mpu { Command(m.(parameter := None), command, true, tick) }

  function EmitAll(m: Mpu, tick: nat, messages: seq<Message>): Mpu
    decreases |messages|
  {
    if messages == [] then m
    else Emit(EmitAll(m, tick, messages[..|messages| - 1]), tick, messages[|messages| - 1])
  }

  function WriteData(m: Mpu, value: int, tick: nat): Mpu {
    if m.mode.Intelligent? && m.parameter.Some? then Apply(m.(parameter := None), m.parameter.value, value)
    else if m.mode.Intelligent? && m.request.Some? then FeedRequest(m, value, tick)
    else
      var (parser, completed) := Push(m.parser, value);
      EmitAll(m.(parser := parser), tick, completed)
  }

  function ReadData(m: Mpu): (Mpu, int) {
    if m.input == [] then (m, 0xff) else
    var value := m.input[0];
    var a := m.(input := m.input[1..]);
    var b := if 0xf0 <= value <= 0xf7 then a.(request := Some(Request(TrackTarget(value - 0xf0), None, [], 0)))
             else if value == 0xf9 then a.(request := Some(Request(ConductorTarget, None, [], 0)))
             else a;
    (if b.input == [] && b.request.None? then IssueNext(b) else b, value)
  }

  function TakeMessage(m: Mpu): (Mpu, Option<Timed>) {
    if m.output == [] then (m, None) else (m.(output := m.output[1..]), Some(m.output[0]))
  }

  // ----- Time ------------------------------------------------------------------------

  /** One master tick: the simple form of the passage of time. */
  function Tick(m: Mpu): (r: Mpu)
    ensures r.now == m.now + 1
  {
    if m.mode.Uart? then m.(now := m.now + 1)
    else
      var a := m.(now := m.now + 1, phase := if m.playing then m.phase + m.Rate() else m.phase);
      var b := if m.playing && a.phase >= CLOCK_NUMERATOR then Pulse(a.(phase := a.phase - CLOCK_NUMERATOR)) else a;
      if b.immediate.Some? && b.immediate.value.due <= b.now
      then Execute(b.(immediate := None), b.immediate.value.action) else b
  }

  function TickN(m: Mpu, n: nat): (r: Mpu)
    ensures r.now == m.now + n
  {
    if n == 0 then m else Tick(TickN(m, n - 1))
  }

  /** Never zero; the rate is positive in every reachable state. */
  function TicksUntilPulse(m: Mpu): nat {
    if m.phase >= CLOCK_NUMERATOR || m.Rate() == 0 then 1
    else (CLOCK_NUMERATOR - m.phase + m.Rate() - 1) / m.Rate()
  }

  function TicksUntilDue(m: Mpu): nat
    requires m.immediate.Some?
  {
    if m.immediate.value.due <= m.now + 1 then 1 else m.immediate.value.due - m.now
  }

  function Sooner(a: Option<nat>, b: Option<nat>): Option<nat> {
    if a.None? then b else if b.None? || a.value <= b.value then a else b
  }

  /** The wake-up the machine schedules. */
  function TicksUntilEvent(m: Mpu): Option<nat> {
    if m.mode.Uart? then None
    else Sooner(if m.immediate.Some? then Some(TicksUntilDue(m)) else None,
                if m.playing && !m.Blocked() && (m.active != {} || m.conductorActive)
                then Some(TicksUntilPulse(m)) else None)
  }
}
