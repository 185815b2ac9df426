/** What the sequencer keeps over every run: the shape of its state, the handshake
    that leaves no request waiting unnoticed, and what that makes of time. */
module Mpu401Proof {
  import opened Wrappers
  import opened Arithmetic
  import opened MidiParsing
  import opened Mpu401Model

  // ----- The shape of the state --------------------------------------------------

  predicate TracksOk(s: set<nat>) { forall t :: t in s ==> t < 8 }

  predicate Ok(m: Mpu) {
    && 48 <= m.timebase <= 192 && 8 <= m.tempo <= 250 && m.phase < CLOCK_NUMERATOR
    && |m.tracks| == 8 && TracksOk(m.active) && TracksOk(m.configured) && (forall b :: b in m.pending ==> b <= END_BIT)
    && (m.request.Some? && m.request.value.target.TrackTarget? ==> m.request.value.target.track < 8)
    && (m.immediate.Some? && m.immediate.value.action.TrackAction? ==> m.immediate.value.action.track < 8)
  }

  /** Everything but the two queues' contents, which no shape rule looks at. */
  ghost predicate SameButQueues(m: Mpu, m': Mpu) {
    m' == m.(input := m'.input, output := m'.output)
  }

  lemma Product(a: int, b: int)
    requires 48 <= a <= 192 && 8 <= b <= 250
    ensures 0 < a * b <= 48000
  {
    assert a * b <= 192 * b;
  }

  lemma RateRange(m: Mpu)
    requires Ok(m)
    ensures 0 < m.Rate() < CLOCK_NUMERATOR
  {
    Product(m.timebase, m.tempo);
  }

  lemma {:induction false} NotesOffQueues(m: Mpu, tick: nat, n: nat)
    ensures SameButQueues(m, NotesOff(m, tick, n)) && NotesOff(m, tick, n).input == m.input
    decreases n
  {
    if n > 0 { NotesOffQueues(m, tick, n - 1); }
  }

  lemma {:induction false} EmitAllQueues(m: Mpu, tick: nat, messages: seq<Message>)
    ensures SameButQueues(m, EmitAll(m, tick, messages)) && EmitAll(m, tick, messages).input == m.input
    decreases |messages|
  {
    if messages != [] { EmitAllQueues(m, tick, messages[..|messages| - 1]); }
  }

  lemma BitsOk(value: int)
    ensures TracksOk(BitsOf(value))
  {
  }

  lemma QueuesOk(m: Mpu, m': Mpu)
    requires Ok(m) && SameButQueues(m, m')
    ensures Ok(m')
  {
  }

  lemma RespondOk(m: Mpu, bytes: seq<int>)
    requires Ok(m)
    ensures Ok(Respond(m, bytes)) && SameButQueues(m, Respond(m, bytes))
  {
  }

  lemma EmitOk(m: Mpu, tick: nat, bytes: seq<int>)
    requires Ok(m)
    ensures Ok(Emit(m, tick, bytes)) && SameButQueues(m, Emit(m, tick, bytes)) && Emit(m, tick, bytes).input == m.input
  {
  }

  lemma StopOk(m: Mpu, tick: nat)
    requires Ok(m)
    ensures Ok(StopPlayback(m, tick)) && Ok(StartPlayback(m))
  {
    hide NotesOff;
    var quiet := m.(playing := false, pending := {}, request := None, immediate := None);
    NotesOffQueues(quiet, tick, 16);
    QueuesOk(quiet, NotesOff(quiet, tick, 16));
  }

  lemma TransportOk(m: Mpu, command: int, tick: nat)
    requires Ok(m)
    ensures Ok(Transport(m, command, tick))
  {
    hide Ok, StopPlayback, StartPlayback, Emit;
    if command % 16 < 12 {
      EmitOk(m, tick, [0xfa]);
      EmitOk(m, tick, [0xfb]);
      EmitOk(m, tick, [0xfc]);
      var a := if command % 4 == 1 then Emit(m, tick, [0xfc])
               else if command % 4 == 2 then Emit(m, tick, [0xfb])
               else if command % 4 == 3 then Emit(m, tick, [0xfa]) else m;
      StopOk(a, tick);
    }
  }

  lemma ClearedOk(m: Mpu, tick: nat)
    requires Ok(m)
    ensures Ok(ClearCounters(m)) && Ok(NotesOff(Cleared(m), tick, 16))
  {
    hide NotesOff;
    NotesOffQueues(Cleared(m), tick, 16);
    QueuesOk(Cleared(m), NotesOff(Cleared(m), tick, 16));
  }

  lemma ResetOk(m: Mpu, tick: nat)
    ensures Ok(ResetProtocol(m, tick)) && !ResetProtocol(m, tick).playing
  {
    hide NotesOff;
    var blank := PowerUp().(output := m.output, now := m.now);
    EmitOk(blank, tick, [RESET]);
    NotesOffQueues(Emit(blank, tick, [RESET]), tick, 16);
    QueuesOk(Emit(blank, tick, [RESET]), NotesOff(Emit(blank, tick, [RESET]), tick, 16));
  }

  /** The fields the shape rules look at are the same. */
  ghost predicate SameShape(m: Mpu, m': Mpu) {
    && m'.timebase == m.timebase && m'.tempo == m.tempo && m'.phase == m.phase && m'.tracks == m.tracks
    && m'.active == m.active && m'.configured == m.configured && m'.pending == m.pending
    && m'.request == m.request && m'.immediate == m.immediate
  }

  lemma SameShapeOk(m: Mpu, m': Mpu)
    requires Ok(m) && SameShape(m, m')
    ensures Ok(m')
  {
  }

  lemma RetimedOk(m: Mpu, timebase: nat, tempo: nat)
    requires Ok(m) && 48 <= timebase <= 192 && 8 <= tempo <= 250
    ensures Ok(RestartClock(m.(timebase := timebase))) && Ok(RestartClock(m.(tempo := tempo)))
  {
  }

  lemma SettingOk(m: Mpu, command: int, tick: nat)
    requires Ok(m)
    ensures Ok(Setting(m, command, tick))
  {
    hide NotesOff, ClearCounters, Cleared, ResetProtocol, Ok, RestartClock;
    if command == 0xb8 || command == 0xb9 {
      ClearedOk(m, tick);
    } else if 0xc2 <= command <= 0xc8 {
      RetimedOk(m, Timebase(command), 100);
    } else if command == RESET {
      ResetOk(m, tick);
    } else {
      SameShapeOk(m, Setting(m, command, tick));
    }
  }

  lemma CommandOk(m: Mpu, command: int, acknowledge: bool, tick: nat)
    requires Ok(m)
    ensures Ok(Command(m, command, acknowledge, tick))
  {
    hide Transport, Setting, Ok, Respond;
    TransportOk(m, command, tick);
    SettingOk(m, command, tick);
    RespondOk(m, [ACK, 0x15]);
    RespondOk(m, [ACK, 0x01]);
    RespondOk(m, [ACK, m.tempo]);
    RespondOk(Transport(m, command, tick), [ACK]);
    RespondOk(Setting(m, command, tick), [ACK]);
  }

  lemma ApplyOk(m: Mpu, parameter: Parameter, value: int)
    requires Ok(m)
    ensures Ok(Apply(m, parameter, value))
  {
    BitsOk(value);
  }

  lemma FinishConductorOk(m: Mpu, event: ConductorEvent)
    requires Ok(m)
    ensures Ok(FinishConductor(m, event))
  {
    hide Command, Apply;
    var a := Command(m.(parameter := None), event.command, false, m.now);
    CommandOk(m.(parameter := None), event.command, false, m.now);
    if event.parameter.Some? && a.parameter.Some? {
      ApplyOk(a.(parameter := None), a.parameter.value, event.parameter.value);
    }
  }

  lemma FinishTrackOk(m: Mpu, track: nat, event: TrackEvent)
    requires Ok(m) && track < 8
    ensures Ok(FinishTrack(m, track, event))
  {
    hide Emit;
    match event
    case Midi(bytes) => EmitOk(m, m.now, bytes); AskedOk(Emit(m, m.now, bytes), track);
    case Mark(byte) =>
      EmitOk(m, m.now, [0xfc]);
      AskedOk(Emit(m, m.now, [0xfc]).(active := m.active - {track}), track);
      AskedOk(m, track);
  }

  lemma AskedOk(m: Mpu, bit: nat)
    requires Ok(m) && bit <= END_BIT
    ensures Ok(m.(pending := m.pending + {bit})) && Ok(m.(pending := m.pending + {END_BIT}))
  {
  }

  lemma ExecuteOk(m: Mpu, action: Action)
    requires Ok(m) && (action.TrackAction? ==> action.track < 8)
    ensures Ok(Execute(m, action))
  {
    hide FinishTrack, FinishConductor;
    match action
    case TrackAction(track, event) => FinishTrackOk(m, track, event);
    case ConductorAction(event) => FinishConductorOk(m, event);
  }

  lemma TrackPulseOk(m: Mpu, track: nat)
    requires Ok(m)
    ensures Ok(TrackPulse(m, track))
  {
    hide FinishTrack;
    if track < |m.tracks| && m.tracks[track].event.Some? {
      var state := m.tracks[track];
      FinishTrackOk(m.(tracks := m.tracks[track := state.(counter := 0, event := None)]), track, state.event.value);
    }
  }

  lemma {:induction false} TracksPulseOk(m: Mpu, n: nat)
    requires Ok(m)
    ensures Ok(TracksPulse(m, n))
    decreases n
  {
    hide Ok, TrackPulse;
    if n > 0 {
      TracksPulseOk(m, n - 1);
      TrackPulseOk(TracksPulse(m, n - 1), n - 1);
    }
  }

  lemma ConductorPulseOk(m: Mpu)
    requires Ok(m)
    ensures Ok(ConductorPulse(m))
  {
    hide FinishConductor;
    if m.conductor.event.Some? {
      FinishConductorOk(m.(conductor := Conductor(0, None)), m.conductor.event.value);
    }
  }

  lemma PulseOk(m: Mpu)
    requires Ok(m)
    ensures Ok(Pulse(m))
  {
    hide TracksPulse, ConductorPulse;
    TracksPulseOk(m, 8);
    ConductorPulseOk(TracksPulse(m, 8));
  }

  lemma TickOk(m: Mpu)
    requires Ok(m)
    ensures Ok(Tick(m))
  {
    hide Pulse, Execute;
    if m.mode.Intelligent? {
      RateRange(m);
      var a := m.(now := m.now + 1, phase := if m.playing then m.phase + m.Rate() else m.phase);
      var b := if m.playing && a.phase >= CLOCK_NUMERATOR then Pulse(a.(phase := a.phase - CLOCK_NUMERATOR)) else a;
      if m.playing && a.phase >= CLOCK_NUMERATOR { PulseOk(a.(phase := a.phase - CLOCK_NUMERATOR)); }
      if b.immediate.Some? { ExecuteOk(b.(immediate := None), b.immediate.value.action); }
    }
  }

  lemma {:induction false} TickNOk(m: Mpu, n: nat)
    requires Ok(m)
    ensures Ok(TickN(m, n))
    decreases n
  {
    hide Ok, Tick;
    if n > 0 {
      TickNOk(m, n - 1);
      TickOk(TickN(m, n - 1));
    }
  }

  // ----- The handshake -----------------------------------------------------------

  /** A playing, intelligent sequencer that waits for nobody has nothing to ask. */
  predicate NoPending(m: Mpu) {
    m.mode.Intelligent? && m.playing && !m.Blocked() ==> m.pending == {}
  }

  lemma IssueNextSettles(m: Mpu)
    requires Ok(m)
    ensures Ok(IssueNext(m)) && NoPending(IssueNext(m))
  {
  }

  lemma ExecuteSettles(m: Mpu, action: Action)
    requires Ok(m) && (action.TrackAction? ==> action.track < 8)
    ensures Ok(Execute(m, action)) && NoPending(Execute(m, action))
  {
    hide FinishTrack, FinishConductor, IssueNext;
    match action
    case TrackAction(track, event) =>
      FinishTrackOk(m, track, event);
      IssueNextSettles(FinishTrack(m, track, event));
    case ConductorAction(event) =>
      FinishConductorOk(m, event);
      IssueNextSettles(FinishConductor(m, event));
  }

  lemma PulseSettles(m: Mpu)
    requires Ok(m)
    ensures Ok(Pulse(m)) && NoPending(Pulse(m))
  {
    hide TracksPulse, ConductorPulse, IssueNext;
    TracksPulseOk(m, 8);
    ConductorPulseOk(TracksPulse(m, 8));
    IssueNextSettles(ConductorPulse(TracksPulse(m, 8)));
  }

  lemma TickSettles(m: Mpu)
    requires Ok(m) && NoPending(m)
    ensures NoPending(Tick(m))
  {
    hide Pulse, Execute;
    if m.mode.Intelligent? {
      RateRange(m);
      var a := m.(now := m.now + 1, phase := if m.playing then m.phase + m.Rate() else m.phase);
      var b := if m.playing && a.phase >= CLOCK_NUMERATOR then Pulse(a.(phase := a.phase - CLOCK_NUMERATOR)) else a;
      if m.playing && a.phase >= CLOCK_NUMERATOR { PulseSettles(a.(phase := a.phase - CLOCK_NUMERATOR)); }
      if b.immediate.Some? { ExecuteSettles(b.(immediate := None), b.immediate.value.action); }
    }
  }

  /** Everything the guest or the machine can do to it. A port access carries the
      tick the machine stamps it with. */
  datatype Op = WaitTick | Order(command: int, tick: nat) | Write(value: int, tick: nat) | Read | Take

  function Do(m: Mpu, op: Op): Mpu {
    match op
    case WaitTick => Tick(m)
    case Order(command, tick) => WriteCommand(m, command, tick)
    case Write(value, tick) => WriteData(m, value, tick)
    case Read => ReadData(m).0
    case Take => TakeMessage(m).0
  }

  lemma OrderKept(m: Mpu, command: int, tick: nat)
    requires Ok(m) && NoPending(m)
    ensures Ok(WriteCommand(m, command, tick)) && NoPending(WriteCommand(m, command, tick))
  {
    hide Transport, Setting;
    CommandOk(m.(parameter := None), command, true, tick);
  }

  lemma TrackBytesKept(m: Mpu, request: Request, track: nat, tick: nat)
    requires Ok(m) && request.timing.Some? && request.bytes != [] && track < 8
    requires request.target == TrackTarget(track)
    ensures Ok(TrackBytes(m, request, track, tick)) && NoPending(TrackBytes(m, request, track, tick))
  {
    hide IssueNext;
    if |request.bytes| >= request.expected && request.timing.value != 0 {
      var event := if |request.bytes| == 1 then Mark(request.bytes[0]) else Midi(request.bytes);
      var loaded := m.tracks[track].(counter := request.timing.value, event := Some(event));
      IssueNextSettles(m.(tracks := m.tracks[track := loaded]));
    }
  }

  lemma FeedTrackKept(m: Mpu, request: Request, track: nat, value: int, tick: nat)
    requires Ok(m) && request.timing.Some? && track < 8 && request.target == TrackTarget(track)
    ensures Ok(FeedTrack(m, request, track, value, tick)) && NoPending(FeedTrack(m, request, track, value, tick))
  {
    hide TrackBytes, IssueNext, Ok, NoPending;
    TracksLen(m);
    if request.bytes != [] {
      TrackBytesKept(m, request.(bytes := request.bytes + [value]), track, tick);
    } else if 0x80 <= value <= 0xef {
      var m' := m.(tracks := m.tracks[track := m.tracks[track].(running := Some(value))]);
      RunningOk(m, track, value);
      TrackBytesKept(m', request.(bytes := [value], expected := MessageLen(value)), track, tick);
    } else if value == 0xf8 || value == 0xf9 || value == 0xfc {
      TrackBytesKept(m, request.(bytes := [value], expected := 1), track, tick);
    } else if value < 0x80 && m.tracks[track].running.Some? {
      var status := m.tracks[track].running.value;
      TrackBytesKept(m, request.(bytes := [status, value], expected := MessageLen(status)), track, tick);
    } else {
      IssueNextSettles(m);
    }
  }

  lemma TracksLen(m: Mpu)
    requires Ok(m)
    ensures |m.tracks| == 8
  {
  }

  lemma RunningOk(m: Mpu, track: nat, value: int)
    requires Ok(m) && track < |m.tracks|
    ensures Ok(m.(tracks := m.tracks[track := m.tracks[track].(running := Some(value))]))
  {
  }

  lemma FeedConductorKept(m: Mpu, request: Request, value: int, tick: nat)
    requires Ok(m) && request.timing.Some? && request.target.ConductorTarget?
    ensures Ok(FeedConductor(m, request, value, tick)) && NoPending(FeedConductor(m, request, value, tick))
  {
    hide IssueNext;
    var bytes := request.bytes + [value];
    var event := ConductorEvent(bytes[0], if |bytes| > 1 then Some(bytes[1]) else None);
    IssueNextSettles(m.(conductor := Conductor(request.timing.value, Some(event))));
  }

  lemma FeedRequestKept(m: Mpu, value: int, tick: nat)
    requires Ok(m) && m.request.Some?
    ensures Ok(FeedRequest(m, value, tick)) && NoPending(FeedRequest(m, value, tick))
  {
    hide IssueNext, FeedTrack, FeedConductor;
    var request, bare := m.request.value, m.(request := None);
    IssueNextSettles(bare);
    if request.timing.Some? {
      match request.target
      case TrackTarget(track) => FeedTrackKept(bare, request, track, value, tick);
      case ConductorTarget => FeedConductorKept(bare, request, value, tick);
    }
  }

  lemma WriteKept(m: Mpu, value: int, tick: nat)
    requires Ok(m) && NoPending(m)
    ensures Ok(WriteData(m, value, tick)) && NoPending(WriteData(m, value, tick))
  {
    hide Apply, FeedRequest, Push, EmitAll, Ok;
    if m.mode.Intelligent? && m.parameter.Some? {
      ParameterKept(m, value);
    } else if m.mode.Intelligent? && m.request.Some? {
      FeedRequestKept(m, value, tick);
    } else {
      var (parser, completed) := Push(m.parser, value);
      SameShapeOk(m, m.(parser := parser));
      EmitAllQueues(m.(parser := parser), tick, completed);
      QueuesOk(m.(parser := parser), EmitAll(m.(parser := parser), tick, completed));
    }
  }

  lemma ParameterKept(m: Mpu, value: int)
    requires Ok(m) && NoPending(m) && m.parameter.Some?
    ensures var m' := Apply(m.(parameter := None), m.parameter.value, value); Ok(m') && NoPending(m')
  {
    hide Ok;
    SameShapeOk(m, m.(parameter := None));
    ApplyOk(m.(parameter := None), m.parameter.value, value);
  }

  lemma ReadKept(m: Mpu)
    requires Ok(m) && NoPending(m)
    ensures Ok(ReadData(m).0) && NoPending(ReadData(m).0)
  {
    hide IssueNext;
    if m.input != [] {
      IssueNextSettles(m.(input := m.input[1..]));
    }
  }

  lemma DoKept(m: Mpu, op: Op)
    requires Ok(m) && NoPending(m)
    ensures Ok(Do(m, op)) && NoPending(Do(m, op))
  {
    hide Tick, WriteCommand, WriteData, ReadData;
    match op
    case WaitTick => TickOk(m); TickSettles(m);
    case Order(command, tick) => OrderKept(m, command, tick);
    case Write(value, tick) => WriteKept(m, value, tick);
    case Read => ReadKept(m);
    case Take =>
  }

  function Run(ops: seq<Op>): Mpu
    decreases |ops|
  {
    if ops == [] then PowerUp() else Do(Run(ops[..|ops| - 1]), ops[|ops| - 1])
  }

  /** From power-up, whatever the guest does and however time passes. */
  lemma {:induction false} EveryRun(ops: seq<Op>)
    ensures Ok(Run(ops)) && NoPending(Run(ops))
    decreases |ops|
  {
    hide Do;
    if ops != [] {
      EveryRun(ops[..|ops| - 1]);
      DoKept(Run(ops[..|ops| - 1]), ops[|ops| - 1]);
    }
  }

  // ----- Time ------------------------------------------------------------------------

  /** `n` ticks in which nothing happens. */
  function Passed(m: Mpu, n: nat): Mpu {
    m.(now := m.now + n, phase := if m.mode.Intelligent? && m.playing then m.phase + n * m.Rate() else m.phase)
  }

  lemma {:induction false} QuietRun(m: Mpu, n: nat)
    requires n > 0 && m.mode.Intelligent? && m.playing ==> m.phase + n * m.Rate() < CLOCK_NUMERATOR
    requires n > 0 && m.mode.Intelligent? && m.immediate.Some? ==> m.now + n < m.immediate.value.due
    ensures TickN(m, n) == Passed(m, n)
    decreases n
  {
    hide Pulse, Execute;
    if n > 0 {
      OneLess(n, m.Rate());
      QuietRun(m, n - 1);
    }
  }

  lemma OneLess(n: nat, r: nat)
    requires n > 0
    ensures n * r == (n - 1) * r + r && 0 <= (n - 1) * r
  {
  }

  lemma CeilBound(x: nat, r: nat, k: nat)
    requires 0 < r && k < (x + r - 1) / r
    ensures k * r < x
  {
    var q := (x + r - 1) / r;
    assert q * r <= x + r - 1;
    assert (k + 1) * r <= q * r;
  }

  /** A jump of at most the time to the next pulse and the next due event is that
      many single ticks: all but the last of them quiet. */
  lemma Jump(m: Mpu, step: nat)
    requires Ok(m) && step >= 1
    requires m.mode.Intelligent? && m.playing ==> step <= TicksUntilPulse(m)
    requires m.mode.Intelligent? && m.immediate.Some? ==> step <= TicksUntilDue(m)
    ensures TickN(m, step) == Tick(Passed(m, step - 1))
  {
    hide Tick;
    RateRange(m);
    if m.mode.Intelligent? && m.playing && step > 1 {
      CeilBound(CLOCK_NUMERATOR - m.phase, m.Rate(), step - 1);
    }
    QuietRun(m, step - 1);
  }

  lemma {:induction false} TickNSplit(m: Mpu, a: nat, b: nat)
    ensures TickN(m, a + b) == TickN(TickN(m, a), b)
    decreases b
  {
    hide Tick;
    if b > 0 { TickNSplit(m, a, b - 1); }
  }

  /** Nothing but the time and the phase has moved. */
  ghost predicate Undisturbed(m: Mpu, m': Mpu) {
    m' == m.(now := m'.now, phase := m'.phase)
  }

  lemma {:induction false} IdleTracks(m: Mpu, n: nat)
    requires m.active == {}
    ensures TracksPulse(m, n) == m
    decreases n
  {
    if n > 0 { IdleTracks(m, n - 1); }
  }

  /** A pulse moves nothing while the sequencer is blocked or has nothing to play. */
  lemma IdlePulse(m: Mpu)
    requires NoPending(m) && m.mode.Intelligent? && m.playing
    requires m.Blocked() || (m.active == {} && !m.conductorActive)
    ensures Pulse(m) == m
  {
    hide TracksPulse;
    if !m.Blocked() { IdleTracks(m, 8); }
  }

  predicate Idling(m: Mpu) { m.playing ==> m.Blocked() || (m.active == {} && !m.conductorActive) }

  lemma StillTick(m: Mpu)
    requires NoPending(m) && (m.mode.Intelligent? ==> Idling(m))
    requires m.mode.Intelligent? && m.immediate.Some? ==> m.now + 1 < m.immediate.value.due
    ensures Undisturbed(m, Tick(m))
  {
    hide Pulse, Execute;
    if m.mode.Intelligent? && m.playing && m.phase + m.Rate() >= CLOCK_NUMERATOR {
      IdlePulse(m.(now := m.now + 1, phase := m.phase + m.Rate() - CLOCK_NUMERATOR));
    }
  }

  lemma {:induction false} StillRun(m: Mpu, n: nat)
    requires NoPending(m) && (m.mode.Intelligent? ==> Idling(m))
    requires m.mode.Intelligent? && m.immediate.Some? && n > 0 ==> m.now + n < m.immediate.value.due
    ensures Undisturbed(m, TickN(m, n))
    decreases n
  {
    hide Tick;
    if n > 0 {
      StillRun(m, n - 1);
      StillTick(TickN(m, n - 1));
    }
  }

  /** The wake-up is never late: before it, or ever if there is none, no queue, no
      track, no request and no event changes. */
  lemma NothingBeforeEvent(m: Mpu, n: nat)
    requires Ok(m) && NoPending(m)
    requires TicksUntilEvent(m).None? || n < TicksUntilEvent(m).value
    ensures Undisturbed(m, TickN(m, n))
  {
    hide Tick, TickN;
    RateRange(m);
    if m.mode.Intelligent? && !Idling(m) {
      if n > 0 { CeilBound(CLOCK_NUMERATOR - m.phase, m.Rate(), n); }
      QuietRun(m, n);
    } else {
      StillRun(m, n);
    }
  }

  /** The same from power-up, after any run. */
  lemma WakeUpIsSound(ops: seq<Op>, n: nat)
    requires TicksUntilEvent(Run(ops)).None? || n < TicksUntilEvent(Run(ops)).value
    ensures Undisturbed(Run(ops), TickN(Run(ops), n))
  {
    hide Run, TickN, TicksUntilEvent, Ok, NoPending;
    EveryRun(ops);
    NothingBeforeEvent(Run(ops), n);
  }

  // ----- The clock ---------------------------------------------------------------------

  /** The next tick brings a clock pulse. */
  predicate PulseDue(m: Mpu) { m.mode.Intelligent? && m.playing && m.phase + m.Rate() >= CLOCK_NUMERATOR }

  function PulsesIn(m: Mpu, n: nat): nat {
    if n == 0 then 0 else PulsesIn(m, n - 1) + if PulseDue(TickN(m, n - 1)) then 1 else 0
  }

  /** A conductor's order that leaves the clock alone while it runs: no stop, no
      change of mode, timebase or tempo, no reset. */
  predicate KeepsClock(event: ConductorEvent) {
    var c := event.command;
    && !(c <= 0x2f && 4 <= c % 16 < 8) && c != 0x3f && !(0xc2 <= c <= 0xc8)
    && !(c == 0xe0 && event.parameter.Some?) && c != RESET
  }

  /** Playing at a constant tempo: the orders the conductor has in hand, if any, are
      of that kind. Without the guest no other can come. */
  predicate Steady(m: Mpu) {
    && Ok(m) && m.mode.Intelligent? && m.playing
    && (m.conductor.event.Some? ==> KeepsClock(m.conductor.event.value))
    && (m.immediate.Some? && m.immediate.value.action.ConductorAction? ==> KeepsClock(m.immediate.value.action.order))
  }

  /** The clock has not moved, and no order was added to those in hand. */
  ghost predicate ClockSame(m: Mpu, m': Mpu) {
    && m'.mode == m.mode && m'.playing == m.playing && m'.timebase == m.timebase && m'.tempo == m.tempo
    && m'.phase == m.phase && (m'.immediate == m.immediate || m'.immediate.None?)
    && (m'.conductor.event == m.conductor.event || m'.conductor.event.None?)
  }

  lemma FinishTrackClock(m: Mpu, track: nat, event: TrackEvent)
    ensures ClockSame(m, FinishTrack(m, track, event))
  {
    hide Emit;
    assert ClockSame(m, Emit(m, m.now, [0xfc])) by { EmitClock(m, m.now, [0xfc]); }
    if event.Midi? { EmitClock(m, m.now, event.bytes); }
  }

  lemma EmitClock(m: Mpu, tick: nat, bytes: seq<int>)
    ensures ClockSame(m, Emit(m, tick, bytes))
  {
  }

  lemma IssueNextClock(m: Mpu)
    ensures ClockSame(m, IssueNext(m))
  {
  }

  lemma TrackPulseClock(m: Mpu, track: nat)
    ensures ClockSame(m, TrackPulse(m, track))
  {
    hide FinishTrack, TrackOutstanding;
    if track < |m.tracks| && m.tracks[track].event.Some? {
      var state := m.tracks[track];
      FinishTrackClock(m.(tracks := m.tracks[track := state.(counter := 0, event := None)]), track, state.event.value);
    }
  }

  lemma {:induction false} TracksClock(m: Mpu, n: nat)
    ensures ClockSame(m, TracksPulse(m, n))
    decreases n
  {
    hide TrackPulse;
    if n > 0 {
      TracksClock(m, n - 1);
      TrackPulseClock(TracksPulse(m, n - 1), n - 1);
    }
  }

  lemma NotesOffClock(m: Mpu, tick: nat, n: nat)
    ensures ClockSame(m, NotesOff(m, tick, n))
  {
    NotesOffQueues(m, tick, n);
  }

  /** Carrying out an order that keeps the clock keeps it. */
  lemma SettingClock(m: Mpu, event: ConductorEvent)
    requires KeepsClock(event) && m.mode.Intelligent? && event.command > 0x2f
    ensures ClockSame(m, Setting(m, event.command, m.now))
    ensures m.parameter.None? && Setting(m, event.command, m.now).parameter == Some(Tempo) ==> event.command == 0xe0
  {
    NotesOffClock(Cleared(m), m.now, 16);
    NotesOffQueues(Cleared(m), m.now, 16);
  }

  lemma CommandClock(m: Mpu, event: ConductorEvent)
    requires KeepsClock(event) && m.mode.Intelligent? && m.playing && m.parameter.None?
    ensures var a := Command(m, event.command, false, m.now);
      ClockSame(m, a) && (a.parameter == Some(Tempo) ==> event.command == 0xe0)
  {
    hide Setting;
    if event.command <= 0x2f {
      EmitClock(m, m.now, [0xfc]);
      EmitClock(m, m.now, [0xfb]);
      EmitClock(m, m.now, [0xfa]);
    } else {
      SettingClock(m, event);
    }
  }

  lemma FinishConductorClock(m: Mpu, event: ConductorEvent)
    requires KeepsClock(event) && m.mode.Intelligent? && m.playing
    ensures ClockSame(m, FinishConductor(m, event))
  {
    hide Command;
    CommandClock(m.(parameter := None), event);
  }

  lemma StopMoves(m: Mpu, command: int, tick: nat)
    requires command <= 0x2f && 4 <= command % 16 < 8
    ensures !Transport(m, command, tick).playing
  {
    hide NotesOff, Emit;
    var a := if command % 4 == 1 then Emit(m, tick, [0xfc])
             else if command % 4 == 2 then Emit(m, tick, [0xfb])
             else if command % 4 == 3 then Emit(m, tick, [0xfa]) else m;
    NotesOffQueues(a.(playing := false, pending := {}, request := None, immediate := None), tick, 16);
  }

  lemma ResetMoves(m: Mpu, tick: nat)
    ensures !ResetProtocol(m, tick).playing
  {
    hide NotesOff;
    NotesOffQueues(Emit(PowerUp().(output := m.output, now := m.now), tick, [RESET]), tick, 16);
  }

  lemma OthersMove(m: Mpu, event: ConductorEvent)
    requires !KeepsClock(event) && m.mode.Intelligent? && m.playing
    ensures var a := Command(m, event.command, false, m.now);
      || !a.playing || a.mode.Uart? || a.phase == 0
      || (event.command == 0xe0 && event.parameter.Some? && a == m.(parameter := Some(Tempo)))
  {
    hide Transport, ResetProtocol, NotesOff, Cleared, ClearCounters;
    if event.command <= 0x2f { StopMoves(m, event.command, m.now); }
    ResetMoves(m, m.now);
  }

  /** And no other order does: in mid-pulse, what keeps the clock is exactly that. */
  lemma OnlyThoseKeep(m: Mpu, event: ConductorEvent)
    requires m.mode.Intelligent? && m.playing && m.phase > 0
    ensures ClockSame(m, FinishConductor(m, event)) <==> KeepsClock(event)
  {
    hide Command, KeepsClock;
    if KeepsClock(event) {
      FinishConductorClock(m, event);
    } else {
      OthersMove(m.(parameter := None), event);
    }
  }

  lemma ConductorClock(m: Mpu)
    requires m.mode.Intelligent? && m.playing && (m.conductor.event.Some? ==> KeepsClock(m.conductor.event.value))
    ensures ClockSame(m, ConductorPulse(m))
  {
    hide FinishConductor;
    if m.conductor.event.Some? {
      FinishConductorClock(m.(conductor := Conductor(0, None)), m.conductor.event.value);
    }
  }

  lemma PulseClock(m: Mpu)
    requires m.mode.Intelligent? && m.playing && (m.conductor.event.Some? ==> KeepsClock(m.conductor.event.value))
    ensures ClockSame(m, Pulse(m))
  {
    hide TracksPulse, IssueNext, ConductorPulse;
    TracksClock(m, 8);
    ConductorClock(TracksPulse(m, 8));
    IssueNextClock(ConductorPulse(TracksPulse(m, 8)));
  }

  lemma SteadyTick(m: Mpu)
    requires Steady(m)
    ensures var m' := Tick(m);
      && Steady(m') && m'.Rate() == m.Rate()
      && m'.phase == m.phase + m.Rate() - if PulseDue(m) then CLOCK_NUMERATOR else 0
  {
    hide Pulse, Ok, Execute, KeepsClock;
    TickOk(m);
    var a := m.(now := m.now + 1, phase := m.phase + m.Rate());
    PulseClock(a.(phase := a.phase - if PulseDue(m) then CLOCK_NUMERATOR else 0));
    var b := if PulseDue(m) then Pulse(a.(phase := a.phase - CLOCK_NUMERATOR)) else a;
    if b.immediate.Some? { ActionClock(b.(immediate := None), b.immediate.value.action); }
  }

  lemma ActionClock(m: Mpu, action: Action)
    requires m.mode.Intelligent? && m.playing && (action.ConductorAction? ==> KeepsClock(action.order))
    ensures ClockSame(m, Execute(m, action))
  {
    hide FinishTrack, FinishConductor, IssueNext, KeepsClock;
    match action
    case TrackAction(track, event) =>
      FinishTrackClock(m, track, event);
      IssueNextClock(FinishTrack(m, track, event));
    case ConductorAction(event) =>
      FinishConductorClock(m, event);
      IssueNextClock(FinishConductor(m, event));
  }

  /** At a constant tempo the pulses are counted exactly: after `n` ticks the whole
      numerators in the phase run up are the pulses, and the rest is the phase. */
  lemma {:induction false} PulseCount(m: Mpu, n: nat)
    requires Steady(m)
    ensures Steady(TickN(m, n)) && TickN(m, n).Rate() == m.Rate()
    ensures PulsesIn(m, n) * CLOCK_NUMERATOR + TickN(m, n).phase == m.phase + n * m.Rate()
    decreases n
  {
    hide Tick, Ok;
    if n > 0 {
      PulseCount(m, n - 1);
      SteadyTick(TickN(m, n - 1));
      OneLess(n, m.Rate());
    }
  }

  lemma Counted(pulses: nat, phase: nat, x: nat)
    requires phase < CLOCK_NUMERATOR && pulses * CLOCK_NUMERATOR + phase == x
    ensures pulses == x / (60 * MASTER_CLOCK_HZ) && phase == x % (60 * MASTER_CLOCK_HZ)
  {
    Quotient(pulses, 60 * MASTER_CLOCK_HZ, phase, x);
  }

  /** From phase zero, `n` ticks of playing bring exactly the integer part of
      `n * timebase * tempo / (60 * MASTER_CLOCK_HZ)` pulses. */
  lemma PulseRate(m: Mpu, n: nat)
    requires Steady(m) && m.phase == 0
    ensures PulsesIn(m, n) == n * (m.timebase * m.tempo) / (60 * MASTER_CLOCK_HZ)
    ensures TickN(m, n).phase == n * (m.timebase * m.tempo) % (60 * MASTER_CLOCK_HZ)
  {
    hide TickN, PulsesIn;
    PulseCount(m, n);
    Counted(PulsesIn(m, n), TickN(m, n).phase, n * (m.timebase * m.tempo));
  }
}
