/** The MPU-401 as the machine drives it: the jumping clock loop, the pulse loop
    over the tracks, and the guest's ports. Each method is proved against the value
    model, in which time passes one tick at a time. */
module Mpu401Device {
  import opened Wrappers
  import opened MidiParsing
  import opened Mpu401Model
  import opened Mpu401Proof

  /** The device at a later tick. */
  function Advanced(m: Mpu, target: nat): Mpu {
    if target <= m.now then m else TickN(m, target - m.now)
  }

  /** Looking in between changes nothing, timestamps included. */
  lemma PollingChangesNothing(m: Mpu, a: nat, b: nat)
    requires m.now <= a <= b
    ensures Advanced(Advanced(m, a), b) == Advanced(m, b)
  {
    hide Tick;
    TickNSplit(m, a - m.now, b - a);
  }

  class Mpu401 {
    var s: Mpu

    constructor ()
      ensures s == PowerUp() && Ok(s) && NoPending(s)
    {
      s := PowerUp();
    }

    method QueueResponse(bytes: seq<int>)
      requires |bytes| <= INPUT_CAPACITY
      modifies this
      ensures s == Respond(old(s), bytes)
    {
      var input := s.input;
      while |input| + |bytes| > INPUT_CAPACITY
        invariant |input| <= |s.input| && input == s.input[..|input|]
        invariant |input| < |s.input| ==> |input| + |bytes| >= INPUT_CAPACITY
        invariant s == old(s)
        decreases |input|
      {
        input := input[..|input| - 1];
      }
      s := s.(input := input + bytes);
    }

    method AllNotesOff(tick: nat)
      modifies this
      ensures s == NotesOff(old(s), tick, 16)
    {
      for channel := 0 to 16
        invariant s == NotesOff(old(s), tick, channel)
      {
        s := Emit(s, tick, [0xb0 + channel, 123, 0]);
      }
    }

    method IssueNextRequest()
      modifies this
      ensures s == IssueNext(old(s))
    {
      hide LowestBit, Respond;
      if s.mode.Uart? || !s.playing || s.Blocked() {
        return;
      }
      for bit := 0 to 13
        invariant s == old(s) && LowestBit(s.pending, 0) == LowestBit(s.pending, bit)
      {
        LowestStep(s.pending, bit);
        if bit in s.pending {
          s := s.(pending := s.pending - {bit});
          QueueResponse([0xf0 + bit]);
          return;
        }
      }
      LowestStep(s.pending, 13);
    }

    method ClockTick()
      requires |s.tracks| == 8
      modifies this
      ensures s == Pulse(old(s))
    {
      hide IssueNext, FinishTrack, FinishConductor, TracksPulse;
      if s.Blocked() {
        return;
      }
      TracksNone(s);
      for track := 0 to 8
        invariant s == TracksPulse(old(s), track)
      {
        TracksStep(old(s), track);
        if track in s.active {
          var state := s.tracks[track];
          if state.event.Some? {
            var counter := Less(state.counter);
            if counter > 0 {
              s := s.(tracks := s.tracks[track := state.(counter := counter)]);
            } else {
              s := s.(tracks := s.tracks[track := state.(counter := 0, event := None)]);
              s := FinishTrack(s, track, state.event.value);
            }
          } else if !TrackOutstanding(s, track) {
            s := s.(pending := s.pending + {track});
          }
        }
      }
      if s.conductorActive {
        if s.conductor.event.Some? {
          var event := s.conductor.event.value;
          s := s.(conductor := s.conductor.(counter := Less(s.conductor.counter)));
          if s.conductor.counter == 0 {
            s := s.(conductor := Conductor(0, None));
            s := FinishConductor(s, event);
          }
        } else if !ConductorOutstanding(s) {
          s := s.(pending := s.pending + {CONDUCTOR_BIT});
        }
      }
      IssueNextRequest();
    }

    /** Jump from event to event. The result is that of single ticks. */
    method AdvanceTo(target: nat)
      requires Ok(s)
      modifies this
      ensures s == Advanced(old(s), target) && Ok(s)
    {
      hide Tick, TickN, Pulse, Execute, Ok, TicksUntilPulse, TicksUntilDue;
      TickNNone(s);
      while s.now < target
        invariant Ok(s) && s.now >= old(s.now)
        invariant if target > old(s.now) then s.now <= target else s == old(s)
        invariant s == TickN(old(s), s.now - old(s.now))
      {
        var intelligent := s.mode.Intelligent?;
        var pulse := if intelligent && s.playing then Some(TicksUntilPulse(s)) else None;
        var due := if intelligent && s.immediate.Some? then Some(TicksUntilDue(s)) else None;
        var next := Sooner(pulse, due);
        if next.None? {
          NothingComes(s, target - s.now);
          TickNSplit(old(s), s.now - old(s.now), target - s.now);
          TickNOk(s, target - s.now);
          s := s.(now := target);
          return;
        }
        StepPositive(s);
        var step := if next.value <= target - s.now then next.value else target - s.now;
        TickNSplit(old(s), s.now - old(s.now), step);
        TickNOk(s, step);
        TakeStep(step);
      }
    }

    /** One jump, and whatever falls due at its end. */
    method TakeStep(step: nat)
      requires Ok(s) && step >= 1
      requires s.mode.Intelligent? && s.playing ==> step <= TicksUntilPulse(s)
      requires s.mode.Intelligent? && s.immediate.Some? ==> step <= TicksUntilDue(s)
      requires s.mode.Intelligent?
      modifies this
      ensures s == TickN(old(s), step)
    {
      hide Tick, TickN, Pulse, Execute, Ok, TicksUntilPulse, TicksUntilDue;
      Jump(s, step);
      LastTick(s, step);
      TracksLen(s);
      var playing := s.playing;
      s := s.(phase := if playing then s.phase + step * s.Rate() else s.phase, now := s.now + step);
      if playing && s.phase >= CLOCK_NUMERATOR {
        s := s.(phase := s.phase - CLOCK_NUMERATOR);
        ClockTick();
      }
      if s.immediate.Some? && s.immediate.value.due <= s.now {
        var action := s.immediate.value.action;
        s := s.(immediate := None);
        s := Execute(s, action);
      }
    }

    method StatusAt(tick: nat) returns (status: int)
      requires Ok(s)
      modifies this
      ensures s == Advanced(old(s), tick) && Ok(s) && (status == 0x80 <==> s.input == [])
              && (status == 0 <==> s.input != [])
    {
      AdvanceTo(tick);
      return if s.input == [] then 0x80 else 0;
    }

    method ReadDataAt(tick: nat) returns (value: int)
      requires Ok(s)
      modifies this
      ensures (s, value) == ReadData(Advanced(old(s), tick))
    {
      AdvanceTo(tick);
      var (m, v) := ReadData(s);
      s := m;
      return v;
    }

    method WriteCommandAt(command: int, tick: nat)
      requires Ok(s)
      modifies this
      ensures s == WriteCommand(Advanced(old(s), tick), command, tick)
    {
      AdvanceTo(tick);
      s := WriteCommand(s, command, tick);
    }

    method WriteDataAt(value: int, tick: nat)
      requires Ok(s)
      modifies this
      ensures s == WriteData(Advanced(old(s), tick), value, tick)
    {
      AdvanceTo(tick);
      s := WriteData(s, value, tick);
    }
  }

  lemma LowestStep(pending: set<nat>, from: nat)
    requires from <= 13
    ensures LowestBit(pending, from) ==
      if from > END_BIT then None else if from in pending then Some(from) else LowestBit(pending, from + 1)
  {
  }

  lemma TracksNone(m: Mpu)
    ensures TracksPulse(m, 0) == m
  {
  }

  lemma TracksStep(m: Mpu, n: nat)
    ensures TracksPulse(m, n + 1) == TrackPulse(TracksPulse(m, n), n)
  {
  }

  lemma TickNNone(m: Mpu)
    ensures TickN(m, 0) == m
  {
  }

  lemma NothingComes(m: Mpu, n: nat)
    requires m.mode.Uart? || (!m.playing && m.immediate.None?)
    ensures TickN(m, n) == m.(now := m.now + n)
  {
    hide Tick, TickN;
    QuietRun(m, n);
  }

  lemma StepPositive(m: Mpu)
    requires Ok(m)
    ensures TicksUntilPulse(m) >= 1 && (m.immediate.Some? ==> TicksUntilDue(m) >= 1)
  {
    RateRange(m);
    Ceiling(CLOCK_NUMERATOR - m.phase, m.Rate());
  }

  lemma Ceiling(x: int, r: int)
    requires x >= 1 && r >= 1
    ensures (x + r - 1) / r >= 1
  {
  }

  /** The last tick of a jump, as the loop takes it. */
  lemma LastTick(m: Mpu, step: nat)
    requires step >= 1
    ensures Tick(Passed(m, step - 1)) ==
      var a := m.(phase := if m.mode.Intelligent? && m.playing then m.phase + step * m.Rate() else m.phase,
                  now := m.now + step);
      if m.mode.Uart? then a else
      var b := if m.playing && a.phase >= CLOCK_NUMERATOR then Pulse(a.(phase := a.phase - CLOCK_NUMERATOR)) else a;
      if b.immediate.Some? && b.immediate.value.due <= b.now
      then Execute(b.(immediate := None), b.immediate.value.action) else b
  {
    hide Pulse, Execute;
    OneLess(step, m.Rate());
  }
}
