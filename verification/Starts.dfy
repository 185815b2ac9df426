/** How a start of a decode goes from the call of `frame` to the eviction loop, as a
    run of the protocol from a state at rest. */
module Starts {
  import opened CdAudioTypes
  import opened Residency
  import opened ResidencyProof

  lemma Extend(start: State, run: seq<Step>, s: State, step: Step)
    requires Reached(start, run, s) && Wf(s) && Enabled(s, step)
    ensures Reached(start, run + [step], Apply(s, step)) && Wf(Apply(s, step))
  {
    hide Apply, Enabled, Init, Wf;
    var more := run + [step];
    assert more[..|more| - 1] == run;
    assert more[|more| - 1] == step;
    RunKept(start, more, Apply(s, step));
    assert Wf(Apply(s, step)) by { InvIsWf(Apply(s, step)); }
  }

  lemma InvIsWf(s: State)
    requires Inv(s)
    ensures Wf(s)
  {
  }

  /** A track nobody ever touched, or whose buffer was taken back. */
  predicate Blank(s: State, t: nat) {
    && t < |s.tracks| && t < |s.disc| && s.disc[t].registered && s.disc[t].sectors > 0
    && s.tracks[t].pcm == [] && s.tracks[t].ready == 0 && !s.tracks[t].started && !s.tracks[t].finished
  }

  lemma Taken(start: State, run: seq<Step>, s: State, step: Step) returns (run': seq<Step>, s': State)
    requires Reached(start, run, s) && Wf(s) && Enabled(s, step)
    ensures Reached(start, run', s') && Wf(s') && s' == Apply(s, step)
  {
    Extend(start, run, s, step);
    run', s' := run + [step], Apply(s, step);
  }

  /** `s` is the state at rest `s0` but for one thread at `pc`, one track, one stamp
      taken, the list of residents and the log. */
  ghost predicate Amid(s0: State, s: State, th: nat, pc: Pc, t: nat, track: Track, resident: seq<nat>) {
    && t < |s0.tracks| && |s0.tracks| == |s0.disc| && th in s0.threads && Quiescent(s0)
    && s.disc == s0.disc && s.tracks == s0.tracks[t := track]
    && s.threads == s0.threads[th := pc] && s.resident == resident && s.clock == s0.clock + 1
  }

  lemma Called(start: State, run: seq<Step>, s0: State, th: nat, t: nat) returns (run': seq<Step>, s': State)
    requires Reached(start, run, s0) && Wf(s0) && Quiescent(s0) && th in s0.threads && s0.threads[th].Idle?
             && Blank(s0, t)
    ensures Reached(start, run', s') && Wf(s')
    ensures Amid(s0, s', th, Stamped(t, 0, s0.clock), t, s0.tracks[t], s0.resident)
  {
    hide Reached, Init;
    run', s' := Taken(start, run, s0, CallFrame(th, t, 0));
    run', s' := Taken(start, run', s', TakeStamp(th));
  }

  lemma Silent(start: State, run: seq<Step>, s0: State, s: State, th: nat, t: nat) returns (run': seq<Step>, s': State)
    requires Reached(start, run, s) && Wf(s) && Blank(s0, t)
    requires Amid(s0, s, th, Stamped(t, 0, s0.clock), t, s0.tracks[t], s0.resident)
    ensures Reached(start, run', s') && Wf(s')
    ensures Amid(s0, s', th, Swapping(t), t, s0.tracks[t].(touch := s0.clock), s0.resident)
  {
    hide Reached, Init, Wf;
    run', s' := Taken(start, run, s, StoreTouch(th));
    run', s' := Taken(start, run', s', ReadFrame(th));
  }

  /** The track once its buffer was made. */
  function Pinned(s0: State, t: nat): Track
    requires t < |s0.tracks| && t < |s0.disc|
  {
    Track(Zeros(s0.disc[t].Size()), 0, false, s0.tracks[t].finished, s0.tracks[t].cancel, s0.clock)
  }

  lemma Begun(start: State, run: seq<Step>, s0: State, s: State, th: nat, t: nat) returns (run': seq<Step>, s': State)
    requires Reached(start, run, s) && Wf(s) && Blank(s0, t)
    requires Amid(s0, s, th, Swapping(t), t, s0.tracks[t].(touch := s0.clock), s0.resident)
    ensures Reached(start, run', s') && Wf(s')
    ensures Amid(s0, s', th, Admitting(t), t, Pinned(s0, t).(started := true), s0.resident)
  {
    hide Reached, Init, Wf;
    run', s' := Taken(start, run, s, SwapStarted(th));
    run', s' := Taken(start, run', s', Allocate(th));
  }

  lemma Admitted(start: State, run: seq<Step>, s0: State, s: State, th: nat, t: nat)
    returns (run': seq<Step>, s': State)
    requires Reached(start, run, s) && Wf(s) && Blank(s0, t)
    requires Amid(s0, s, th, Admitting(t), t, Pinned(s0, t).(started := true), s0.resident)
    ensures Reached(start, run', s') && Wf(s')
    ensures Amid(s0, s', th, Evicting(Counting(0, 0), ThenSpawn(t)), t, Pinned(s0, t).(started := true),
                 Without(s0.resident, t) + [t])
  {
    hide Reached, Init, Wf;
    run', s' := Taken(start, run, s, Admit(th));
    run', s' := Taken(start, run', s', LockRegistry(th));
  }
}
