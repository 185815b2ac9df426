/** Eviction is not always least recently used: a touch takes no lock, so one stored
    while the search for a victim is under way can be missed. Here is a run in which
    the track evicted is the one touched last of all. */
module TouchRace {
  import opened Wrappers
  import opened CdAudioTypes
  import opened Residency
  import opened ResidencyProof
  import opened Starts

  /** `s0` with the worker `w` come and gone. */
  function Joined(s0: State, w: nat): State {
    s0.(threads := s0.threads[w := Exited])
  }

  /** A track decoded and let go. */
  function Decoded(s0: State, t: nat): Track
    requires t < |s0.tracks| && t < |s0.disc|
  {
    Pinned(s0, t).(started := true, finished := true)
  }

  /** With room in the registry a start goes straight on to its thread. */
  lemma Spawned(start: State, run: seq<Step>, s0: State, s: State, c: nat, w: nat, t: nat, list: seq<nat>)
    returns (run': seq<Step>, s': State)
    requires Reached(start, run, s) && Wf(s) && Blank(s0, t) && |list| <= MAX_RESIDENT && w !in s0.threads
    requires c in s0.threads && s0.threads[c].Idle?
    requires Amid(s0, s, c, Evicting(Counting(0, 0), ThenSpawn(t)), t, Pinned(s0, t).(started := true), list)
    ensures Reached(start, run', s') && Wf(s')
    ensures Amid(Joined(s0, w), s', w, Decoding(t, Worker(0, 0, 0, 0)), t, Pinned(s0, t).(started := true), list)
  {
    hide Reached, Init, Wf, Pinned;
    run', s' := Taken(start, run, s, CountNext(c));
    run', s' := Taken(start, run', s', Spawn(c, w));
    assert s'.threads == Joined(s0, w).threads[w := Decoding(t, Worker(0, 0, 0, 0))];
  }

  /** A worker whose file fails to decode still sets the flag. */
  lemma Failed(start: State, run: seq<Step>, s0: State, s: State, w: nat, t: nat, track: Track, list: seq<nat>)
    returns (run': seq<Step>, s': State)
    requires Reached(start, run, s) && Wf(s) && Blank(s0, t)
    requires Amid(s0, s, w, Decoding(t, Worker(0, 0, 0, 0)), t, track, list)
    ensures Reached(start, run', s') && Wf(s')
    ensures Amid(s0, s', w, Evicting(Waiting, ThenExit), t, track.(finished := true), list)
  {
    hide Reached, Init, Wf;
    run', s' := Taken(start, run, s, FailDecode(w));
    run', s' := Taken(start, run', s', Finish(w));
  }

  /** With room in the registry a worker leaves it as it found it. */
  lemma Left(start: State, run: seq<Step>, s0: State, s: State, w: nat, t: nat, track: Track, list: seq<nat>)
    returns (run': seq<Step>, s': State)
    requires Reached(start, run, s) && Wf(s) && |list| <= MAX_RESIDENT
    requires Amid(s0, s, w, Evicting(Waiting, ThenExit), t, track, list)
    ensures Reached(start, run', s') && Wf(s')
    ensures Amid(s0, s', w, Exited, t, track, list)
  {
    hide Reached, Init, Wf;
    run', s' := Taken(start, run, s, LockRegistry(w));
    run', s' := Taken(start, run', s', CountNext(w));
  }

  /** A whole decode from its first touch to the exit of its worker. */
  lemma StartAndEnd(start: State, run: seq<Step>, s0: State, c: nat, w: nat, t: nat)
    returns (run': seq<Step>, s': State)
    requires Reached(start, run, s0) && Wf(s0) && Quiescent(s0) && c in s0.threads && s0.threads[c].Idle?
    requires Blank(s0, t) && w !in s0.threads && |Without(s0.resident, t)| < MAX_RESIDENT
    ensures Reached(start, run', s') && Wf(s')
    ensures Amid(Joined(s0, w), s', w, Exited, t, Decoded(s0, t), Without(s0.resident, t) + [t])
  {
    hide Reached, Wf, Amid, Pinned;
    run', s' := Called(start, run, s0, c, t);
    run', s' := Silent(start, run', s0, s', c, t);
    run', s' := Begun(start, run', s0, s', c, t);
    run', s' := Admitted(start, run', s0, s', c, t);
    var list := Without(s0.resident, t) + [t];
    run', s' := Spawned(start, run', s0, s', c, w, t, list);
    run', s' := Failed(start, run', Joined(s0, w), s', w, t, Pinned(s0, t).(started := true), list);
    run', s' := Left(start, run', Joined(s0, w), s', w, t, Decoded(s0, t), list);
  }

  /** The first `n` tracks are resident and finished, each touched before the next,
      and nobody ever touched the others. */
  ghost predicate DecodedTo(s: State, n: nat) {
    && |s.tracks| == |s.disc| >= 3 && n <= 2 && s.resident == [0, 1][..n] && Quiescent(s)
    && (forall t: nat :: t < 3 ==> s.disc[t].registered && s.disc[t].sectors > 0)
    && (forall t: nat :: t < n ==> s.tracks[t].finished && s.tracks[t].touch < s.clock)
    && (forall t: nat :: t + 1 < n ==> s.tracks[t].touch < s.tracks[t + 1].touch)
    && (forall t: nat :: n <= t < |s.tracks| ==> s.tracks[t] == Track([], 0, false, false, false, 0))
  }

  lemma OneMoreDecoded(s0: State, s: State, w: nat, n: nat)
    requires DecodedTo(s0, n) && n < 2 && w !in s0.threads
    requires Amid(Joined(s0, w), s, w, Exited, n, Decoded(s0, n), Without(s0.resident, n) + [n])
    ensures DecodedTo(s, n + 1) && s.threads == s0.threads[w := Exited]
  {
    Untouched(s0.resident, n);
  }

  lemma PrepareTwo(start: State, c: nat, w0: nat, w1: nat) returns (run: seq<Step>, s: State)
    requires Init(start) && c in start.threads && w0 !in start.threads && w1 !in start.threads && w0 != w1
    requires |start.disc| >= 3 && forall t: nat :: t < 3 ==> start.disc[t].registered && start.disc[t].sectors > 0
    ensures Reached(start, run, s) && Wf(s) && DecodedTo(s, 2)
    ensures s.threads == start.threads[w0 := Exited][w1 := Exited]
  {
    hide Reached, Amid, Wf, DecodedTo, Pinned, Decoded;
    NothingDecoded(start);
    DecodedMeans(start, 0);
    run, s := StartAndEnd(start, [], start, c, w0, 0);
    OneMoreDecoded(start, s, w0, 0);
    var s0 := s;
    DecodedMeans(s0, 1);
    run, s := StartAndEnd(start, run, s0, c, w1, 1);
    OneMoreDecoded(s0, s, w1, 1);
  }

  lemma NothingDecoded(start: State)
    requires Init(start)
    requires |start.disc| >= 3 && forall t: nat :: t < 3 ==> start.disc[t].registered && start.disc[t].sectors > 0
    ensures Reached(start, [], start) && Wf(start) && DecodedTo(start, 0)
    ensures forall a :: a in start.threads ==> start.threads[a].Idle?
  {
    InitKept(start);
    InvIsWf(start);
  }

  lemma DecodedMeans(s: State, n: nat)
    requires DecodedTo(s, n)
    ensures Quiescent(s) && Blank(s, n) && Without(s.resident, n) == s.resident == [0, 1][..n]
  {
    Untouched(s.resident, n);
  }

  /** `s` is the state at rest `s0` but for the start of track 2, whose caller `c` has
      its place in the registry and is at `stage` of its eviction loop. */
  ghost predicate Full(s0: State, s: State, c: nat, stage: Stage) {
    && DecodedTo(s0, 2)
    && Amid(s0, s, c, Evicting(stage, ThenSpawn(2)), 2, Pinned(s0, 2).(started := true), [0, 1, 2])
  }

  /** The third start finds the registry full and begins to look for a victim. */
  lemma ThirdStart(start: State, run: seq<Step>, s0: State, c: nat) returns (run': seq<Step>, s': State)
    requires Reached(start, run, s0) && Wf(s0) && DecodedTo(s0, 2) && c in s0.threads && s0.threads[c].Idle?
    ensures Reached(start, run', s') && Wf(s') && Full(s0, s', c, Counting(0, 0))
  {
    hide Reached, Wf, Amid, Pinned, DecodedTo;
    DecodedMeans(s0, 2);
    run', s' := Called(start, run, s0, c, 2);
    run', s' := Silent(start, run', s0, s', c, 2);
    run', s' := Begun(start, run', s0, s', c, 2);
    run', s' := Admitted(start, run', s0, s', c, 2);
    assert [0, 1][..2] + [2] == [0, 1, 2];
  }

  /** It counts two finished tracks among the three. */
  lemma TwoCounted(start: State, run: seq<Step>, s0: State, s: State, c: nat) returns (run': seq<Step>, s': State)
    requires Reached(start, run, s) && Wf(s) && Full(s0, s, c, Counting(0, 0)) && !s0.tracks[2].finished
    ensures Reached(start, run', s') && Wf(s') && Full(s0, s', c, Choosing([]))
  {
    hide Reached, Init, Wf;
    run', s' := Taken(start, run, s, CountNext(c));
    run', s' := Taken(start, run', s', CountNext(c));
    run', s' := Taken(start, run', s', CountNext(c));
    run', s' := Taken(start, run', s', CountNext(c));
  }

  /** It loads the stamp of track 0. */
  lemma FirstWeighed(start: State, run: seq<Step>, s0: State, s: State, c: nat) returns (run': seq<Step>, s': State)
    requires Reached(start, run, s) && Wf(s) && Full(s0, s, c, Choosing([]))
    ensures Reached(start, run', s') && Wf(s') && Full(s0, s', c, Choosing([Some(s0.tracks[0].touch)]))
  {
    hide Reached, Init, Wf;
    run', s' := Taken(start, run, s, ScanNext(c));
    run', s' := Taken(start, run', s', WeighNext(c));
    assert s'.threads[c].stage.seen == [Some(s0.tracks[0].touch)];
  }

  /** What another caller `d` makes of it by touching track 0 now. */
  ghost predicate Overtaken(s0: State, s: State, c: nat, d: nat, stage: Stage) {
    && DecodedTo(s0, 2) && s.disc == s0.disc && s.resident == [0, 1, 2]
    && s.tracks == s0.tracks[2 := Pinned(s0, 2).(started := true)][0 := s0.tracks[0].(touch := s0.clock + 1)]
    && s.threads == s0.threads[c := Evicting(stage, ThenSpawn(2))][d := Reading(0, 0)]
  }

  lemma TouchedBehind(start: State, run: seq<Step>, s0: State, s: State, c: nat, d: nat, stage: Stage)
    returns (run': seq<Step>, s': State)
    requires Reached(start, run, s) && Wf(s) && Full(s0, s, c, stage)
    requires c != d && d in s0.threads && s0.threads[d].Idle?
    ensures Reached(start, run', s') && Wf(s') && Overtaken(s0, s', c, d, stage)
  {
    hide Reached, Init, Wf, Pinned;
    run', s' := Taken(start, run, s, CallFrame(d, 0, 0));
    run', s' := Taken(start, run', s', TakeStamp(d));
    run', s' := Taken(start, run', s', StoreTouch(d));
  }

  /** The search goes on with the stamp it has, past track 1 and the unfinished 2. */
  lemma SearchedOn(start: State, run: seq<Step>, s0: State, s: State, c: nat, d: nat, stamp: nat)
    returns (run': seq<Step>, s': State)
    requires Reached(start, run, s) && Wf(s) && Overtaken(s0, s, c, d, Choosing([Some(stamp)]))
    requires c != d && !s0.tracks[2].finished
    ensures Reached(start, run', s') && Wf(s')
    ensures Overtaken(s0, s', c, d, Choosing([Some(stamp), Some(s0.tracks[1].touch), None]))
  {
    hide Reached, Init, Wf;
    run', s' := Taken(start, run, s, ScanNext(c));
    run', s' := Taken(start, run', s', WeighNext(c));
    run', s' := Taken(start, run', s', ScanNext(c));
    assert s'.threads[c].stage.seen == [Some(stamp), Some(s0.tracks[1].touch), None];
  }

  /** However many tracks, threads and callers there are, two workers and two callers
      are enough for a run that evicts the most recently touched track there is
      while a finished resident touched before it is kept. */
  lemma NewestEvicted(start: State, c: nat, d: nat, w0: nat, w1: nat) returns (run: seq<Step>, s: State)
    requires Init(start) && c in start.threads && d in start.threads && c != d
    requires w0 !in start.threads && w1 !in start.threads && w0 != w1
    requires |start.disc| >= 3 && forall t: nat :: t < 3 ==> start.disc[t].registered && start.disc[t].sectors > 0
    ensures Reached(start, run, s) && Wf(s) && Enabled(s, ChooseVictim(c))
    ensures var after := Apply(s, ChooseVictim(c)); after.threads[c] == Evicting(Clearing(0), ThenSpawn(2))
    ensures |s.tracks| >= 3 && s.resident == [0, 1, 2] && s.tracks[0].finished && s.tracks[1].finished
    ensures forall u: nat :: 0 < u < |s.tracks| ==> s.tracks[u].touch < s.tracks[0].touch
    ensures !LeastRecent(s, 0)
  {
    hide Reached, Wf, Amid, Pinned, DecodedTo, Full, Overtaken;
    run, s := PrepareTwo(start, c, w0, w1);
    var s0 := s;
    DecodedMeans(s0, 2);
    run, s := ThirdStart(start, run, s0, c);
    run, s := TwoCounted(start, run, s0, s, c);
    run, s := FirstWeighed(start, run, s0, s, c);
    run, s := TouchedBehind(start, run, s0, s, c, d, Choosing([Some(s0.tracks[0].touch)]));
    run, s := SearchedOn(start, run, s0, s, c, d, s0.tracks[0].touch);
    WrongChoice(s0, s, c, d);
  }

  lemma WrongChoice(s0: State, s: State, c: nat, d: nat)
    requires Wf(s) && c != d && DecodedTo(s0, 2)
    requires Overtaken(s0, s, c, d, Choosing([Some(s0.tracks[0].touch), Some(s0.tracks[1].touch), None]))
    ensures Enabled(s, ChooseVictim(c))
    ensures var after := Apply(s, ChooseVictim(c)); after.threads[c] == Evicting(Clearing(0), ThenSpawn(2))
    ensures |s.tracks| >= 3 && s.resident == [0, 1, 2] && s.tracks[0].finished && s.tracks[1].finished
    ensures forall u: nat :: 0 < u < |s.tracks| ==> s.tracks[u].touch < s.tracks[0].touch
    ensures !LeastRecent(s, 0)
  {
    hide Oldest, Wf;
    var seen := s.threads[c].stage.seen;
    assert seen[0].Some? && seen[1].Some? && seen[2].None? && seen[0].value < seen[1].value;
    assert Oldest(seen) == Some(0);
    assert 1 in s.resident;
  }

  lemma {:induction false} Untouched(list: seq<nat>, t: nat)
    requires t !in list
    ensures Without(list, t) == list
  {
    if list != [] { Untouched(list[1..], t); }
  }
}
