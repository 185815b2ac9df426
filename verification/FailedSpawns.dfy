/** The one way the residency bound gives way: a start whose thread cannot be
    created leaves its track admitted with a whole buffer and a `finished` flag
    no one will ever store, so eviction can never take it back. */
module FailedSpawns {
  import opened CdAudioTypes
  import opened Residency
  import opened ResidencyProof
  import opened Starts

  /** The count goes through the whole list and finds nobody finished. */
  lemma {:induction false} NoneCounted(start: State, run: seq<Step>, s0: State, s: State, th: nat, t: nat,
                                       track: Track, list: seq<nat>, i: nat)
    returns (run': seq<Step>, s': State)
    requires Reached(start, run, s) && Wf(s) && i <= |list| && !track.finished
    requires forall u: nat :: u < |s0.tracks| ==> !s0.tracks[u].finished
    requires Amid(s0, s, th, Evicting(Counting(i, 0), ThenSpawn(t)), t, track, list)
    ensures Reached(start, run', s') && Wf(s')
    ensures Amid(s0, s', th, Spawning(t), t, track, list)
    decreases |list| - i
  {
    hide Reached, Init, Wf;
    run', s' := Taken(start, run, s, CountNext(th));
    if (i > 0 || |list| > MAX_RESIDENT) && i < |list| {
      run', s' := NoneCounted(start, run', s0, s', th, t, track, list, i + 1);
    }
  }

  lemma Refused(start: State, run: seq<Step>, s0: State, s: State, th: nat, t: nat) returns (run': seq<Step>, s': State)
    requires Reached(start, run, s) && Wf(s) && Blank(s0, t)
    requires forall u: nat :: u < |s0.tracks| ==> !s0.tracks[u].finished
    requires Amid(s0, s, th, Evicting(Counting(0, 0), ThenSpawn(t)), t, Pinned(s0, t).(started := true),
                  Without(s0.resident, t) + [t])
    ensures Reached(start, run', s') && Wf(s')
    ensures Amid(s0, s', th, Idle, t, Pinned(s0, t), Without(s0.resident, t) + [t])
  {
    hide Reached, Init, Wf;
    run', s' := NoneCounted(start, run, s0, s, th, t, Pinned(s0, t).(started := true), Without(s0.resident, t) + [t],
                            0);
    run', s' := Taken(start, run', s', FailSpawn(th));
    run', s' := Taken(start, run', s', Retract(th));
  }

  /** One failed start: the caller is idle again, the track is listed and holds
      a whole buffer, and nothing else moved. */
  lemma FailedStart(start: State, run: seq<Step>, s0: State, th: nat, t: nat) returns (run': seq<Step>, s': State)
    requires Reached(start, run, s0) && Wf(s0) && Quiescent(s0) && th in s0.threads && s0.threads[th].Idle?
             && Blank(s0, t)
    requires forall u: nat :: u < |s0.tracks| ==> !s0.tracks[u].finished
    ensures Reached(start, run', s') && Wf(s')
    ensures Amid(s0, s', th, Idle, t, Pinned(s0, t), Without(s0.resident, t) + [t])
  {
    hide Reached, Wf, Amid;
    run', s' := Called(start, run, s0, th, t);
    run', s' := Silent(start, run', s0, s', th, t);
    run', s' := Begun(start, run', s0, s', th, t);
    run', s' := Admitted(start, run', s0, s', th, t);
    run', s' := Refused(start, run', s0, s', th, t);
  }

  /** After `n` failed starts: all idle, the first `n` tracks pinned and none of
      them finished, the rest untouched. */
  ghost predicate Piled(s: State, n: nat) {
    && |s.tracks| == |s.disc| && Quiescent(s) && n <= |s.tracks|
    && (forall u: nat :: u < |s.tracks| ==> !s.tracks[u].finished && s.tracks[u].ready == 0 && !s.tracks[u].started)
    && (forall u: nat :: u < n ==> |s.tracks[u].pcm| > 0)
    && (forall u: nat :: n <= u < |s.tracks| ==> s.tracks[u].pcm == [])
  }

  ghost function FirstTracks(n: nat): (r: set<nat>)
    ensures |r| == n && forall t: nat :: t in r <==> t < n
  {
    if n == 0 then {} else FirstTracks(n - 1) + {n - 1}
  }

  /** Every number of failed starts piles up: there is a run that ends with all
      threads at rest and as many buffers held as spawns failed, so the bound of
      two needs the hypothesis that no spawn fails. */
  lemma {:induction false} BuffersPileUp(start: State, th: nat, n: nat) returns (run: seq<Step>, s: State)
    requires Init(start) && th in start.threads && n <= |start.disc|
    requires forall t: nat :: t < |start.disc| ==> start.disc[t].registered && start.disc[t].sectors > 0
    ensures Reached(start, run, s) && Wf(s) && s.disc == start.disc && th in s.threads && s.threads[th].Idle?
    ensures Piled(s, n) && Quiescent(s) && |s.tracks| == |s.disc| && |Buffered(s)| == n
  {
    hide Reached, Wf, Amid;
    if n == 0 {
      run, s := [], start;
      NothingPiled(s);
    } else {
      hide Init;
      var run0, s0 := BuffersPileUp(start, th, n - 1);
      PiledBlank(s0, n - 1);
      run, s := FailedStart(start, run0, s0, th, n - 1);
      OneMorePiled(s0, s, th, n - 1);
    }
    PiledBuffers(s, n);
  }

  lemma NothingPiled(s: State)
    requires Init(s) && forall t: nat :: t < |s.disc| ==> s.disc[t].registered
    ensures Reached(s, [], s) && Wf(s) && Piled(s, 0) && forall a :: a in s.threads ==> s.threads[a].Idle?
  {
    InitKept(s);
    InvIsWf(s);
  }

  lemma PiledBlank(s: State, n: nat)
    requires Piled(s, n) && n < |s.disc| && s.disc[n].registered && s.disc[n].sectors > 0
    ensures Blank(s, n) && Quiescent(s) && forall u: nat :: u < |s.tracks| ==> !s.tracks[u].finished
  {
  }

  lemma PiledBuffers(s: State, n: nat)
    requires Piled(s, n) && forall t: nat :: t < |s.disc| ==> s.disc[t].registered
    ensures Quiescent(s) && |Buffered(s)| == n
  {
    assert Buffered(s) == FirstTracks(n);
  }

  lemma OneMorePiled(s0: State, s: State, th: nat, t: nat)
    requires Piled(s0, t) && t < |s0.disc| && s0.disc[t].sectors > 0
    requires Amid(s0, s, th, Idle, t, Pinned(s0, t), Without(s0.resident, t) + [t])
    ensures Piled(s, t + 1) && s.disc == s0.disc && th in s.threads && s.threads[th].Idle?
  {
  }
}
