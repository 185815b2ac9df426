/** Every step of the residency protocol keeps its invariant. A step moves one
    thread and changes at most one track, so each conjunct has one lemma saying
    what such a move must respect, and each step one lemma that it does. */
module ResidencyProof {
  import opened Wrappers
  import opened CdAudioTypes
  import opened Residency

  // ----- One lemma per conjunct ----------------------------------------------

  /** `s'` is `s` with thread `th` sent to `pc`; tracks and registry may differ. */
  ghost predicate Moves(s: State, s': State, th: nat, pc: Pc) {
    && th in s.threads && s'.threads == s.threads[th := pc]
    && s'.disc == s.disc && |s.tracks| == |s'.tracks| == |s.disc|
  }

  lemma HolderMoves(s: State, s': State, th: nat, pc: Pc)
    requires Moves(s, s', th, pc) && OneHolder(s)
    requires forall t: nat :: Holds(pc, t) ==> Holds(s.threads[th], t) || !Held(s, t)
    ensures OneHolder(s')
  {
  }

  lemma OwnerMoves(s: State, s': State, th: nat, pc: Pc)
    requires Moves(s, s', th, pc) && OneOwner(s)
    requires OwnsRegistry(pc) ==> OwnsRegistry(s.threads[th]) || RegistryFree(s)
    ensures OneOwner(s')
  {
  }

  predicate SameFlags(a: Track, b: Track) {
    a.started == b.started && a.finished == b.finished
  }

  /** A track keeps its flags and its holder, or its flags follow its new one. */
  ghost predicate FlagsFollow(s: State, s': State, th: nat, pc: Pc, t: nat)
    requires Moves(s, s', th, pc) && t < |s.tracks|
  {
    || (SameFlags(s.tracks[t], s'.tracks[t]) && Holds(pc, t) == Holds(s.threads[th], t))
    || (&& (Holds(s.threads[th], t) || !Held(s, t))
        && (Holds(pc, t) ==> s'.tracks[t].started && !s'.tracks[t].finished)
        && (!Holds(pc, t) ==> s'.tracks[t].started == s'.tracks[t].finished))
  }

  lemma FlagMoves(s: State, s': State, th: nat, pc: Pc)
    requires Moves(s, s', th, pc) && OneHolder(s) && FlagsMatch(s)
    requires forall t: nat :: t < |s.tracks| ==> FlagsFollow(s, s', th, pc, t)
    ensures FlagsMatch(s')
  {
    forall t: nat | t < |s'.tracks| && s'.tracks[t].started && !s'.tracks[t].finished
      ensures Held(s', t)
    {
      assert FlagsFollow(s, s', th, pc, t);
      if Holds(pc, t) {
        assert s'.threads[th] == pc;
      } else {
        var a :| a in s.threads && Holds(s.threads[a], t);
        assert s'.threads[a] == s.threads[a];
      }
    }
    forall a, t: nat | a in s'.threads && t < |s'.tracks| && Holds(s'.threads[a], t)
      ensures s'.tracks[t].started && !s'.tracks[t].finished
    {
      assert FlagsFollow(s, s', th, pc, t);
    }
    forall t: nat | t < |s'.tracks| && s'.tracks[t].finished
      ensures s'.tracks[t].started
    {
      assert FlagsFollow(s, s', th, pc, t);
    }
  }

  lemma VictimMoves(s: State, s': State, th: nat, pc: Pc)
    requires Moves(s, s', th, pc) && OneOwner(s) && VictimsOut(s)
    requires pc.Evicting? ==> StageOk(s', pc.stage)
    requires RegistryFree(s) || OwnsRegistry(s.threads[th]) || Calmer(s, s')
    ensures VictimsOut(s')
  {
    forall a | a in s'.threads && s'.threads[a].Evicting?
      ensures StageOk(s', s'.threads[a].stage)
    {
      if a != th && OwnsRegistry(s.threads[a]) {
        assert Calmer(s, s') && StageOk(s, s.threads[a].stage);
        StageCalmer(s, s', s.threads[a].stage);
      }
    }
  }

  /** Nothing left the registry's finished set. */
  ghost predicate Calmer(s: State, s': State)
    requires |s.tracks| == |s'.tracks|
  {
    s'.resident == s.resident && forall t: nat :: t < |s.tracks| && s.tracks[t].finished ==> s'.tracks[t].finished
  }

  lemma {:induction false} CountsGrow(s: State, s': State, n: nat)
    requires |s.tracks| == |s'.tracks| && Calmer(s, s') && n <= |s.resident|
    ensures Evictable(s, n) <= Evictable(s', n)
  {
    if n > 0 { CountsGrow(s, s', n - 1); }
  }

  lemma {:induction false} AheadGrows(s: State, s': State, i: nat)
    requires |s.tracks| == |s'.tracks| && Calmer(s, s')
    ensures Ahead(s, i) <= Ahead(s', i)
    decreases |s.resident| - i
  {
    if i < |s.resident| { AheadGrows(s, s', i + 1); }
  }

  /** What the owner relies on survives whatever others do to the flags. */
  lemma StageCalmer(s: State, s': State, stage: Stage)
    requires |s.tracks| == |s'.tracks| == |s.disc| && s'.disc == s.disc && Calmer(s, s') && StageOk(s, stage)
    ensures StageOk(s', stage)
  {
    hide TwoFinished, Oldest, Ahead, Evictable;
    match stage
    case Counting(i, found) => CountsGrow(s, s', i);
    case Choosing(seen) => SearchCalmer(s, s', seen);
    case Weighing(seen) => SearchCalmer(s, s', seen);
    case _ =>
  }

  lemma SearchCalmer(s: State, s': State, seen: seq<Option<nat>>)
    requires |s.tracks| == |s'.tracks| && Calmer(s, s') && SearchOk(s, seen)
    ensures SearchOk(s', seen)
  {
    hide TwoFinished, Oldest, Ahead;
    TwoFinishedStays(s, s');
    AheadGrows(s, s', |seen|);
  }

  lemma TwoFinishedStays(s: State, s': State)
    requires |s.tracks| == |s'.tracks| && Calmer(s, s') && TwoFinished(s)
    ensures TwoFinished(s')
  {
    var i: nat, j: nat :| i < j < |s.resident| && FinishedAt(s, i) && FinishedAt(s, j);
    assert FinishedAt(s', i) && FinishedAt(s', j);
  }

  /** The same residents, the same of them finished. */
  ghost predicate SameFinished(s: State, s': State) {
    s'.resident == s.resident && forall k: nat :: FinishedAt(s', k) == FinishedAt(s, k)
  }

  lemma {:induction false} AheadSame(s: State, s': State, i: nat)
    requires SameFinished(s, s')
    ensures Ahead(s', i) == Ahead(s, i)
    decreases |s.resident| - i
  {
    if i < |s.resident| { AheadSame(s, s', i + 1); }
  }

  lemma NoticesSame(s: State, s': State, pc: Pc)
    requires SameFinished(s, s')
    ensures Notices(s', pc) == Notices(s, pc)
  {
    hide FinishedAt;
    if pc.Evicting? && pc.stage.Counting? { AheadSame(s, s', pc.stage.next); }
  }

  /** An evictor at the start of its count notices whatever there is. */
  lemma {:induction false} AheadTwo(s: State, i: nat)
    ensures Ahead(s, i) >= 1 <==> exists k: nat :: i <= k < |s.resident| && FinishedAt(s, k)
    ensures Ahead(s, i) >= 2 <==>
      exists j: nat, k: nat :: i <= j < k < |s.resident| && FinishedAt(s, j) && FinishedAt(s, k)
    decreases |s.resident| - i
  {
    hide FinishedAt;
    if i < |s.resident| {
      AheadTwo(s, i + 1);
      if Ahead(s, i + 1) >= 1 {
        var k: nat :| i + 1 <= k < |s.resident| && FinishedAt(s, k);
        assert FinishedAt(s, i) ==> i < k;
      }
      if j: nat, k: nat :| i <= j < k < |s.resident| && FinishedAt(s, j) && FinishedAt(s, k) {
        assert i + 1 <= k;
        if j > i { assert i + 1 <= j; }
      }
    }
  }

  lemma FreshNotices(s: State, after: After)
    requires TwoFinished(s)
    ensures Notices(s, Evicting(Counting(0, 0), after))
  {
    AheadTwo(s, 0);
    var i: nat, j: nat :| i < j < |s.resident| && FinishedAt(s, i) && FinishedAt(s, j);
    assert 0 <= i;
  }

  lemma BacklogMoves(s: State, s': State, th: nat, pc: Pc)
    requires Moves(s, s', th, pc) && BacklogOwed(s)
    requires
      || (Backlog(s') ==> Notices(s', pc))
      || (SameFinished(s, s') && (Notices(s, s.threads[th]) ==> Notices(s, pc) || !Backlog(s)))
    ensures BacklogOwed(s')
  {
    hide Notices, FinishedAt;
    if Backlog(s') {
      if Notices(s', pc) {
        assert s'.threads[th] == pc;
      } else {
        TwoSame(s, s');
        var a :| a in s.threads && Notices(s, s.threads[a]);
        NoticesSame(s, s', s.threads[a]);
        NoticesSame(s, s', pc);
        assert Notices(s', s'.threads[a]);
      }
    }
  }

  lemma TwoSame(s: State, s': State)
    requires SameFinished(s, s')
    ensures Backlog(s') == Backlog(s)
  {
    hide FinishedAt;
    if i: nat, j: nat :| i < j < |s.resident| && FinishedAt(s, i) && FinishedAt(s, j) {
      assert FinishedAt(s', i) && FinishedAt(s', j);
    }
    if i: nat, j: nat :| i < j < |s.resident| && FinishedAt(s', i) && FinishedAt(s', j) {
      assert FinishedAt(s, i) && FinishedAt(s, j);
    }
  }

  lemma BufferedMoves(s: State, s': State, th: nat, pc: Pc)
    requires Moves(s, s', th, pc) && ResidentsBuffered(s)
    requires forall t: nat :: t in s'.resident && t < |s.tracks| ==>
      s'.tracks[t].pcm != [] || (t in s.resident && s'.tracks[t].pcm == s.tracks[t].pcm)
    ensures ResidentsBuffered(s')
  {
  }

  ghost predicate ListingFollows(s: State, s': State, th: nat, pc: Pc, t: nat)
    requires Moves(s, s', th, pc) && t < |s.tracks|
  {
    || s'.tracks[t].pcm == [] || t in s'.resident || Carries(pc, t)
    || (s.tracks[t].pcm != [] && t !in s.resident && !Carries(s.threads[th], t))
  }

  lemma ListingMoves(s: State, s': State, th: nat, pc: Pc)
    requires Moves(s, s', th, pc) && BuffersListed(s)
    requires forall t: nat :: t < |s.tracks| && s.disc[t].registered ==> ListingFollows(s, s', th, pc, t)
    ensures BuffersListed(s')
  {
    forall t: nat | t < |s'.tracks| && s'.disc[t].registered && s'.tracks[t].pcm != [] && t !in s'.resident
      ensures exists a :: a in s'.threads && Carries(s'.threads[a], t)
    {
      assert ListingFollows(s, s', th, pc, t);
      if Carries(pc, t) {
        assert Carries(s'.threads[th], t);
      } else {
        var a :| a in s.threads && Carries(s.threads[a], t);
        assert Carries(s'.threads[a], t);
      }
    }
  }

  predicate SameBuffer(a: Track, b: Track) {
    a.pcm == b.pcm && a.ready == b.ready
  }

  ghost predicate BufferFollows(s: State, s': State, th: nat, pc: Pc, t: nat)
    requires Moves(s, s', th, pc) && t < |s.tracks|
  {
    || SameBuffer(s.tracks[t], s'.tracks[t])
    || ((Holds(s.threads[th], t) || !Held(s, t)) && PrefixTrue(s'.disc[t], s'.tracks[t]))
  }

  lemma BufferMoves(s: State, s': State, th: nat, pc: Pc)
    requires Moves(s, s', th, pc) && OneHolder(s) && BuffersTrue(s)
    requires forall t: nat :: t < |s.tracks| ==> BufferFollows(s, s', th, pc, t)
    requires BufferOk(s', pc)
    ensures BuffersTrue(s')
  {
    forall t: nat | t < |s'.tracks|
      ensures PrefixTrue(s'.disc[t], s'.tracks[t])
    {
      assert BufferFollows(s, s', th, pc, t) && PrefixTrue(s.disc[t], s.tracks[t]);
    }
    forall a | a in s'.threads
      ensures BufferOk(s', s'.threads[a])
    {
      if a != th { BufferKept(s, s', th, pc, a); }
    }
  }

  lemma BufferKept(s: State, s': State, th: nat, pc: Pc, a: nat)
    requires Moves(s, s', th, pc) && OneHolder(s) && BuffersTrue(s)
    requires a in s.threads && a != th
    requires forall t: nat :: t < |s.tracks| ==> BufferFollows(s, s', th, pc, t)
    ensures BufferOk(s', s.threads[a])
  {
    assert BufferOk(s, s.threads[a]);
    forall t: nat | t < |s.tracks| && Holds(s.threads[a], t)
      ensures SameBuffer(s.tracks[t], s'.tracks[t])
    {
      assert BufferFollows(s, s', th, pc, t);
    }
  }

  lemma StartedMoves(s: State, s': State, th: nat, pc: Pc)
    requires Moves(s, s', th, pc) && ResidentsStarted(s)
    requires s.spawnFailed ==> s'.spawnFailed
    requires !s'.spawnFailed ==> !pc.Retracting?
    requires forall t: nat :: t in s'.resident && t < |s.tracks| ==>
      s'.tracks[t].started || (t in s.resident && !s.tracks[t].started) || (s'.spawnFailed)
    ensures ResidentsStarted(s')
  {
  }

  // ----- One lemma per kind of step -------------------------------------------

  /** A move that leaves tracks and registry alone and keeps what `th` held. */
  lemma PlainMove(s: State, s': State, th: nat, pc: Pc)
    requires Inv(s) && Moves(s, s', th, pc)
    requires s'.tracks == s.tracks && s'.resident == s.resident && LogTrue(s')
    requires PcWf(s.disc, pc) && BufferOk(s, pc)
    requires forall t: nat :: Holds(pc, t) == Holds(s.threads[th], t)
    requires forall t: nat :: Carries(s.threads[th], t) ==> Carries(pc, t)
    requires OwnsRegistry(pc) ==> OwnsRegistry(s.threads[th]) || RegistryFree(s)
    requires pc.Evicting? ==> StageOk(s, pc.stage)
    requires Notices(s, s.threads[th]) ==> Notices(s, pc) || !Backlog(s)
    requires (s.spawnFailed ==> s'.spawnFailed) && (pc.Retracting? ==> s'.spawnFailed)
    ensures Inv(s')
  {
    hide OneHolder, OneOwner, FlagsMatch, NoRepeats, BacklogOwed, BuffersListed, ResidentsStarted, LogTrue,
      VictimsOut, BuffersTrue, StageOk, BufferOk, TwoFinished, Held,
      Notices, Backlog, ResidentsBuffered;
    HolderMoves(s, s', th, pc);
    OwnerMoves(s, s', th, pc);
    FlagMoves(s, s', th, pc);
    StageKept(s, s', pc);
    BufferedMoves(s, s', th, pc);
    VictimMoves(s, s', th, pc);
    BacklogMoves(s, s', th, pc);
    ListingMoves(s, s', th, pc);
    BufferOkKept(s, s', pc);
    BufferMoves(s, s', th, pc);
    StartedMoves(s, s', th, pc);
  }

  lemma StageKept(s: State, s': State, pc: Pc)
    requires |s.tracks| == |s.disc| && s'.tracks == s.tracks && s'.disc == s.disc && s'.resident == s.resident
    requires pc.Evicting? ==> StageOk(s, pc.stage)
    ensures pc.Evicting? ==> StageOk(s', pc.stage)
  {
    if pc.Evicting? { StageCalmer(s, s', pc.stage); }
  }

  lemma BufferOkKept(s: State, s': State, pc: Pc)
    requires |s.tracks| == |s.disc| && s'.tracks == s.tracks && s'.disc == s.disc
    requires BufferOk(s, pc)
    ensures BufferOk(s', pc)
  {
  }

  lemma LogKept(s: State, s': State)
    requires LogTrue(s) && s'.log == s.log && s'.disc == s.disc
    ensures LogTrue(s')
  {
  }

  lemma CallFrameKept(s: State, th: nat, t: nat, index: nat)
    requires Inv(s) && Enabled(s, CallFrame(th, t, index))
    ensures Inv(Apply(s, CallFrame(th, t, index)))
  {
    var s' := Apply(s, CallFrame(th, t, index));
    if index >= s.disc[t].sectors {
      assert Goto(s', th, Idle).threads == s.threads;
      PlainMove(s, s', th, Idle);
    } else {
      PlainMove(s, s', th, Touching(t, index));
    }
  }

  lemma TakeStampKept(s: State, th: nat)
    requires Inv(s) && Enabled(s, TakeStamp(th))
    ensures Inv(Apply(s, TakeStamp(th)))
  {
    var pc := s.threads[th];
    PlainMove(s, Apply(s, TakeStamp(th)), th, Stamped(pc.track, pc.index, s.clock));
  }

  /** A read under the mutex is silence or the true sector. */
  lemma FetchTrue(info: Info, track: Track, index: nat)
    requires PrefixTrue(info, track)
    ensures Fetch(track, index).Some? ==> index < info.sectors && Fetch(track, index).value == Sector(info, index)
  {
    if index < track.ready {
      var off := index * SECTOR_BYTES;
      assert off + SECTOR_BYTES <= track.ready * SECTOR_BYTES <= |track.pcm| <= info.Size();
      var served := track.pcm[..track.ready * SECTOR_BYTES];
      assert track.pcm[off..off + SECTOR_BYTES] == served[off..off + SECTOR_BYTES];
    }
  }

  lemma ReadFrameKept(s: State, th: nat)
    requires Inv(s) && Enabled(s, ReadFrame(th))
    ensures Inv(Apply(s, ReadFrame(th)))
  {
    hide OneHolder, OneOwner, FlagsMatch, NoRepeats, BacklogOwed, BuffersListed, ResidentsStarted;
    var s' := Apply(s, ReadFrame(th));
    var pc := s.threads[th];
    assert PcWf(s.disc, pc);
    FetchTrue(s.disc[pc.track], s.tracks[pc.track], pc.index);
    PlainMove(s, s', th, s'.threads[th]);
  }

  lemma FailSpawnKept(s: State, th: nat)
    requires Inv(s) && Enabled(s, FailSpawn(th))
    ensures Inv(Apply(s, FailSpawn(th)))
  {
    var s' := Apply(s, FailSpawn(th));
    LogKept(s, s');
    PlainMove(s, s', th, Retracting(s.threads[th].track));
  }

  lemma DecodePacketKept(s: State, th: nat, frames: nat)
    requires Inv(s) && Enabled(s, DecodePacket(th, frames))
    ensures Inv(Apply(s, DecodePacket(th, frames)))
  {
    hide OneHolder, OneOwner, FlagsMatch, NoRepeats, BacklogOwed, BuffersListed, ResidentsStarted, LogTrue;
    var s' := Apply(s, DecodePacket(th, frames));
    var pc := s.threads[th];
    assert PcWf(s.disc, pc) && BufferOk(s, pc);
    LogKept(s, s');
    PlainMove(s, s', th, s'.threads[th]);
  }

  lemma EndOfStreamKept(s: State, th: nat)
    requires Inv(s) && Enabled(s, EndOfStream(th))
    ensures Inv(Apply(s, EndOfStream(th)))
  {
    hide OneHolder, OneOwner, FlagsMatch, NoRepeats, BacklogOwed, BuffersListed, ResidentsStarted, LogTrue;
    var s' := Apply(s, EndOfStream(th));
    var pc := s.threads[th];
    assert PcWf(s.disc, pc) && BufferOk(s, pc);
    LogKept(s, s');
    PlainMove(s, s', th, s'.threads[th]);
  }

  lemma FailDecodeKept(s: State, th: nat)
    requires Inv(s) && Enabled(s, FailDecode(th))
    ensures Inv(Apply(s, FailDecode(th)))
  {
    var s' := Apply(s, FailDecode(th));
    LogKept(s, s');
    PlainMove(s, s', th, Finishing(s.threads[th].track));
  }

  lemma PollKept(s: State, th: nat)
    requires Inv(s) && Enabled(s, Poll(th))
    ensures Inv(Apply(s, Poll(th)))
  {
    hide OneHolder, OneOwner, FlagsMatch, NoRepeats, BacklogOwed, BuffersListed, ResidentsStarted, LogTrue;
    var s' := Apply(s, Poll(th));
    assert PcWf(s.disc, s.threads[th]) && BufferOk(s, s.threads[th]);
    LogKept(s, s');
    PlainMove(s, s', th, s'.threads[th]);
  }

  lemma LockRegistryKept(s: State, th: nat)
    requires Inv(s) && Enabled(s, LockRegistry(th))
    ensures Inv(Apply(s, LockRegistry(th)))
  {
    hide OneHolder, OneOwner, FlagsMatch, NoRepeats, BacklogOwed, BuffersListed, ResidentsStarted, LogTrue;
    var s' := Apply(s, LockRegistry(th));
    assert PcWf(s.disc, s.threads[th]) && BufferOk(s, s.threads[th]);
    LogKept(s, s');
    if Backlog(s) { FreshNotices(s, s.threads[th].after); }
    PlainMove(s, s', th, s'.threads[th]);
  }

  lemma {:induction false} EvictableTwo(s: State, n: nat)
    requires n <= |s.resident|
    ensures Evictable(s, n) >= 1 ==> exists i: nat :: i < n && FinishedAt(s, i)
    ensures Evictable(s, n) >= 2 ==> exists i: nat, j: nat :: i < j < n && FinishedAt(s, i) && FinishedAt(s, j)
  {
    hide FinishedAt;
    if n > 0 { EvictableTwo(s, n - 1); }
  }

  /** The owner of the registry moves on within its loop, or out of it. */
  lemma OwnerStep(s: State, th: nat, pc: Pc)
    requires Inv(s) && th in s.threads && s.threads[th].Evicting? && OwnsRegistry(s.threads[th])
    requires s.threads[th].stage.Counting? || s.threads[th].stage.Choosing? || s.threads[th].stage.Weighing?
    requires
      || pc == Leave(s.threads[th].after)
      || (pc.Evicting? && pc.after == s.threads[th].after && StageOk(s, pc.stage)
          && (pc.stage.Counting? || pc.stage.Choosing? || pc.stage.Weighing?))
    requires Notices(s, s.threads[th]) ==> Notices(s, pc) || !Backlog(s)
    ensures Inv(Goto(s, th, pc))
  {
    hide OneHolder, OneOwner, FlagsMatch, NoRepeats, BacklogOwed, BuffersListed, ResidentsStarted, LogTrue, Notices,
      Backlog, StageOk;
    var s' := Goto(s, th, pc);
    LogKept(s, s');
    assert PcWf(s.disc, s.threads[th]) && BufferOk(s, s.threads[th]);
    PlainMove(s, s', th, pc);
  }

  lemma CountNextKept(s: State, th: nat)
    requires Inv(s) && Enabled(s, CountNext(th))
    ensures Inv(Apply(s, CountNext(th)))
  {
    hide Inv, FinishedAt, TwoFinished;
    InvMeans(s, th);
    var pc := s.threads[th];
    var i, found := pc.stage.next, pc.stage.found;
    if i == 0 && |s.resident| <= MAX_RESIDENT {
      OwnerStep(s, th, Leave(pc.after));
    } else if i < |s.resident| {
      OwnerStep(s, th, Evicting(Counting(i + 1, if FinishedAt(s, i) then found + 1 else found), pc.after));
    } else if found < 2 {
      OwnerStep(s, th, Leave(pc.after));
    } else {
      EvictableTwo(s, i);
      CountedTwo(s, i);
      OwnerStep(s, th, Evicting(Choosing([]), pc.after));
    }
  }

  lemma InvMeans(s: State, th: nat)
    requires Inv(s) && th in s.threads && s.threads[th].Evicting?
    ensures |s.tracks| == |s.disc| && Wf(s) && StageOk(s, s.threads[th].stage)
  {
  }

  lemma CountedTwo(s: State, n: nat)
    requires n == |s.resident| && Evictable(s, n) >= 2
    ensures TwoFinished(s) && Ahead(s, 0) >= 2
  {
    hide FinishedAt, Evictable, Ahead;
    EvictableTwo(s, n);
    var i: nat, j: nat :| i < j < n && FinishedAt(s, i) && FinishedAt(s, j);
    AheadTwo(s, 0);
    assert 0 <= i;
  }

  lemma ScanNextKept(s: State, th: nat)
    requires Inv(s) && Enabled(s, ScanNext(th))
    ensures Inv(Apply(s, ScanNext(th)))
  {
    hide Inv, FinishedAt, TwoFinished, Oldest;
    InvMeans(s, th);
    var pc := s.threads[th];
    var seen := pc.stage.seen;
    if FinishedAt(s, |seen|) {
      OwnerStep(s, th, Evicting(Weighing(seen), pc.after));
    } else {
      NothingSeen(seen);
      OwnerStep(s, th, Evicting(Choosing(seen + [None]), pc.after));
    }
  }

  lemma NothingSeen(seen: seq<Option<nat>>)
    ensures Oldest(seen + [None]) == Oldest(seen)
  {
    assert (seen + [None])[..|seen|] == seen;
  }

  lemma WeighNextKept(s: State, th: nat)
    requires Inv(s) && Enabled(s, WeighNext(th))
    ensures Inv(Apply(s, WeighNext(th)))
  {
    hide Inv, FinishedAt, TwoFinished, Ahead;
    InvMeans(s, th);
    var pc := s.threads[th];
    var more := pc.stage.seen + [Some(TouchAt(s, |pc.stage.seen|))];
    assert more[|more| - 1].Some?;
    OwnerStep(s, th, Evicting(Choosing(more), pc.after));
  }

  /** A move that rewrites track `t` and leaves the registry alone. */
  lemma TrackMove(s: State, s': State, th: nat, pc: Pc, t: nat)
    requires Inv(s) && Moves(s, s', th, pc) && t < |s.tracks|
    requires s'.tracks == s.tracks[t := s'.tracks[t]]
    requires s'.resident == s.resident && s'.log == s.log && s'.spawnFailed == s.spawnFailed
    requires PcWf(s.disc, pc) && BufferOk(s', pc) && (pc.Retracting? ==> s.threads[th].Retracting?)
    requires forall u: nat :: u != t ==> Holds(pc, u) == Holds(s.threads[th], u)
    requires Holds(pc, t) ==> Holds(s.threads[th], t) || !Held(s, t)
    requires FlagsFollow(s, s', th, pc, t) && BufferFollows(s, s', th, pc, t)
    requires s.disc[t].registered ==> ListingFollows(s, s', th, pc, t)
    requires forall u: nat :: u != t && Carries(s.threads[th], u) ==> Carries(pc, u)
    requires OwnsRegistry(pc) ==> OwnsRegistry(s.threads[th])
    requires pc.Evicting? ==> StageOk(s', pc.stage)
    requires OwnsRegistry(s.threads[th]) || (s.tracks[t].finished ==> s'.tracks[t].finished)
    requires s.threads[th].Evicting? ==> pc.Evicting?
    requires pc.Evicting? && pc.stage.Counting? ==> pc.stage == Counting(0, 0)
    requires t in s.resident ==> s'.tracks[t].pcm != [] || s'.tracks[t].pcm == s.tracks[t].pcm
    requires !pc.Evicting? && s'.tracks[t].finished ==> s.tracks[t].finished || !s.disc[t].registered
    requires t in s.resident ==> s'.tracks[t].started || !s.tracks[t].started || s.spawnFailed
    ensures Inv(s')
  {
    hide OneHolder, OneOwner, FlagsMatch, NoRepeats, BacklogOwed, BuffersListed, LogTrue, VictimsOut, BuffersTrue,
      StageOk, BufferOk, TwoFinished, Held,
      ResidentsBuffered;
    HolderMoves(s, s', th, pc);
    OwnerMoves(s, s', th, pc);
    FlagMoves(s, s', th, pc);
    VictimMoves(s, s', th, pc);
    BufferedMoves(s, s', th, pc);
    TrackBacklog(s, s', th, pc, t);
    ListingMoves(s, s', th, pc);
    BufferMoves(s, s', th, pc);
    StartedMoves(s, s', th, pc);
    LogKept(s, s');
  }

  /** Whoever moved is an evictor that starts afresh or is past its count, or the
      flags of the residents stand: an unregistered track is none of them, so its
      end owes nobody an eviction. */
  lemma TrackBacklog(s: State, s': State, th: nat, pc: Pc, t: nat)
    requires Wf(s) && BacklogOwed(s) && Moves(s, s', th, pc) && t < |s.tracks|
    requires s'.tracks == s.tracks[t := s'.tracks[t]] && s'.resident == s.resident
    requires s.threads[th].Evicting? ==> pc.Evicting?
    requires pc.Evicting? && pc.stage.Counting? ==> pc.stage == Counting(0, 0)
    requires !pc.Evicting? && s'.tracks[t].finished ==> s.tracks[t].finished || !s.disc[t].registered
    requires !pc.Evicting? && s.tracks[t].finished ==> s'.tracks[t].finished
    ensures BacklogOwed(s')
  {
    hide BacklogOwed, TwoFinished;
    if pc.Evicting? {
      if Backlog(s') && pc.stage.Counting? { FreshNotices(s', pc.after); }
    } else {
      forall k: nat ensures FinishedAt(s', k) == FinishedAt(s, k) {
        if k < |s.resident| { assert s.resident[k] in s.resident; }
      }
    }
    BacklogMoves(s, s', th, pc);
  }

  lemma StoreTouchKept(s: State, th: nat)
    requires Inv(s) && Enabled(s, StoreTouch(th))
    ensures Inv(Apply(s, StoreTouch(th)))
  {
    var pc := s.threads[th];
    TrackMove(s, Apply(s, StoreTouch(th)), th, Reading(pc.track, pc.index), pc.track);
  }

  lemma SwapStartedKept(s: State, th: nat)
    requires Inv(s) && Enabled(s, SwapStarted(th))
    ensures Inv(Apply(s, SwapStarted(th)))
  {
    var s' := Apply(s, SwapStarted(th));
    var t := s.threads[th].track;
    if s.tracks[t].started {
      LogKept(s, s');
      PlainMove(s, s', th, Idle);
    } else {
      TrackMove(s, s', th, Allocating(t), t);
    }
  }

  lemma AllocateKept(s: State, th: nat)
    requires Inv(s) && Enabled(s, Allocate(th))
    ensures Inv(Apply(s, Allocate(th)))
  {
    var s' := Apply(s, Allocate(th));
    assert Holds(s.threads[th], s.threads[th].track);
    TrackMove(s, s', th, s'.threads[th], s.threads[th].track);
  }

  lemma RetractKept(s: State, th: nat)
    requires Inv(s) && Enabled(s, Retract(th))
    ensures Inv(Apply(s, Retract(th)))
  {
    assert Holds(s.threads[th], s.threads[th].track);
    TrackMove(s, Apply(s, Retract(th)), th, Idle, s.threads[th].track);
  }

  lemma FinishKept(s: State, th: nat)
    requires Inv(s) && Enabled(s, Finish(th))
    ensures Inv(Apply(s, Finish(th)))
  {
    hide Inv, Held, OneHolder, OneOwner;
    HolderMeans(s, th, s.threads[th].track);
    var s' := Apply(s, Finish(th));
    TrackMove(s, s', th, s'.threads[th], s.threads[th].track);
  }

  lemma HolderMeans(s: State, th: nat, t: nat)
    requires Inv(s) && th in s.threads && Holds(s.threads[th], t)
    ensures Wf(s) && PcWf(s.disc, s.threads[th])
    ensures t < |s.tracks| && s.tracks[t].started && !s.tracks[t].finished
  {
    assert PcWf(s.disc, s.threads[th]);
  }

  /** The bytes a report hands over continue the image exactly. */
  lemma PublishedBytes(info: Info, track: Track, w: Worker, count: nat, upto: nat, closing: bool)
    requires info.Wf() && WorkerOk(info, track, w) && w.sent <= upto <= info.Size()
    requires !closing ==> upto == count * SECTOR_BYTES && count <= info.Written(w.decoded) / SECTOR_SAMPLES
    requires closing ==> w.decoded == info.Frames() && count == info.sectors
    requires closing ==> upto >= Min(4 * info.Written(w.decoded), info.Size())
    ensures var after := Copied(track, w, info.Scratch(w.decoded)[w.sent..upto], count);
      FilledTo(info, after, upto) && after.ready == count && PrefixTrue(info, after)
  {
    var bytes := info.Scratch(w.decoded)[w.sent..upto];
    var after := Copied(track, w, bytes, count);
    forall k | w.sent <= k < upto
      ensures info.Scratch(w.decoded)[k] == info.Image()[k]
    {
      if !closing {
        assert k < 4 * info.Written(w.decoded) <= |info.audio|;
      }
    }
    assert FilledTo(info, after, upto);
    if closing {
      assert forall k :: upto <= k < info.Size() ==> info.Image()[k] == 0;
      assert after.pcm == info.Image();
    }
  }

  lemma PublishKept(s: State, th: nat)
    requires Inv(s) && Enabled(s, Publish(th))
    ensures Inv(Apply(s, Publish(th)))
  {
    hide OneHolder, OneOwner, FlagsMatch, NoRepeats, BacklogOwed, BuffersListed, ResidentsStarted, LogTrue;
    var s' := Apply(s, Publish(th));
    PublishedRight(s, th);
    TrackMove(s, s', th, s'.threads[th], s.threads[th].track);
  }

  lemma PublishedRight(s: State, th: nat)
    requires Wf(s) && BuffersTrue(s) && Enabled(s, Publish(th))
    ensures var s' := Apply(s, Publish(th)); var t := s.threads[th].track;
      PcWf(s.disc, s'.threads[th]) && BufferOk(s', s'.threads[th]) && PrefixTrue(s.disc[t], s'.tracks[t])
  {
    var pc := s.threads[th];
    assert PcWf(s.disc, pc) && BufferOk(s, pc);
    PublishedBytes(s.disc[pc.track], s.tracks[pc.track], pc.w, pc.count, pc.upto, pc.closing);
  }

  lemma ClearVictimKept(s: State, th: nat)
    requires Inv(s) && Enabled(s, ClearVictim(th))
    ensures Inv(Apply(s, ClearVictim(th)))
  {
    hide OneHolder, OneOwner, NoRepeats, BacklogOwed, BuffersListed, ResidentsStarted, LogTrue;
    var s' := Apply(s, ClearVictim(th));
    var pc := s.threads[th];
    var v := pc.stage.victim;
    assert PcWf(s.disc, pc) && BufferOk(s, pc) && StageOk(s, pc.stage);
    assert !Held(s, v);
    TrackMove(s, s', th, Evicting(Unfinishing(v), pc.after), v);
  }

  lemma UnfinishVictimKept(s: State, th: nat)
    requires Inv(s) && Enabled(s, UnfinishVictim(th))
    ensures Inv(Apply(s, UnfinishVictim(th)))
  {
    hide OneHolder, OneOwner, NoRepeats, BacklogOwed, BuffersListed, ResidentsStarted, LogTrue;
    var s' := Apply(s, UnfinishVictim(th));
    var pc := s.threads[th];
    var v := pc.stage.victim;
    assert PcWf(s.disc, pc) && BufferOk(s, pc) && StageOk(s, pc.stage);
    assert !Held(s, v);
    TrackMove(s, s', th, Evicting(Unstarting(v), pc.after), v);
  }

  lemma UnstartVictimKept(s: State, th: nat)
    requires Inv(s) && Enabled(s, UnstartVictim(th))
    ensures Inv(Apply(s, UnstartVictim(th)))
  {
    hide OneHolder, OneOwner, NoRepeats, BacklogOwed, BuffersListed, ResidentsStarted, LogTrue;
    var s' := Apply(s, UnstartVictim(th));
    var pc := s.threads[th];
    var v := pc.stage.victim;
    assert PcWf(s.disc, pc) && BufferOk(s, pc) && StageOk(s, pc.stage);
    TrackMove(s, s', th, Evicting(Counting(0, 0), pc.after), v);
  }

  lemma DropKept(s: State, th: nat, t: nat)
    requires Inv(s) && Enabled(s, Drop(th, t))
    ensures Inv(Apply(s, Drop(th, t)))
  {
    var s' := Apply(s, Drop(th, t));
    assert s.threads == s.threads[th := Idle];
    TrackMove(s, s', th, Idle, t);
  }

  lemma WithoutIs(r: seq<nat>, t: nat)
    ensures forall x: nat :: x in Without(r, t) <==> x in r && x != t
    ensures NoRepeats(r) ==> NoRepeats(Without(r, t))
  {
    if r != [] {
      var rest := r[1..];
      WithoutIs(rest, t);
      assert r == [r[0]] + rest;
      if NoRepeats(r) {
        assert r[0] !in rest;
        assert NoRepeats(rest) by {
          assert forall k :: 0 <= k < |rest| ==> rest[k] == r[k + 1];
        }
        assert r[0] !in Without(rest, t);
      }
    }
  }

  lemma WfMove(s: State, s': State, th: nat, pc: Pc)
    requires Wf(s) && Moves(s, s', th, pc) && PcWf(s.disc, pc)
    requires forall x: nat :: x in s'.resident ==> x < |s.disc| && s.disc[x].registered
    ensures Wf(s')
  {
  }

  /** A move that changes the registry and no track. */
  lemma RegistryMove(s: State, s': State, th: nat, pc: Pc)
    requires Inv(s) && Moves(s, s', th, pc) && pc.Evicting?
    requires s'.tracks == s.tracks && s'.log == s.log && s'.spawnFailed == s.spawnFailed
    requires forall x: nat :: x in s'.resident ==> x in s.resident || Holds(s.threads[th], x)
    requires forall x: nat :: x in s.resident ==> x in s'.resident || Carries(pc, x)
    requires forall x: nat :: Carries(s.threads[th], x) ==> x in s'.resident
    requires NoRepeats(s'.resident) && PcWf(s.disc, pc)
    requires forall x: nat :: x in s'.resident ==> x < |s.disc| && s.disc[x].registered
    requires BufferOk(s, pc) && StageOk(s', pc.stage)
    requires forall t: nat :: Holds(pc, t) == Holds(s.threads[th], t)
    requires OwnsRegistry(s.threads[th]) || (RegistryFree(s) && !OwnsRegistry(pc))
    requires !pc.stage.Counting?
    requires forall x: nat :: x in s'.resident && x !in s.resident && x < |s.tracks| ==> s.tracks[x].pcm != []
    ensures Inv(s')
  {
    hide OneHolder, OneOwner, NoRepeats, BacklogOwed, BuffersListed, ResidentsStarted, LogTrue, VictimsOut,
      BuffersTrue, StageOk, BufferOk,
      TwoFinished, Held, ResidentsBuffered;
    BufferedMoves(s, s', th, pc);
    WfMove(s, s', th, pc);
    HolderMoves(s, s', th, pc);
    OwnerMoves(s, s', th, pc);
    FlagMoves(s, s', th, pc);
    VictimMoves(s, s', th, pc);
    BacklogMoves(s, s', th, pc);
    ListingMoves(s, s', th, pc);
    BufferOkKept(s, s', pc);
    BufferMoves(s, s', th, pc);
    StartedMoves(s, s', th, pc);
    LogKept(s, s');
  }

  lemma AdmitKept(s: State, th: nat)
    requires Inv(s) && Enabled(s, Admit(th))
    ensures Inv(Apply(s, Admit(th)))
  {
    var t := s.threads[th].track;
    Appended(s.resident, t);
    ListKept(s, th, Without(s.resident, t) + [t]);
  }

  lemma ListKept(s: State, th: nat, list: seq<nat>)
    requires Inv(s) && Enabled(s, Admit(th)) && NoRepeats(list)
    requires forall x: nat :: x in list <==> x in s.resident || x == s.threads[th].track
    ensures Inv(Goto(s, th, Evicting(Waiting, ThenSpawn(s.threads[th].track))).(resident := list))
  {
    hide OneHolder, OneOwner, FlagsMatch, NoRepeats, BacklogOwed, BuffersListed, ResidentsStarted, LogTrue;
    var pc := Evicting(Waiting, ThenSpawn(s.threads[th].track));
    var s' := Goto(s, th, pc).(resident := list);
    assert PcWf(s.disc, s.threads[th]) && BufferOk(s, s.threads[th]);
    RegistryMove(s, s', th, pc);
  }

  lemma Appended(r: seq<nat>, t: nat)
    requires NoRepeats(r)
    ensures NoRepeats(Without(r, t) + [t])
    ensures forall x: nat :: x in Without(r, t) + [t] <==> x in r || x == t
  {
    WithoutIs(r, t);
    var w := Without(r, t);
    assert t !in w;
    forall i, j | 0 <= i < j < |w + [t]| ensures (w + [t])[i] != (w + [t])[j] {
      assert (w + [t])[i] == w[i] && w[i] in w;
    }
  }

  /** Once everything is seen there is a victim, and another candidate stays. */
  lemma VictimExists(s: State, seen: seq<Option<nat>>)
    requires SearchOk(s, seen) && |seen| == |s.resident|
    ensures var r := Oldest(seen);
      r.Some? && FinishedAt(s, r.value) && exists k: nat :: k < |s.resident| && k != r.value && FinishedAt(s, k)
  {
    hide FinishedAt, Oldest;
    var r := Oldest(seen);
    assert r.Some? && FinishedAt(s, r.value);
    var i: nat, j: nat :| i < j < |s.resident| && FinishedAt(s, i) && FinishedAt(s, j);
    assert i != r.value || j != r.value;
  }

  lemma ChooseVictimKept(s: State, th: nat)
    requires Inv(s) && Enabled(s, ChooseVictim(th))
    ensures Inv(Apply(s, ChooseVictim(th)))
  {
    hide Inv, FinishedAt, Oldest, TwoFinished, Ahead;
    InvMeans(s, th);
    VictimExists(s, s.threads[th].stage.seen);
    TakeOutKept(s, th, Oldest(s.threads[th].stage.seen).value);
  }

  lemma TakeOutKept(s: State, th: nat, k: nat)
    requires Inv(s) && Enabled(s, ChooseVictim(th)) && FinishedAt(s, k)
    ensures Inv(Goto(s, th, Evicting(Clearing(s.resident[k]), s.threads[th].after))
                  .(resident := s.resident[..k] + s.resident[k + 1..]))
  {
    hide OneHolder, OneOwner, FlagsMatch, NoRepeats, BacklogOwed, BuffersListed, ResidentsStarted, LogTrue;
    var pc := Evicting(Clearing(s.resident[k]), s.threads[th].after);
    var s' := Goto(s, th, pc).(resident := s.resident[..k] + s.resident[k + 1..]);
    assert PcWf(s.disc, s.threads[th]) && BufferOk(s, s.threads[th]);
    Removed(s.resident, k);
    RegistryMove(s, s', th, pc);
  }

  lemma Removed(r: seq<nat>, k: nat)
    requires k < |r| && NoRepeats(r)
    ensures NoRepeats(r[..k] + r[k + 1..])
    ensures forall x: nat :: x in r[..k] + r[k + 1..] <==> x in r && x != r[k]
  {
    assert r == r[..k] + [r[k]] + r[k + 1..];
  }

  lemma SpawnKept(s: State, th: nat, worker: nat)
    requires Inv(s) && Enabled(s, Spawn(th, worker))
    ensures Inv(Apply(s, Spawn(th, worker)))
  {
    hide OneHolder, OneOwner, FlagsMatch, NoRepeats, BacklogOwed, BuffersListed, ResidentsStarted, LogTrue;
    // As one thread turning into the worker, then the worker's activity handed
    // to a thread that did not exist before.
    var mid := Goto(s, th, Decoding(s.threads[th].track, Worker(0, 0, 0, 0)));
    BecomeWorkerKept(s, th);
    HandedKept(mid, Apply(s, Spawn(th, worker)), th, worker);
  }

  lemma BecomeWorkerKept(s: State, th: nat)
    requires Inv(s) && th in s.threads && s.threads[th].Spawning?
    ensures Inv(Goto(s, th, Decoding(s.threads[th].track, Worker(0, 0, 0, 0))))
  {
    var pc := Decoding(s.threads[th].track, Worker(0, 0, 0, 0));
    var s' := Goto(s, th, pc);
    assert PcWf(s.disc, s.threads[th]) && BufferOk(s, s.threads[th]);
    LogKept(s, s');
    PlainMove(s, s', th, pc);
  }

  lemma HandedKept(s: State, s': State, th: nat, worker: nat)
    requires Inv(s) && Handed(s, s', th, worker)
    ensures Inv(s')
  {
    HandedLocks(s, s', th, worker);
    HandedFlags(s, s', th, worker);
    HandedEvictors(s, s', th, worker);
    HandedBuffers(s, s', th, worker);
    LogKept(s, s');
  }

  /** Moving a worker's activity to a fresh identity, conjunct by conjunct. */
  ghost predicate Handed(s: State, s': State, th: nat, worker: nat) {
    && th in s.threads && worker !in s.threads && s.threads[th].Decoding?
    && |s.tracks| == |s.disc|
    && s' == s.(threads := s.threads[th := Idle][worker := s.threads[th]])
  }

  lemma HandedLocks(s: State, s': State, th: nat, worker: nat)
    requires Handed(s, s', th, worker) && OneHolder(s) && OneOwner(s)
    ensures OneHolder(s') && OneOwner(s')
  {
  }

  lemma HandedFlags(s: State, s': State, th: nat, worker: nat)
    requires Handed(s, s', th, worker) && FlagsMatch(s)
    ensures FlagsMatch(s')
  {
    forall t: nat | t < |s'.tracks| && s'.tracks[t].started && !s'.tracks[t].finished
      ensures Held(s', t)
    {
      var a :| a in s.threads && Holds(s.threads[a], t);
      assert Holds(s'.threads[if a == th then worker else a], t);
    }
  }

  lemma HandedEvictors(s: State, s': State, th: nat, worker: nat)
    requires Handed(s, s', th, worker) && VictimsOut(s) && BacklogOwed(s)
    ensures VictimsOut(s') && BacklogOwed(s')
  {
    forall a | a in s'.threads && s'.threads[a].Evicting?
      ensures StageOk(s', s'.threads[a].stage)
    {
      StageKept(s, s', s.threads[a]);
    }
    if Backlog(s') {
      TwoSame(s, s');
      var a :| a in s.threads && Notices(s, s.threads[a]);
      NoticesSame(s, s', s.threads[a]);
      assert Notices(s', s'.threads[a]);
    }
  }

  lemma HandedBuffers(s: State, s': State, th: nat, worker: nat)
    requires Handed(s, s', th, worker) && BuffersListed(s) && ResidentsStarted(s) && BuffersTrue(s)
    ensures BuffersListed(s') && ResidentsStarted(s') && BuffersTrue(s')
  {
    forall t: nat | t < |s'.tracks| && s'.disc[t].registered && s'.tracks[t].pcm != [] && t !in s'.resident
      ensures exists a :: a in s'.threads && Carries(s'.threads[a], t)
    {
      var a :| a in s.threads && Carries(s.threads[a], t);
      assert Carries(s'.threads[a], t);
    }
    forall a | a in s'.threads
      ensures BufferOk(s', s'.threads[a])
    {
      if a != th {
        var b := if a == worker then th else a;
        assert BufferOk(s, s.threads[b]);
        BufferOkKept(s, s', s.threads[b]);
      }
    }
  }

  // ----- The theorems ---------------------------------------------------------

  lemma InitKept(s: State)
    requires Init(s)
    ensures Inv(s)
  {
  }

  /** Every step keeps the invariant. */
  lemma StepKept(s: State, step: Step)
    requires Inv(s) && Enabled(s, step)
    ensures Inv(Apply(s, step))
  {
    hide Inv, Enabled, Apply;
    match step
    case CallFrame(th, t, index) => CallFrameKept(s, th, t, index);
    case TakeStamp(th) => TakeStampKept(s, th);
    case StoreTouch(th) => StoreTouchKept(s, th);
    case ReadFrame(th) => ReadFrameKept(s, th);
    case SwapStarted(th) => SwapStartedKept(s, th);
    case Allocate(th) => AllocateKept(s, th);
    case Admit(th) => AdmitKept(s, th);
    case Spawn(th, worker) => SpawnKept(s, th, worker);
    case FailSpawn(th) => FailSpawnKept(s, th);
    case Retract(th) => RetractKept(s, th);
    case DecodePacket(th, frames) => DecodePacketKept(s, th, frames);
    case EndOfStream(th) => EndOfStreamKept(s, th);
    case FailDecode(th) => FailDecodeKept(s, th);
    case Publish(th) => PublishKept(s, th);
    case Poll(th) => PollKept(s, th);
    case Finish(th) => FinishKept(s, th);
    case LockRegistry(th) => LockRegistryKept(s, th);
    case CountNext(th) => CountNextKept(s, th);
    case ScanNext(th) => ScanNextKept(s, th);
    case WeighNext(th) => WeighNextKept(s, th);
    case ChooseVictim(th) => ChooseVictimKept(s, th);
    case ClearVictim(th) => ClearVictimKept(s, th);
    case UnfinishVictim(th) => UnfinishVictimKept(s, th);
    case UnstartVictim(th) => UnstartVictimKept(s, th);
    case Drop(th, t) => DropKept(s, th, t);
  }

  /** `s` is reached from a fresh mount by the steps of `run`, in any
      interleaving of any number of threads. */
  ghost predicate Reached(start: State, run: seq<Step>, s: State)
    decreases |run|
  {
    if run == [] then Init(start) && s == start
    else exists before :: Reached(start, run[..|run| - 1], before) && Wf(before)
           && Enabled(before, run[|run| - 1]) && s == Apply(before, run[|run| - 1])
  }

  lemma {:induction false} RunKept(start: State, run: seq<Step>, s: State)
    requires Reached(start, run, s)
    ensures Inv(s)
    decreases |run|
  {
    if run == [] {
      InitKept(s);
    } else {
      var last := run[|run| - 1];
      var before :| Reached(start, run[..|run| - 1], before) && Wf(before)
        && Enabled(before, last) && s == Apply(before, last);
      RunKept(start, run[..|run| - 1], before);
      StepKept(before, last);
    }
  }

  /** Whatever interleaving ran, `frame` has only ever answered with silence or
      with the very sector asked for, zero-padded past the end of the audio. */
  lemma FramesAreTrue(start: State, run: seq<Step>, s: State, k: nat)
    requires Reached(start, run, s) && k < |s.log| && s.log[k].frame.Some?
    ensures s.log[k].track < |s.disc| && s.log[k].index < s.disc[s.log[k].track].sectors
    ensures s.log[k].frame.value == Sector(s.disc[s.log[k].track], s.log[k].index)
  {
    RunKept(start, run, s);
  }

  /** No track ever has two workers that may still write it, and no buffer is
      taken from under the one it has or from under a decode being set up. */
  lemma OneWriter(start: State, run: seq<Step>, s: State, t: nat, a: nat, b: nat)
    requires Reached(start, run, s) && a in s.threads && b in s.threads && Holds(s.threads[a], t)
    ensures Holds(s.threads[b], t) ==> a == b
    ensures s.threads[b].Evicting? ==> s.threads[b].stage != Clearing(t) && s.threads[b].stage != Unfinishing(t)
  {
    RunKept(start, run, s);
    if s.threads[b].Evicting? {
      assert PcWf(s.disc, s.threads[b]) && StageOk(s, s.threads[b].stage);
    }
  }

  /** A publish always finds its destination range: the guard in the callback
      never refuses, so no report is lost. */
  lemma PublishNeverRefused(start: State, run: seq<Step>, s: State, th: nat)
    requires Reached(start, run, s) && th in s.threads && s.threads[th].Publishing?
    ensures var pc := s.threads[th];
      pc.track < |s.tracks| && pc.w.copied == pc.w.sent <= pc.upto <= |s.tracks[pc.track].pcm|
  {
    RunKept(start, run, s);
    assert PcWf(s.disc, s.threads[th]) && BufferOk(s, s.threads[th]);
  }

  /** What an eviction takes is finished, never the last of the finished residents,
      and of all it loaded a stamp of the one with the least, the first on a tie. */
  lemma VictimIsSpare(start: State, run: seq<Step>, s: State, th: nat)
    requires Reached(start, run, s) && Wf(s) && Enabled(s, ChooseVictim(th))
    ensures var s' := Apply(s, ChooseVictim(th)); var seen := s.threads[th].stage.seen;
      && s'.threads[th].Evicting? && s'.threads[th].stage.Clearing?
      && var v := s'.threads[th].stage.victim;
      && v in s.resident && s.tracks[v].finished && v !in s'.resident
      && (exists u: nat :: u in s'.resident && u < |s.tracks| && s.tracks[u].finished)
      && exists k: nat :: k < |seen| && s.resident[k] == v && LeastSeen(seen, k)
  {
    hide Inv, Reached, Oldest, Ahead;
    RunKept(start, run, s);
    InvMeans(s, th);
    InvNoRepeats(s);
    var seen := s.threads[th].stage.seen;
    VictimExists(s, seen);
    var k := Oldest(seen).value;
    Removed(s.resident, k);
    assert LeastSeen(seen, k);
    var other: nat :| other < |s.resident| && other != k && FinishedAt(s, other);
    assert s.resident[other] in s.resident && s.resident[other] != s.resident[k];
  }

  /** A finished resident the search knows wrongly by now: it finished after the
      search passed it, or a touch was stored after its stamp was loaded. */
  ghost predicate Moved(s: State, seen: seq<Option<nat>>, j: nat) {
    j < |seen| && FinishedAt(s, j) && seen[j] != Some(TouchAt(s, j))
  }

  /** No finished resident was touched before track `v`. */
  ghost predicate LeastRecent(s: State, v: nat) {
    && v < |s.tracks|
    && forall u: nat :: u in s.resident && u < |s.tracks| && s.tracks[u].finished ==>
      s.tracks[v].touch <= s.tracks[u].touch
  }

  /** The touch now on resident `k`, which `seen` chose, is not past that of any
      resident the search knows wrongly; and if it was raised since it was loaded, not
      past any stamp it was weighed against. */
  ghost predicate NotOvertaken(s: State, seen: seq<Option<nat>>, k: nat) {
    && (forall j: nat :: Moved(s, seen, j) ==> TouchAt(s, k) <= TouchAt(s, j))
    && (k < |seen| && seen[k].Some? && seen[k].value < TouchAt(s, k) ==>
          forall j: nat :: j < |seen| && seen[j].Some? && !Moved(s, seen, j) ==> TouchAt(s, k) <= seen[j].value)
  }

  /** The victim is the least recently touched of the finished residents exactly if
      its stamp was not overtaken while the search went on: touches are stored
      without the registry lock, and so are the finished flags. Where nothing
      moved behind the search it always is. */
  lemma VictimIsOldest(start: State, run: seq<Step>, s: State, th: nat) returns (k: nat)
    requires Reached(start, run, s) && Wf(s) && Enabled(s, ChooseVictim(th))
    ensures var after := Apply(s, ChooseVictim(th)).threads[th]; var seen := s.threads[th].stage.seen;
      && LeastSeen(seen, k) && k < |s.resident|
      && after.Evicting? && after.stage == Clearing(s.resident[k])
      && (LeastRecent(s, s.resident[k]) <==> NotOvertaken(s, seen, k))
      && ((forall j: nat :: !Moved(s, seen, j)) ==> LeastRecent(s, s.resident[k]))
  {
    hide Reached, Oldest, Ahead, LeastRecent, NotOvertaken;
    VictimIsSpare(start, run, s, th);
    var seen := s.threads[th].stage.seen;
    var v := Apply(s, ChooseVictim(th)).threads[th].stage.victim;
    k :| k < |seen| && s.resident[k] == v && LeastSeen(seen, k);
    assert SearchOk(s, seen) by {
      RunKept(start, run, s);
      InvMeans(s, th);
    }
    NotOvertakenMeans(s, seen, k);
  }

  lemma NotOvertakenMeans(s: State, seen: seq<Option<nat>>, k: nat)
    requires Wf(s) && |seen| == |s.resident| && SearchOk(s, seen) && LeastSeen(seen, k)
    ensures LeastRecent(s, s.resident[k]) <==> NotOvertaken(s, seen, k)
    ensures (forall j: nat :: !Moved(s, seen, j)) ==> LeastRecent(s, s.resident[k])
  {
    hide Oldest, Ahead;
    if LeastRecent(s, s.resident[k]) {
      forall j: nat | j < |seen| && FinishedAt(s, j)
        ensures TouchAt(s, k) <= TouchAt(s, j)
      {
        assert s.resident[j] in s.resident;
      }
    }
    forall u: nat | NotOvertaken(s, seen, k) && u in s.resident && u < |s.tracks| && s.tracks[u].finished
      ensures s.tracks[s.resident[k]].touch <= s.tracks[u].touch
    {
      var j: nat :| j < |s.resident| && s.resident[j] == u;
      assert s.resident[k] in s.resident;
      assert Moved(s, seen, j) || (FinishedAt(s, j) && seen[j] == Some(TouchAt(s, j)));
    }
    assert !Moved(s, seen, k) ==> seen[k] == Some(TouchAt(s, k));
  }

  ghost predicate LeastSeen(seen: seq<Option<nat>>, k: nat) {
    && k < |seen| && seen[k].Some?
    && (forall j :: 0 <= j < |seen| && seen[j].Some? ==> seen[k].value <= seen[j].value)
    && (forall j :: 0 <= j < k && seen[j].Some? ==> seen[k].value < seen[j].value)
  }

  lemma InvNoRepeats(s: State)
    requires Inv(s)
    ensures NoRepeats(s.resident)
  {
  }

  /** Every thread is out of the protocol. */
  ghost predicate Quiescent(s: State) {
    forall a :: a in s.threads ==> s.threads[a].Idle? || s.threads[a].Exited?
  }

  ghost function Buffered(s: State): set<nat>
    requires |s.tracks| == |s.disc|
  {
    set t: nat | t < |s.tracks| && s.disc[t].registered && s.tracks[t].pcm != []
  }

  /** Residents whose spawn failed: admitted, never started, never evictable. */
  ghost function Zombies(s: State): set<nat>
    requires |s.tracks| == |s.disc|
  {
    set t: nat | t < |s.tracks| && t in s.resident && !s.tracks[t].started
  }

  /** Residents whose decode is over. */
  ghost function Finished(s: State): set<nat>
    requires |s.tracks| == |s.disc|
  {
    set t: nat | t < |s.tracks| && t in s.resident && s.tracks[t].finished
  }

  /** Once every worker has exited, the buffers held are exactly those of the
      residents, each of them finished or stranded by a failed spawn; and they are
      at most two exactly if at most one is stranded, or two are and no finished
      track is kept beside them. Where no spawn failed none is, so the bound
      stands however starts and finishes interleaved. */
  lemma QuiescentBound(start: State, run: seq<Step>, s: State)
    requires Reached(start, run, s) && Quiescent(s)
    ensures |s.tracks| == |s.disc|
    ensures Buffered(s) == Zombies(s) + Finished(s) && Zombies(s) !! Finished(s)
    ensures |Buffered(s)| == |s.resident| == |Zombies(s)| + |Finished(s)|
    ensures |Buffered(s)| <= MAX_RESIDENT <==> |Zombies(s)| <= 1 || (|Zombies(s)| == 2 && Finished(s) == {})
    ensures !s.spawnFailed ==> |Buffered(s)| <= MAX_RESIDENT
  {
    hide Inv, Reached, Buffered, Zombies, Finished, TwoFinished;
    RunKept(start, run, s);
    AtRest(s);
    ExactBound(s);
    if !s.spawnFailed { NoneStranded(s); }
  }

  lemma ExactBound(s: State)
    requires |s.tracks| == |s.disc| && NoRepeats(s.resident) && forall t: nat :: t in s.resident ==> t < |s.tracks|
    requires forall t: nat :: t in Buffered(s) <==> t in s.resident
    requires forall t: nat :: t < |s.tracks| ==> s.tracks[t].started == s.tracks[t].finished
    requires |s.resident| > MAX_RESIDENT ==> !TwoFinished(s)
    ensures Buffered(s) == Zombies(s) + Finished(s) && Zombies(s) !! Finished(s)
    ensures |Buffered(s)| == |s.resident| == |Zombies(s)| + |Finished(s)|
    ensures |Buffered(s)| <= MAX_RESIDENT <==> |Zombies(s)| <= 1 || (|Zombies(s)| == 2 && Finished(s) == {})
  {
    hide TwoFinished, NoRepeats;
    SeqSet(s.resident, Buffered(s));
    assert Buffered(s) == Zombies(s) + Finished(s) && Zombies(s) !! Finished(s);
    if |s.resident| > MAX_RESIDENT { AtMostOne(s, Finished(s)); }
  }

  lemma NoneStranded(s: State)
    requires Inv(s) && !s.spawnFailed
    ensures Zombies(s) == {}
  {
  }

  /** At rest what holds a buffer is what is listed, every started track is finished
      and no other is, and no eviction is owed. */
  lemma AtRest(s: State)
    requires Inv(s) && Quiescent(s)
    ensures |s.tracks| == |s.disc| && NoRepeats(s.resident) && forall t: nat :: t in s.resident ==> t < |s.tracks|
    ensures forall t: nat :: t in Buffered(s) <==> t in s.resident
    ensures forall t: nat :: t < |s.tracks| ==> s.tracks[t].started == s.tracks[t].finished
    ensures |s.resident| > MAX_RESIDENT ==> !TwoFinished(s)
  {
  }

  lemma AtMostOne(s: State, live: set<nat>)
    requires !TwoFinished(s) && forall t :: t in live ==> t in s.resident && t < |s.tracks| && s.tracks[t].finished
    ensures |live| <= 1
  {
    if x :| x in live {
      forall y | y in live
        ensures y == x
      {
        var i: nat :| i < |s.resident| && s.resident[i] == x;
        var j: nat :| j < |s.resident| && s.resident[j] == y;
        assert FinishedAt(s, i) && FinishedAt(s, j);
      }
      assert live == {x};
    }
  }

  lemma {:induction false} SeqSet(r: seq<nat>, all: set<nat>)
    requires NoRepeats(r) && (forall t: nat :: t in all <==> t in r)
    ensures |all| == |r|
  {
    if r != [] {
      var rest := r[1..];
      assert r == [r[0]] + rest;
      assert forall k :: 0 <= k < |rest| ==> rest[k] == r[k + 1];
      SeqSet(rest, all - {r[0]});
    } else {
      assert all == {};
    }
  }
}
