/** The background decode of CD audio tracks as a protocol of interleaved atomic
    steps. Callers run `frame`, workers run `decode_worker`, and whoever starts
    or ends a decode runs `evict_excess`. Every atomic load-and-branch, every
    atomic store and every mutex region is one step of one thread; the registry
    mutex is held across the many steps of the eviction loop, one for each flag and
    each stamp it loads, and the victim's own mutex across the last three. */
module Residency {
  import opened Wrappers
  import opened CdAudioTypes

  const MAX_RESIDENT := 2

  /** What never changes about a track: its published length, whether it takes
      part in the mount's residency, and the bytes its file decodes to. */
  datatype Info = Info(sectors: nat, registered: bool, audio: seq<int>) {
    predicate Wf() { |audio| % 4 == 0 }
    function Size(): nat { sectors * SECTOR_BYTES }
    function Frames(): nat { |audio| / 4 }
    /** The track as the table of contents promises it. */
    function Image(): seq<int> { Padded(audio, Size()) }
    /** The worker's scratch buffer once `decoded` sample frames came out. */
    function Scratch(decoded: nat): seq<int>
      requires decoded <= Frames()
    { Padded(audio[..4 * decoded], Size()) }
    function Written(decoded: nat): nat { Min(decoded, sectors * SECTOR_SAMPLES) }
  }

  /** The shared half of a track: `pcm` and `ready` live under its mutex, the
      other fields are atomics. */
  datatype Track = Track(pcm: seq<int>, ready: nat, started: bool, finished: bool, cancel: bool, touch: nat)

  /** A worker's locals: sample frames decoded, sectors last reported, bytes the
      decoder has handed over, bytes the publisher has copied. */
  datatype Worker = Worker(decoded: nat, last: nat, sent: nat, copied: nat)

  /** Where the eviction loop stands. `Counting` has loaded `finished` of the first
      `next` residents and found it set `found` times. `seen` holds what the search
      for the victim loaded so far: a resident's stamp, or nothing if it was not
      finished; `Weighing` has found the next one finished and not yet loaded its
      stamp. */
  datatype Stage =
    | Waiting
    | Counting(next: nat, found: nat)
    | Choosing(seen: seq<Option<nat>>)
    | Weighing(seen: seq<Option<nat>>)
    | Clearing(victim: nat)
    | Unfinishing(victim: nat)
    | Unstarting(victim: nat)

  /** What a thread does once its eviction loop is over. */
  datatype After = ThenSpawn(track: nat) | ThenExit

  datatype Pc =
    | Idle
    | Touching(track: nat, index: nat)
    | Stamped(track: nat, index: nat, stamp: nat)
    | Reading(track: nat, index: nat)
    | Swapping(track: nat)
    | Allocating(track: nat)
    | Admitting(track: nat)
    | Evicting(stage: Stage, after: After)
    | Spawning(track: nat)
    | Retracting(track: nat)
    | Decoding(track: nat, w: Worker)
    | Publishing(track: nat, w: Worker, count: nat, upto: nat, closing: bool)
    | Polling(track: nat, w: Worker)
    | Finishing(track: nat)
    | Exited

  datatype Served = Served(track: nat, index: nat, frame: Option<seq<int>>)

  datatype State = State(
    disc: seq<Info>,
    tracks: seq<Track>,
    resident: seq<nat>,
    threads: map<nat, Pc>,
    clock: nat,
    spawnFailed: bool,
    log: seq<Served>)

  datatype Step =
    | CallFrame(th: nat, t: nat, index: nat)
    | TakeStamp(th: nat)
    | StoreTouch(th: nat)
    | ReadFrame(th: nat)
    | SwapStarted(th: nat)
    | Allocate(th: nat)
    | Admit(th: nat)
    | Spawn(th: nat, worker: nat)
    | FailSpawn(th: nat)
    | Retract(th: nat)
    | DecodePacket(th: nat, frames: nat)
    | EndOfStream(th: nat)
    | FailDecode(th: nat)
    | Publish(th: nat)
    | Poll(th: nat)
    | Finish(th: nat)
    | LockRegistry(th: nat)
    | CountNext(th: nat)
    | ScanNext(th: nat)
    | WeighNext(th: nat)
    | ChooseVictim(th: nat)
    | ClearVictim(th: nat)
    | UnfinishVictim(th: nat)
    | UnstartVictim(th: nat)
    | Drop(th: nat, t: nat)

  // ----- Locks ---------------------------------------------------------------

  /** The registry mutex is held through every stage but the first. */
  predicate OwnsRegistry(pc: Pc) {
    pc.Evicting? && !pc.stage.Waiting?
  }

  ghost predicate RegistryFree(s: State) {
    forall a :: a in s.threads ==> !OwnsRegistry(s.threads[a])
  }

  /** The evictor keeps the victim's mutex until both flags are stored. */
  predicate OwnsBuffer(pc: Pc, t: nat) {
    pc.Evicting? && (pc.stage == Unfinishing(t) || pc.stage == Unstarting(t))
  }

  ghost predicate BufferFree(s: State, t: nat) {
    forall a :: a in s.threads ==> !OwnsBuffer(s.threads[a], t)
  }

  // ----- Eviction candidates --------------------------------------------------

  predicate FinishedAt(s: State, k: nat) {
    k < |s.resident| && s.resident[k] < |s.tracks| && s.tracks[s.resident[k]].finished
  }

  function TouchAt(s: State, k: nat): nat {
    if k < |s.resident| && s.resident[k] < |s.tracks| then s.tracks[s.resident[k]].touch else 0
  }

  /** How many of the first `n` residents no worker is still writing. */
  function Evictable(s: State, n: nat): nat
    requires n <= |s.resident|
  {
    if n == 0 then 0 else Evictable(s, n - 1) + if FinishedAt(s, n - 1) then 1 else 0
  }

  /** How many from position `i` on. */
  function Ahead(s: State, i: nat): nat
    decreases |s.resident| - i
  {
    if i >= |s.resident| then 0 else (if FinishedAt(s, i) then 1 else 0) + Ahead(s, i + 1)
  }

  /** Position of the least stamp loaded, the earliest on a tie. */
  function Oldest(seen: seq<Option<nat>>): (r: Option<nat>)
    ensures r.None? <==> forall k :: 0 <= k < |seen| ==> seen[k].None?
    ensures r.Some? ==> r.value < |seen| && seen[r.value].Some?
    ensures r.Some? ==> forall k :: 0 <= k < |seen| && seen[k].Some? ==> seen[r.value].value <= seen[k].value
    ensures r.Some? ==> forall k :: 0 <= k < r.value && seen[k].Some? ==> seen[r.value].value < seen[k].value
  {
    if seen == [] then None else
    var last := |seen| - 1;
    var before := Oldest(seen[..last]);
    if seen[last].Some? && (before.None? || seen[last].value < seen[before.value].value) then Some(last) else before
  }

  function Without(r: seq<nat>, t: nat): seq<nat> {
    if r == [] then [] else (if r[0] == t then [] else [r[0]]) + Without(r[1..], t)
  }

  // ----- The steps ------------------------------------------------------------

  function Goto(s: State, th: nat, pc: Pc): State {
    s.(threads := s.threads[th := pc])
  }

  function Put(s: State, t: nat, track: Track): State
    requires t < |s.tracks|
  {
    s.(tracks := s.tracks[t := track])
  }

  function Leave(after: After): Pc {
    match after case ThenSpawn(t) => Spawning(t) case ThenExit => Exited
  }

  /** The eviction loop's guard, one load of its count, or the decision at its end. */
  function Counted(s: State, i: nat, found: nat, after: After): Pc {
    if i == 0 && |s.resident| <= MAX_RESIDENT then Leave(after)
    else if i < |s.resident| then Evicting(Counting(i + 1, if FinishedAt(s, i) then found + 1 else found), after)
    else if found < 2 then Leave(after)
    else Evicting(Choosing([]), after)
  }

  /** The victim, if there is one, leaves the registry. */
  function TakenOut(s: State, th: nat, victim: Option<nat>, after: After): State
    requires victim.Some? ==> victim.value < |s.resident|
  {
    match victim
    case None => Goto(s, th, Leave(after))
    case Some(k) =>
      Goto(s, th, Evicting(Clearing(s.resident[k]), after)).(resident := s.resident[..k] + s.resident[k + 1..])
  }

  /** What `frame` copies out under the mutex. */
  function Fetch(track: Track, index: nat): Option<seq<int>> {
    var off := index * SECTOR_BYTES;
    if index < track.ready && off + SECTOR_BYTES <= |track.pcm|
    then Some(track.pcm[off..off + SECTOR_BYTES]) else None
  }

  /** The publish callback: copy only if the destination range exists. */
  function Copied(track: Track, w: Worker, bytes: seq<int>, count: nat): Track {
    if w.copied + |bytes| <= |track.pcm|
    then track.(pcm := track.pcm[..w.copied] + bytes + track.pcm[w.copied + |bytes|..], ready := count)
    else track
  }

  /** Where the decoder goes after a packet: to a report once enough whole
      sectors completed, else to the next packet. */
  function AfterPacket(info: Info, t: nat, w: Worker): Pc {
    var complete := info.Written(w.decoded) / SECTOR_SAMPLES;
    if complete >= w.last + PublishStep(complete)
    then Publishing(t, w.(last := complete), complete, Min(complete * SECTOR_BYTES, info.Size()), false)
    else Decoding(t, w)
  }

  ghost predicate Enabled(s: State, step: Step) {
    match step
    case CallFrame(th, t, index) => th in s.threads && s.threads[th].Idle? && t < |s.tracks|
    case TakeStamp(th) => th in s.threads && s.threads[th].Touching?
    case StoreTouch(th) => th in s.threads && s.threads[th].Stamped?
    case ReadFrame(th) => th in s.threads && s.threads[th].Reading? && BufferFree(s, s.threads[th].track)
    case SwapStarted(th) => th in s.threads && s.threads[th].Swapping?
    case Allocate(th) => th in s.threads && s.threads[th].Allocating? && BufferFree(s, s.threads[th].track)
    case Admit(th) => th in s.threads && s.threads[th].Admitting? && RegistryFree(s)
    case Spawn(th, worker) => th in s.threads && s.threads[th].Spawning? && worker !in s.threads
    case FailSpawn(th) => th in s.threads && s.threads[th].Spawning?
    case Retract(th) => th in s.threads && s.threads[th].Retracting?
    case DecodePacket(th, frames) =>
      && th in s.threads && s.threads[th].Decoding? && s.threads[th].track < |s.disc|
      && s.threads[th].w.decoded + frames <= s.disc[s.threads[th].track].Frames()
    case EndOfStream(th) =>
      && th in s.threads && s.threads[th].Decoding? && s.threads[th].track < |s.disc|
      && s.threads[th].w.decoded == s.disc[s.threads[th].track].Frames()
    case FailDecode(th) => th in s.threads && s.threads[th].Decoding?
    case Publish(th) =>
      && th in s.threads && s.threads[th].Publishing? && BufferFree(s, s.threads[th].track)
    case Poll(th) => th in s.threads && s.threads[th].Polling?
    case Finish(th) => th in s.threads && s.threads[th].Finishing?
    case LockRegistry(th) =>
      th in s.threads && s.threads[th].Evicting? && s.threads[th].stage.Waiting? && RegistryFree(s)
    case CountNext(th) => th in s.threads && s.threads[th].Evicting? && s.threads[th].stage.Counting?
    case ScanNext(th) =>
      && th in s.threads && s.threads[th].Evicting? && s.threads[th].stage.Choosing?
      && |s.threads[th].stage.seen| < |s.resident|
    case WeighNext(th) =>
      && th in s.threads && s.threads[th].Evicting? && s.threads[th].stage.Weighing?
      && |s.threads[th].stage.seen| < |s.resident|
    case ChooseVictim(th) =>
      && th in s.threads && s.threads[th].Evicting? && s.threads[th].stage.Choosing?
      && |s.threads[th].stage.seen| == |s.resident|
    case ClearVictim(th) =>
      && th in s.threads && s.threads[th].Evicting? && s.threads[th].stage.Clearing?
      && BufferFree(s, s.threads[th].stage.victim)
    case UnfinishVictim(th) => th in s.threads && s.threads[th].Evicting? && s.threads[th].stage.Unfinishing?
    case UnstartVictim(th) => th in s.threads && s.threads[th].Evicting? && s.threads[th].stage.Unstarting?
    case Drop(th, t) => th in s.threads && s.threads[th].Idle? && t < |s.tracks|
  }

  /** Structural sanity: every track number a thread carries names a track, and one
      with something to play, since `frame` turns away from an empty one. */
  ghost predicate PcWf(disc: seq<Info>, pc: Pc) {
    match pc
    case Idle => true
    case Exited => true
    case Evicting(stage, after) =>
      && (after.ThenSpawn? ==> after.track < |disc| && disc[after.track].registered && disc[after.track].sectors > 0)
      && (stage.Clearing? || stage.Unfinishing? || stage.Unstarting?
          ==> stage.victim < |disc| && disc[stage.victim].registered)
      && (stage.Unstarting? ==> after != ThenSpawn(stage.victim))
    case Admitting(t) => t < |disc| && disc[t].registered && disc[t].sectors > 0
    case Decoding(t, w) => t < |disc| && disc[t].sectors > 0 && w.decoded <= disc[t].Frames()
    case Polling(t, w) => t < |disc| && disc[t].sectors > 0 && w.decoded <= disc[t].Frames()
    case Publishing(t, w, count, upto, closing) =>
      t < |disc| && disc[t].sectors > 0 && w.decoded <= disc[t].Frames() && w.sent <= upto <= disc[t].Size()
    case _ => pc.track < |disc| && disc[pc.track].sectors > 0
  }

  ghost predicate Wf(s: State) {
    && |s.tracks| == |s.disc|
    && (forall t :: 0 <= t < |s.disc| ==> s.disc[t].Wf())
    && (forall a :: a in s.threads ==> PcWf(s.disc, s.threads[a]))
    && (forall t: nat :: t in s.resident ==> t < |s.disc| && s.disc[t].registered)
  }

  /** The steps of the eviction loop. */
  ghost function Evict(s: State, step: Step): State
    requires Wf(s) && Enabled(s, step)
  {
    match step
    case LockRegistry(th) => Goto(s, th, Evicting(Counting(0, 0), s.threads[th].after))
    case CountNext(th) => Goto(s, th, Counted(s, s.threads[th].stage.next, s.threads[th].stage.found,
                                              s.threads[th].after))
    case ScanNext(th) =>
      var after, seen := s.threads[th].after, s.threads[th].stage.seen;
      Goto(s, th, Evicting(if FinishedAt(s, |seen|) then Weighing(seen) else Choosing(seen + [None]), after))
    case WeighNext(th) =>
      var after, seen := s.threads[th].after, s.threads[th].stage.seen;
      Goto(s, th, Evicting(Choosing(seen + [Some(TouchAt(s, |seen|))]), after))
    case ChooseVictim(th) =>
      TakenOut(s, th, Oldest(s.threads[th].stage.seen), s.threads[th].after)
    case ClearVictim(th) =>
      var pc := s.threads[th];
      var v := pc.stage.victim;
      Goto(Put(s, v, s.tracks[v].(pcm := [], ready := 0)), th, Evicting(Unfinishing(v), pc.after))
    case UnfinishVictim(th) =>
      var pc := s.threads[th];
      var v := pc.stage.victim;
      Goto(Put(s, v, s.tracks[v].(finished := false)), th, Evicting(Unstarting(v), pc.after))
    case UnstartVictim(th) =>
      var pc := s.threads[th];
      var v := pc.stage.victim;
      Goto(Put(s, v, s.tracks[v].(started := false)), th, Evicting(Counting(0, 0), pc.after))
    case _ => s
  }

  ghost function Apply(s: State, step: Step): State
    requires Wf(s) && Enabled(s, step)
  {
    match step
    case CallFrame(th, t, index) =>
      if index >= s.disc[t].sectors
      then s.(log := s.log + [Served(t, index, None)])
      else Goto(s, th, Touching(t, index))
    case TakeStamp(th) =>
      var pc := s.threads[th];
      Goto(s, th, Stamped(pc.track, pc.index, s.clock)).(clock := s.clock + 1)
    case StoreTouch(th) =>
      var pc := s.threads[th];
      Goto(Put(s, pc.track, s.tracks[pc.track].(touch := pc.stamp)), th, Reading(pc.track, pc.index))
    case ReadFrame(th) =>
      var pc := s.threads[th];
      var frame := Fetch(s.tracks[pc.track], pc.index);
      Goto(s, th, if frame.None? then Swapping(pc.track) else Idle)
        .(log := s.log + [Served(pc.track, pc.index, frame)])
    case SwapStarted(th) =>
      var t := s.threads[th].track;
      if s.tracks[t].started then Goto(s, th, Idle)
      else Goto(Put(s, t, s.tracks[t].(started := true)), th, Allocating(t))
    case Allocate(th) =>
      var t := s.threads[th].track;
      Goto(Put(s, t, s.tracks[t].(pcm := Zeros(s.disc[t].Size()), ready := 0)), th,
           if s.disc[t].registered then Admitting(t) else Spawning(t))
    case Admit(th) =>
      var t := s.threads[th].track;
      Goto(s, th, Evicting(Waiting, ThenSpawn(t))).(resident := Without(s.resident, t) + [t])
    case Spawn(th, worker) =>
      var t := s.threads[th].track;
      Goto(Goto(s, th, Idle), worker, Decoding(t, Worker(0, 0, 0, 0)))
    case FailSpawn(th) => Goto(s, th, Retracting(s.threads[th].track)).(spawnFailed := true)
    case Retract(th) =>
      var t := s.threads[th].track;
      Goto(Put(s, t, s.tracks[t].(started := false)), th, Idle)
    case DecodePacket(th, frames) =>
      var pc := s.threads[th];
      Goto(s, th, AfterPacket(s.disc[pc.track], pc.track, pc.w.(decoded := pc.w.decoded + frames)))
    case EndOfStream(th) =>
      var pc := s.threads[th];
      var info := s.disc[pc.track];
      Goto(s, th, Publishing(pc.track, pc.w, info.sectors,
                             Covered(info.Written(pc.w.decoded), info.Size(), pc.w.sent), true))
    case FailDecode(th) => Goto(s, th, Finishing(s.threads[th].track))
    case Publish(th) =>
      var pc := s.threads[th];
      var t := pc.track;
      var bytes := s.disc[t].Scratch(pc.w.decoded)[pc.w.sent..pc.upto];
      var after := Copied(s.tracks[t], pc.w, bytes, pc.count);
      var copied := if pc.w.copied + |bytes| <= |s.tracks[t].pcm| then pc.w.copied + |bytes| else pc.w.copied;
      Goto(Put(s, t, after), th,
           if pc.closing then Finishing(t) else Polling(t, pc.w.(sent := pc.upto, copied := copied)))
    case Poll(th) =>
      var pc := s.threads[th];
      Goto(s, th, if s.tracks[pc.track].cancel then Finishing(pc.track) else Decoding(pc.track, pc.w))
    case Finish(th) =>
      var t := s.threads[th].track;
      Goto(Put(s, t, s.tracks[t].(finished := true)), th,
           if s.disc[t].registered then Evicting(Waiting, ThenExit) else Exited)
    case Drop(th, t) => Put(s, t, s.tracks[t].(cancel := true))
    case _ => Evict(s, step)
  }

  /** A mount before anything was touched: no buffers, no flags, callers idle. */
  ghost predicate Init(s: State) {
    && |s.tracks| == |s.disc|
    && (forall t :: 0 <= t < |s.disc| ==> s.disc[t].Wf() && s.tracks[t] == Track([], 0, false, false, false, 0))
    && s.resident == [] && s.log == [] && !s.spawnFailed
    && (forall a :: a in s.threads ==> s.threads[a].Idle?)
  }

  // ----- The invariant --------------------------------------------------------

  /** `pc` is the one activity entitled to drive track `t` from its start to its
      end: it began the decode, it is the worker, or it is about to let go of the
      start flag on the evictor's side. */
  predicate Holds(pc: Pc, t: nat) {
    match pc
    case Allocating(u) => u == t
    case Admitting(u) => u == t
    case Evicting(stage, after) => after == ThenSpawn(t) || stage == Unstarting(t)
    case Spawning(u) => u == t
    case Retracting(u) => u == t
    case Finishing(u) => u == t
    case _ => Writes(pc, t)
  }

  /** A worker that may still copy into `t`'s buffer. */
  predicate Writes(pc: Pc, t: nat) {
    match pc
    case Decoding(u, _) => u == t
    case Publishing(u, _, _, _, _) => u == t
    case Polling(u, _) => u == t
    case _ => false
  }

  ghost predicate Held(s: State, t: nat) {
    exists a :: a in s.threads && Holds(s.threads[a], t)
  }

  ghost predicate OneHolder(s: State) {
    forall a, b, t: nat ::
      a in s.threads && b in s.threads && Holds(s.threads[a], t) && Holds(s.threads[b], t) ==> a == b
  }

  ghost predicate OneOwner(s: State) {
    forall a, b ::
      a in s.threads && b in s.threads && OwnsRegistry(s.threads[a]) && OwnsRegistry(s.threads[b]) ==> a == b
  }

  ghost predicate FlagsMatch(s: State)
    requires |s.tracks| == |s.disc|
  {
    && (forall a, t: nat :: a in s.threads && t < |s.tracks| && Holds(s.threads[a], t) ==>
          s.tracks[t].started && !s.tracks[t].finished)
    && (forall t: nat :: t < |s.tracks| && s.tracks[t].started && !s.tracks[t].finished ==> Held(s, t))
    && (forall t: nat :: t < |s.tracks| && s.tracks[t].finished ==> s.tracks[t].started)
  }

  ghost predicate NoRepeats(r: seq<nat>) {
    forall i, j :: 0 <= i < j < |r| ==> r[i] != r[j]
  }

  ghost predicate TwoFinished(s: State) {
    exists i: nat, j: nat :: i < j < |s.resident| && FinishedAt(s, i) && FinishedAt(s, j)
  }

  /** A search for a victim in progress: whatever it saw finished still is, and if it
      saw nothing yet there are two candidates left to see. */
  ghost predicate SearchOk(s: State, seen: seq<Option<nat>>) {
    && |seen| <= |s.resident| && |s.resident| > MAX_RESIDENT && TwoFinished(s)
    && (forall k: nat :: k < |seen| && seen[k].Some? ==> FinishedAt(s, k))
    && (Oldest(seen).None? ==> Ahead(s, |seen|) >= 2)
  }

  /** What the registry's owner may rely on between its steps. */
  ghost predicate StageOk(s: State, stage: Stage)
    requires |s.tracks| == |s.disc|
  {
    match stage
    case Waiting => true
    case Counting(i, found) => i <= |s.resident| && found <= Evictable(s, i) && (i > 0 ==> |s.resident| > MAX_RESIDENT)
    case Choosing(seen) => SearchOk(s, seen)
    case Weighing(seen) => SearchOk(s, seen) && FinishedAt(s, |seen|)
    case Clearing(v) => v < |s.tracks| ==> s.tracks[v].finished && v !in s.resident
    case Unfinishing(v) => v < |s.tracks| ==> s.tracks[v].finished && v !in s.resident
    case Unstarting(v) => v !in s.resident
  }

  ghost predicate VictimsOut(s: State)
    requires |s.tracks| == |s.disc|
  {
    forall a :: a in s.threads && s.threads[a].Evicting? ==> StageOk(s, s.threads[a].stage)
  }

  /** An evictor that has not yet missed two candidates. */
  predicate Notices(s: State, pc: Pc) {
    pc.Evicting? && (pc.stage.Counting? ==> pc.stage.found + Ahead(s, pc.stage.next) >= 2)
  }

  ghost predicate Backlog(s: State) { |s.resident| > MAX_RESIDENT && TwoFinished(s) }

  /** Over the bound with two candidates in hand, somebody is bound to evict. */
  ghost predicate BacklogOwed(s: State) {
    Backlog(s) ==> exists a :: a in s.threads && Notices(s, s.threads[a])
  }

  /** On its way into the registry, or just out of it. */
  predicate Carries(pc: Pc, t: nat) {
    pc == Admitting(t) || (pc.Evicting? && pc.stage == Clearing(t))
  }

  /** A registered track with a buffer is in the registry or being carried. */
  ghost predicate BuffersListed(s: State)
    requires |s.tracks| == |s.disc|
  {
    forall t: nat :: t < |s.tracks| && s.disc[t].registered && s.tracks[t].pcm != [] && t !in s.resident ==>
      exists a :: a in s.threads && Carries(s.threads[a], t)
  }

  /** Every track in the registry holds its buffer. */
  ghost predicate ResidentsBuffered(s: State) {
    forall t: nat :: t in s.resident && t < |s.tracks| ==> s.tracks[t].pcm != []
  }

  /** Only a failed spawn leaves a resident track that nobody ever started. */
  ghost predicate ResidentsStarted(s: State)
    requires |s.tracks| == |s.disc|
  {
    !s.spawnFailed ==>
      && (forall t: nat :: t in s.resident && t < |s.tracks| ==> s.tracks[t].started)
      && (forall a :: a in s.threads ==> !s.threads[a].Retracting?)
  }

  /** The published prefix of a buffer is the track's own prefix. */
  ghost predicate PrefixTrue(info: Info, track: Track) {
    && (track.pcm == [] || |track.pcm| == info.Size())
    && track.ready * SECTOR_BYTES <= |track.pcm|
    && track.pcm[..track.ready * SECTOR_BYTES] == info.Image()[..track.ready * SECTOR_BYTES]
  }

  /** A buffer `sent` bytes of which are the image and the rest still silence. */
  ghost predicate FilledTo(info: Info, track: Track, sent: nat) {
    && |track.pcm| == info.Size()
    && sent <= info.Size()
    && (forall k :: 0 <= k < info.Size() ==> track.pcm[k] == if k < sent then info.Image()[k] else 0)
  }

  ghost predicate WorkerOk(info: Info, track: Track, w: Worker) {
    && w.decoded <= info.Frames()
    && w.sent == w.copied
    && FilledTo(info, track, w.sent)
    && track.ready * SECTOR_BYTES <= w.sent
  }

  ghost predicate ReportedTo(info: Info, track: Track, w: Worker) {
    && WorkerOk(info, track, w)
    && w.sent == w.last * SECTOR_BYTES
    && w.last <= info.Written(w.decoded) / SECTOR_SAMPLES
  }

  ghost predicate BufferOk(s: State, pc: Pc)
    requires |s.tracks| == |s.disc|
  {
    match pc
    case Admitting(t) => t < |s.tracks| ==> FilledTo(s.disc[t], s.tracks[t], 0) && s.tracks[t].ready == 0
    case Spawning(t) => t < |s.tracks| ==> FilledTo(s.disc[t], s.tracks[t], 0) && s.tracks[t].ready == 0
    case Evicting(_, after) =>
      after.ThenSpawn? && after.track < |s.tracks| ==>
        FilledTo(s.disc[after.track], s.tracks[after.track], 0) && s.tracks[after.track].ready == 0
    case Decoding(t, w) =>
      t < |s.tracks| ==> ReportedTo(s.disc[t], s.tracks[t], w)
    case Polling(t, w) =>
      t < |s.tracks| ==> ReportedTo(s.disc[t], s.tracks[t], w)
    case Publishing(t, w, count, upto, closing) =>
      t < |s.tracks| ==>
        && WorkerOk(s.disc[t], s.tracks[t], w)
        && w.sent <= upto <= s.disc[t].Size()
        && (!closing ==>
              count == w.last && upto == count * SECTOR_BYTES && count <= s.disc[t].Written(w.decoded) / SECTOR_SAMPLES)
        && (closing ==> w.decoded == s.disc[t].Frames() && count == s.disc[t].sectors)
        && (closing ==> upto >= Min(4 * s.disc[t].Written(w.decoded), s.disc[t].Size()))
    case _ => true
  }

  ghost predicate BuffersTrue(s: State)
    requires |s.tracks| == |s.disc|
  {
    && (forall t: nat :: t < |s.tracks| ==> PrefixTrue(s.disc[t], s.tracks[t]))
    && (forall a :: a in s.threads ==> BufferOk(s, s.threads[a]))
  }

  /** Every answer `frame` ever gave was silence or the true sector. */
  ghost predicate LogTrue(s: State) {
    forall k :: 0 <= k < |s.log| ==>
      s.log[k].frame.Some? ==>
        && s.log[k].track < |s.disc|
        && s.log[k].index < s.disc[s.log[k].track].sectors
        && s.log[k].frame.value == Sector(s.disc[s.log[k].track], s.log[k].index)
  }

  function Sector(info: Info, index: nat): seq<int>
    requires index < info.sectors
  {
    info.Image()[index * SECTOR_BYTES..(index + 1) * SECTOR_BYTES]
  }

  ghost predicate Inv(s: State) {
    && Wf(s) && OneHolder(s) && OneOwner(s) && FlagsMatch(s) && NoRepeats(s.resident)
    && VictimsOut(s) && BacklogOwed(s) && BuffersListed(s) && ResidentsBuffered(s)
    && ResidentsStarted(s) && BuffersTrue(s) && LogTrue(s)
  }
}
