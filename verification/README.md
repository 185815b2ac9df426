# IzarraVM core in Dafny

IzarraVM is a PC emulator written in Rust, with a Python script that builds its
boot disk. This project models the parts of it where behaviour spreads over many
steps, threads or bytes, and proves what those parts promise for every run and
every input. `dafny verify dfyconfig.toml` verifies the whole project.

- **CD audio residency** (`Residency`, `ResidencyProof`, `Starts`, `FailedSpawns`,
  `TouchRace`, `DecodePublish`). Callers of `frame`, decode workers and evictors
  as a state machine of interleaved atomic steps, any number of threads, one step
  for each atomic load-and-branch, atomic store or mutex region, the loads of the
  eviction scan one by one. Over every run `frame` answers silence or the exact
  sector, a track never has two live writers, a publish is never refused, eviction
  takes a spare finished track with the least stamp it loaded, which is the least
  recently touched one exactly if no store overtook the search, and at rest the
  buffers held are exactly the residents', at most two of them exactly when the
  tracks stranded by failed spawns leave room. The decoder loop that feeds the
  publisher is a method on a byte array.
- **Protected-mode control transfers** (`CpuTypes`, `CpuCore`, `AlignmentLoop`,
  `LostReturn`, `V86RoundTrip`, `TaskChain`). A class `Cpu` with registers,
  segment caches and byte memory in which any page may be absent. Event delivery
  is all or nothing, its escalation makes at most nine attempts, ten for `INT n`,
  with at most one double fault among them, and at most four exactly when alignment checks
  cannot reach a handler. A faulting IRET changes no register but CS on an outward
  return refused later, and loses NT exactly if it was a task return whose
  back-link had been accepted. A V86 task interrupted by any event resumes where
  it was after any well-behaved handler, and over every run of nested task calls
  and returns no task on the chain is re-entered and every return resumes the task
  that made the matching call.
- **MPU-401** (`MidiParsing`, `Mpu401Model`, `Mpu401Proof`, `Mpu401Device`).
  The MIDI byte parser and the intelligent-mode sequencer. Any bytes give only
  well-formed messages, legal streams are read back message for message with
  real-time bytes anywhere, the event-jumping clock equals the one-tick-at-a-time
  clock, polling leaves no trace, no wake-up comes late and the pulse count is
  exact.
- **TLB** (`TlbModel`). The two-slot generation-tagged cache refines two finite
  maps, until the 32-bit generation counter has gone round; exactly when a mint
  and an insert are safe after that.
- **Canonical state container** (`StateContainer`). Writer and parser are
  inverse in both directions: every container has exactly one encoding and the
  parser accepts exactly the encodings.
- **Resampler** (`Resampling`). Splitting the input into chunks changes nothing,
  and the drain of the history buffer stays in bounds if and only if the step is
  at most 64 input frames.
- **Sound Blaster DMA playback** (`SbDspModel`). Stereo pairing over every
  starved or fed run, block interrupts counted exactly, and the predicted
  distance to the next interrupt met to the frame.
- **FreeDOS disk image** (`FatLayout`, `FatImage`, `FatExtract`, `FatRoundTrip`,
  `FatBuilder`, `FatRebuild`). The FAT32 builder writes into one buffer in the
  script's order; what it leaves is a closed-form image; extraction gives back
  the boot sectors and files it was built from; building from an extraction
  reproduces the image byte for byte.

`Wrappers`, `Arithmetic`, `LittleEndian` and `CdAudioTypes` hold shared definitions.

## Where the code and its comments differ

- `lib.rs` says, beside the cap of eight escalations, that every fault a frame
  build can raise is contributory or a page fault, that a chain reaches the double
  fault within two steps, and that the cap only guards against a future change.
  A frame built at level 3 can also raise an alignment check, which is benign:
  `AlignmentLoop.CapIsReached` gives, for every register state that alignment
  checks can reach, tables under which the cap is what ends the chain, and
  `CpuCore.Cpu.TakeEvent` proves that three steps suffice for every other.
  `AlignmentLoop.IntReachesCap` does the same for `INT n`, whose own delivery is not
  part of the loop, so that it makes one attempt more.
  Without alignment checks too two steps are not always enough:
  `CpuCore.TwoEscalations` says exactly when they are and `CpuCore.ThirdEscalation`
  gives a chain that needs three.
- `control.rs` says that every escalation target is vector 0x0E or below. That
  holds in real mode, which runs at level 0; in protected mode the target can be
  the alignment check, vector 17.
- `control.rs` says that the faults of a task switch up to its commit are ordinary
  restartable exceptions. An IRET that returns to a task clears NT before it saves
  the outgoing task. `CpuCore.Cpu.Iret` proves that a page fault from then on is
  exactly when it loses NT, and `LostReturn.NtIsLost` gives a machine where it does:
  tried again, that IRET would pop a stack frame instead of returning to the task.
- `track.rs` promises that no more than two tracks hold a buffer and names a gap
  where a failed spawn is never withdrawn from the registry.
  `ResidencyProof.QuiescentBound` is the exact condition for the bound, and
  `FailedSpawns.BuffersPileUp` gives, for every `n`, a run that ends at rest with
  `n` buffers held.
- `track.rs` picks the victim by its last touch, loading one stamp after another
  while `frame` may store one without the lock. `ResidencyProof.VictimIsSpare`
  states the choice over the stamps loaded, `ResidencyProof.VictimIsOldest` exactly
  when that is the least recently touched track, and `TouchRace.NewestEvicted` gives
  a run in which the track evicted is the one touched last of all.
- `paging.rs` skips generation 0 and resets the table when the counter comes
  round, but not the other slot's live generation. `TlbModel.FlushesAlias` gives
  a run of flushes after which both slots carry generation 2, and
  `TlbModel.MintWorks` says exactly when a mint keeps the slots apart.
- `resample.rs` drains its history by an amount that can exceed its length for a
  step over 64. `Resampling.SafeExactly` is the exact condition. The synthesizer's
  49716 to 44100 Hz is far inside it, but the decoder builds a resampler from any
  rate above zero that a sound file declares, and `Resampling.SafeRates` puts the
  limit there at 2822400 Hz.
- V86 delivery pushes the low 16 bits of EIP. `V86RoundTrip.TakeAndReturn` proves
  that EIP comes back exactly if and only if it fitted them.

## Model

| member | source | states |
|---|---|---|
| Residency.Oldest | crates/izarravm-cdaudio/src/track.rs:331-342 | the first of the least stamps loaded, none exactly when no stamp was loaded |
| ResidencyProof.InitKept | crates/izarravm-cdaudio/src/track.rs:106-131 | a fresh mount satisfies the protocol invariant |
| ResidencyProof.StepKept | crates/izarravm-cdaudio/src/track.rs:152-407 | every enabled atomic step of every thread, each load of the eviction scan among them, keeps the invariant: one holder of a started track, one owner of each lock, flags that match the threads, residents that hold their buffers, buffers whose ready prefix is true, and no eviction owed that nobody is bound to make |
| ResidencyProof.RunKept | crates/izarravm-cdaudio/src/track.rs:152-407 | the invariant holds after every interleaving of any number of threads |
| ResidencyProof.FramesAreTrue | crates/izarravm-cdaudio/src/track.rs:370-407 | whatever ran before, a frame served is the sector asked for, zero-padded past the end of the audio |
| ResidencyProof.OneWriter | crates/izarravm-cdaudio/src/track.rs:152-242 | no track has two activities entitled to write it, and no evictor clears or unflags a track that has one |
| ResidencyProof.PublishNeverRefused | crates/izarravm-cdaudio/src/track.rs:197-242 | the publisher always finds its destination range, and has copied exactly what the decoder reported |
| ResidencyProof.VictimIsSpare | crates/izarravm-cdaudio/src/track.rs:292-353 | what eviction takes is finished, not the last of the finished residents, and has the first of the least stamps its scan loaded |
| ResidencyProof.VictimIsOldest | crates/izarravm-cdaudio/src/track.rs:331-342 | that is the least recently touched of all finished residents if and only if its stamp now is past none of those that were touched or finished behind the scan and, where its own was raised since it was loaded, past none it was weighed against; always if nothing moved behind the scan |
| TouchRace.StartAndEnd | crates/izarravm-cdaudio/src/track.rs:152-242 | a run of a whole decode with room in the registry: caller idle, worker gone, track listed last and finished with the stamp of its touch, nothing else moved |
| TouchRace.NewestEvicted | crates/izarravm-cdaudio/src/track.rs:331-342 | for every mount with three playable tracks and two callers, a run whose eviction takes the most recently touched track of all and keeps a finished one touched before it |
| ResidencyProof.AtRest | crates/izarravm-cdaudio/src/track.rs:280-353 | at rest a registered track holds a buffer if and only if it is listed, a track is started if and only if it is finished, and a list over the limit has fewer than two candidates |
| ResidencyProof.QuiescentBound | crates/izarravm-cdaudio/src/track.rs:244-353 | at rest the buffers held are exactly those of the stranded and the finished residents, and they are at most two if and only if at most one is stranded, or two are and none is finished; without a failed spawn none is stranded |
| FailedSpawns.FailedStart | crates/izarravm-cdaudio/src/track.rs:152-193 | a run in which the spawn fails: the caller is idle again, the track stays listed with a whole buffer and is not finished, nothing else moved |
| FailedSpawns.BuffersPileUp | crates/izarravm-cdaudio/src/track.rs:171-192 | for every n a run that ends with every thread at rest and n buffers held, so the bound of two needs its hypothesis |
| DecodePublish.DecodeInto | crates/izarravm-cdaudio/src/decode.rs:59-210 | the buffer ends as the decoded samples clamped and written in order; the reports hand over a prefix of it with no gap or overlap, each partial report whole sectors exactly; a cancelled decode stops at the report that said so; a finished one leaves everything past the handed prefix untouched |
| DecodePublish.WritePacket | crates/izarravm-cdaudio/src/decode.rs:156-183 | one packet extends the written samples, cut at the end of the buffer, and leaves the part already written alone |
| DecodePublish.MirrorIsWhole | crates/izarravm-cdaudio/src/track.rs:197-242 | a receiver that appends the reports to a zeroed buffer ends with the decoded bytes, zero-padded to the track's length |
| CpuTypes.FlagsRoundTrip | crates/izarravm-cpu/src/control.rs:1092-1133 | the EFLAGS image pushed for a handler and the flags read back from it are inverse |
| CpuTypes.FlagsOfWf | crates/izarravm-cpu/src/control.rs:1092-1133 | every 32-bit image reads as well-formed flags |
| CpuTypes.PushShows | crates/izarravm-cpu/src/memory.rs:2292-2338 | a push in limit puts one more value on top of what the stack shows, wrapping at 16 bits on a small stack, and disturbs none of the values below |
| CpuTypes.PopShows | crates/izarravm-cpu/src/memory.rs:2340-2370 | a pop finds the top value and leaves the stack showing the rest |
| CpuTypes.LineKept | crates/izarravm-cpu/src/memory.rs:1930-1948 | a push is aligned exactly if the stack pointer is a multiple of its size, and keeps it one |
| CpuCore.Cpu.ReadDescriptor | crates/izarravm-cpu/src/control.rs:1658-1680 | the two dwords of the descriptor a selector names, #GP with the selector past the table's limit or for index 0, #PF on an absent page |
| CpuCore.Vet | crates/izarravm-cpu/src/control.rs:2320-2438 | a descriptor that passes is code or data of a kind the register takes, writable for SS; one that fails raises #GP, #SS or #NP |
| CpuCore.Cpu.LoadProtected | crates/izarravm-cpu/src/control.rs:2320-2438 | a segment load yields the cache of the selector's descriptor exactly when no check fails, else the fault of the first check that does or a page fault, and changes memory at most by marking that descriptor accessed |
| CpuCore.Cpu.LoadSegment | crates/izarravm-cpu/src/control.rs:2216-2262 | a failed load changes no segment register; in V86 mode the register is the 8086 form of its selector |
| CpuCore.Cpu.Push | crates/izarravm-cpu/src/memory.rs:2292-2338 | memory and stack pointer move together or not at all; #AC exactly on a misaligned offset at level 3 with AM and AC set, else only #PF and #SS |
| CpuCore.Cpu.Pop | crates/izarravm-cpu/src/memory.rs:2340-2370 | the value on top of the stack and the pointer moved past it, or #AC, #PF or #SS and nothing moved |
| CpuCore.Cpu.SwitchToInnerStack | crates/izarravm-cpu/src/control.rs:1876-1919 | only SS and ESP change, to the pair the TSS holds for the level, ESP in the width of the new SS, and the outer pair is handed back |
| CpuCore.Cpu.BuildFrame | crates/izarravm-cpu/src/control.rs:828-901 | on success the stack shows the whole interrupt frame of the interrupted registers, outer stack and V86 data selectors included, in the gate's width; an alignment check stops it only at level 3, and on its own stack only if that is out of line |
| CpuCore.Cpu.EnterHandler | crates/izarravm-cpu/src/control.rs:776-939 | entry through an interrupt or trap gate: EIP, CS, level, flags and stack as the gate, the target's privilege and the TSS say, V86 data segments nulled; a failure leaves CS and EIP alone; an alignment check only for a level-3 handler that alignment checks can reach |
| CpuCore.Cpu.DeliverToTask | crates/izarravm-cpu/src/control.rs:757-774 | delivery through a task gate is a nested task switch with at most the error code on the new task's stack; an exception before the switch commits leaves every register as it was |
| CpuCore.Cpu.DeliverBody | crates/izarravm-cpu/src/control.rs:630-939 | the gate checks refuse with exactly the vector and code of the first one that fails; a handler entered is the one the gate names with the frame on its stack; a failure may leave only ESP, flags, level and non-CS segments changed |
| CpuCore.Cpu.Deliver | crates/izarravm-cpu/src/control.rs:562-628 | delivery is all or nothing: an exception raised on the way, of vectors 10 to 14 or 17, puts every register back |
| CpuCore.Cpu.Escalate | crates/izarravm-cpu/src/control.rs:421-494 | the escalation loop ends after at most eight nested faults, none of them after a double fault, and after at most three if no alignment check is among them; a handler entered is the handler of the vector the fault classes select, entered from the registers as they were before the event; a triple fault comes from the double fault's own delivery or from the cap and leaves the registers untouched; alignment checks that keep raising themselves reach the cap |
| CpuCore.Cpu.TakeEvent | crates/izarravm-cpu/src/control.rs:353-377 | an exception or external interrupt ends in exactly one of: its handler or its escalation's handler entered from the interrupted registers, a triple fault with the registers intact, or the terminal error of a committed task switch; after at most eight nested faults, and at most three if alignment checks cannot reach a handler from these registers |
| CpuCore.Cpu.TakeInt | crates/izarravm-cpu/src/run.rs:808-846 | `INT n` is delivered once from the next instruction; a fault of that delivery, the gate's own refusal among them, is rewound to the instruction and taken as a fresh exception, so the handler's frame names the `INT`, a triple fault names the first nested vector, and at most nine faults nest, three if alignment checks cannot reach a handler |
| CpuCore.ChainStep | crates/izarravm-cpu/src/lib.rs:6591-6609 | the vector delivered after one more nested fault: the fault itself, or the double fault, by the two classes |
| CpuCore.ChainBound | crates/izarravm-cpu/src/lib.rs:6523-6530 | any three nested faults in a row that are contributory or page faults reach the double fault, whatever came before them |
| CpuCore.TwoEscalations | crates/izarravm-cpu/src/lib.rs:6523-6530 | for all faults a delivery can raise, exactly when two escalations reach the double fault |
| CpuCore.ThirdEscalation | crates/izarravm-cpu/src/lib.rs:6523-6530 | #UD, #GP, #PF is a chain of two escalations still short of the double fault |
| AlignmentLoop.CapIsReached | crates/izarravm-cpu/src/control.rs:421-494 | for every register state alignment checks can reach, protected or V86, tables under which an invalid opcode nests eight alignment checks, never a double fault, and ends at the cap |
| AlignmentLoop.IntReachesCap | crates/izarravm-cpu/src/run.rs:808-846 | for the same register states, tables under which an `INT n` nests nine alignment checks and ends at the cap as a triple fault of the alignment check |
| CpuCore.Cpu.ReturnToV86 | crates/izarravm-cpu/src/control.rs:1250-1294 | the six dwords under the IRETD frame become ESP and five 8086-style segments, flags load with VM allowed, level 3; a fault changes nothing but ESP |
| CpuCore.Cpu.ReturnSame | crates/izarravm-cpu/src/control.rs:1228-1243 | a same-level return loads CS, EIP and the flags the level may change, keeps the other segments, and keeps V86 mode canonical |
| CpuCore.Cpu.ReturnOuter | crates/izarravm-cpu/src/control.rs:1182-1329 | a return outward takes the outer SS and the stack pointer in SS's width, lowers the level to the new CS's RPL and nulls what that level may not use |
| CpuCore.Cpu.InvalidateDataSegments | crates/izarravm-cpu/src/control.rs:1347-1371 | each data segment is nulled exactly when the new level may not use it, CS and SS stay |
| CpuCore.Cpu.IretBody | crates/izarravm-cpu/src/control.rs:1162-1338 | which of the returns an IRET is, what each does, and that a V86 return with an EIP over 16 bits is #GP(0) |
| CpuCore.Cpu.Iret | crates/izarravm-cpu/src/control.rs:1140-1160 | after a fault the general registers, EIP, level and task are as before; the flags are too if and only if it was not a task return whose back-link had been accepted, which loses NT; the segments are too, but for the CS of an outward return whose later load was refused. A task return faults if and only if its link is not accepted or a page of its save area or busy byte is absent |
| LostReturn.NtIsLost | crates/izarravm-cpu/src/control.rs:1990-2002 | for every register state with NT set whose task state segment begins on one page and has its save area on the next, a machine with a busy back-link and that page absent on which IRET raises #PF with NT cleared, so that it is no task return any more |
| CpuCore.Cpu.ReturnToTask | crates/izarravm-cpu/src/control.rs:1162-1179 | an IRET with NT set switches to the back-linked task, refuses with nothing changed if that is not a busy TSS, and after that can fail before the commit only by a page fault; it faults exactly when the link is not accepted or a page to be written is absent, with NT cleared exactly if the link was accepted |
| CpuCore.Cpu.SaveTaskState | crates/izarravm-cpu/src/control.rs:2070-2091 | succeeds exactly if every page of the save area is present; the TSS then holds exactly the current registers, and nothing outside its save area changed |
| CpuCore.Cpu.LoadLdtr | crates/izarravm-cpu/src/control.rs:2539-2566 | the LDT register then caches the GDT's LDT descriptor of the selector, or is unusable for a null one |
| CpuCore.Cpu.SetTssBusy | crates/izarravm-cpu/src/control.rs:2165-2183 | only the busy bit of the named descriptor changes, a null selector names none; fails exactly if the page of that byte is absent |
| CpuCore.Cpu.LoadTaskState | crates/izarravm-cpu/src/control.rs:2093-2163 | the registers are the incoming TSS's image, memory changes only by accessed bits, a V86 task gets 8086-style segments |
| CpuCore.Cpu.CommitTaskSwitch | crates/izarravm-cpu/src/control.rs:2048-2068 | the incoming task is in, its TSS busy and, for a call, linked back to the outgoing one |
| CpuCore.Cpu.TaskSwitch | crates/izarravm-cpu/src/control.rs:1926-2029 | refused switches change nothing and raise the right fault; an exception comes exactly when the target is not accepted or a page of the save area or busy byte is absent, and in the second case alters memory only in the outgoing save area and registers only by clearing NT for a return; a completed switch recorded the outgoing task, set both busy bits as its kind says and resumed the incoming image |
| V86RoundTrip.FrameReadsBack | crates/izarravm-cpu/src/control.rs:776-901 | the frame of a V86 task reads back as its flags, selectors and a 16-bit EIP |
| V86RoundTrip.EntryFacts | crates/izarravm-cpu/src/control.rs:776-939 | the handler of a V86 task finds on a readable stack the very frame its IRETD will pop |
| V86RoundTrip.FrameAtReturn | crates/izarravm-cpu/src/control.rs:1140-1294 | whatever the handler did elsewhere in memory, at its IRETD the stack still shows the return frame |
| V86RoundTrip.ReturnUndoesEntry | crates/izarravm-cpu/src/control.rs:1244-1294 | the return into V86 mode from that frame restores CS, EFLAGS, SS, ESP, DS, ES, FS, GS and the level |
| V86RoundTrip.TakeAndReturn | crates/izarravm-cpu/src/control.rs:562-1338 | any event from a V86 task through an interrupt or trap gate to level 0, any handler that keeps its frame, and its IRETD: the task is back, and EIP is exact if and only if it was at most 0xffff |
| TaskChain.NoReentry | crates/izarravm-cpu/src/control.rs:1926-2029 | no call or jump accepts a task that is on the chain |
| TaskChain.CanReturn | crates/izarravm-cpu/src/control.rs:1926-2029 | the running task's back-link names the task that called it, and a return to it is accepted |
| TaskChain.CallIsFresh | crates/izarravm-cpu/src/control.rs:1926-2029 | a call the switch accepts goes to a task that is not on the chain |
| TaskChain.CallKept | crates/izarravm-cpu/src/control.rs:1926-2163 | a completed call pushes a fresh task on the chain, resumes its image and keeps the invariant of the whole chain of saved tasks |
| TaskChain.ReturnKept | crates/izarravm-cpu/src/control.rs:1926-2163 | a completed return pops the chain, resumes the caller's registers and keeps the invariant |
| TaskChain.FaultLeavesAlone | crates/izarravm-cpu/src/control.rs:1926-2029 | a switch that faulted before its commit disturbed no task on the chain |
| TaskChain.LoadLeavesAlone | crates/izarravm-cpu/src/control.rs:2320-2438 | and so does whatever sets accessed bits only, as every segment load does |
| TaskChain.NextKept | crates/izarravm-cpu/src/control.rs:1926-2163 | every step of a run, a call, a return or anything a task does that leaves the GDT alone but for accessed bits, keeps the invariant |
| TaskChain.RunKept | crates/izarravm-cpu/src/control.rs:1926-2163 | over every run the chain stays sound and none of its tasks can be called again |
| TaskChain.BusyIsChain | crates/izarravm-cpu/src/control.rs:1168-2183 | over every run the busy task state segments are exactly those the back-links lead to from the task register |
| TaskChain.CallerStays | crates/izarravm-cpu/src/control.rs:1926-2163 | as long as a run stays nested deeper than a call, the registers saved by that call stand |
| TaskChain.ChainStays | crates/izarravm-cpu/src/control.rs:1926-2163 | and the chain below that call is unchanged |
| TaskChain.ReturnMatchesCall | crates/izarravm-cpu/src/control.rs:1926-2163 | the return that closes a call, however long after and however deeply nested in between, resumes the registers of the task that made the call |
| TaskChain.CallTask | crates/izarravm-cpu/src/control.rs:1926-2029 | the core's own task call is a step of that run, and refuses a task on the chain with nothing changed |
| TaskChain.ReturnTask | crates/izarravm-cpu/src/control.rs:1140-1179 | the core's own IRET with NT is a step of that run, can fail only by a page fault, and resumes the caller |
| MidiParsing.MidiParser.PushByte | crates/izarravm-audio/src/mpu401.rs:740-797 | the parser's next state and the messages it completes are the specified ones |
| MidiParsing.MidiParser.StartStatus | crates/izarravm-audio/src/mpu401.rs:799-823 | a status byte's effect: running status, a system exclusive begun, or a one-byte message |
| MidiParsing.MidiParser.Reset | crates/izarravm-audio/src/mpu401.rs:732-738 | the parser is as new |
| MidiParsing.PushSound | crates/izarravm-audio/src/mpu401.rs:740-797 | every byte keeps the parser sound and completes only well-formed messages within the system exclusive bound |
| MidiParsing.AnyBytes | crates/izarravm-audio/src/mpu401.rs:740-823 | any bytes at all, from any sound state, give only well-formed messages |
| MidiParsing.RealTimeApart | crates/izarravm-audio/src/mpu401.rs:740-752 | real-time bytes may fall anywhere: they come out at once, in order, and the rest of the stream is parsed as if they were not there |
| MidiParsing.SysexRun | crates/izarravm-audio/src/mpu401.rs:754-797 | a system exclusive body is kept whole under the bound and marked overflowed from the byte that reaches it |
| MidiParsing.WholeSysex | crates/izarravm-audio/src/mpu401.rs:754-797 | a system exclusive message comes out whole if and only if it is within the bound |
| MidiParsing.RoundTrip | crates/izarravm-audio/src/mpu401.rs:740-832 | any legal list of messages, with running status left out wherever it may be, is read back message for message but for the oversize system exclusives |
| MidiParsing.StreamRoundTrip | crates/izarravm-audio/src/mpu401.rs:740-832 | the same with real-time bytes interleaved anywhere in the stream |
| Mpu401Proof.DoKept | crates/izarravm-audio/src/mpu401.rs:157-712 | every command, data write, read and tick keeps the state's shape and the handshake: a playing sequencer that waits for nobody has no request pending |
| Mpu401Proof.EveryRun | crates/izarravm-audio/src/mpu401.rs:129-712 | both hold after every sequence of operations from power-up |
| Mpu401Proof.QuietRun | crates/izarravm-audio/src/mpu401.rs:285-320 | ticks that reach neither a pulse nor a due action only move time and phase |
| Mpu401Proof.Jump | crates/izarravm-audio/src/mpu401.rs:285-320 | a step no longer than the distance to the next pulse and the next due action is the same as that many single ticks |
| Mpu401Proof.NothingBeforeEvent | crates/izarravm-audio/src/mpu401.rs:322-335 | before the announced event no interrupt, response or message appears |
| Mpu401Proof.WakeUpIsSound | crates/izarravm-audio/src/mpu401.rs:322-335 | after every run of operations, sleeping until the announced event misses nothing |
| Mpu401Proof.PulseCount | crates/izarravm-audio/src/mpu401.rs:684-697 | pulses delivered and phase left over account for every tick at the current rate exactly, with a conductor or without, while the orders it has in hand leave the clock alone |
| Mpu401Proof.PulseRate | crates/izarravm-audio/src/mpu401.rs:684-697 | from phase zero, n ticks give exactly n times timebase times tempo over sixty times the master clock, rounded down |
| Mpu401Proof.OnlyThoseKeep | crates/izarravm-audio/src/mpu401.rs:196-263 | the conductor's orders that leave a running clock alone are exactly those other than a stop, a change of mode, timebase or tempo, and a reset |
| Mpu401Device.PollingChangesNothing | crates/izarravm-audio/src/mpu401.rs:285-320 | advancing in two stages is advancing once, so a guest that polls sees the same device |
| Mpu401Device.Mpu401.AdvanceTo | crates/izarravm-audio/src/mpu401.rs:285-320 | the loop that jumps from event to event equals ticking one tick at a time to the target |
| Mpu401Device.Mpu401.TakeStep | crates/izarravm-audio/src/mpu401.rs:298-319 | one iteration of that loop equals its length in single ticks |
| Mpu401Device.Mpu401.ClockTick | crates/izarravm-audio/src/mpu401.rs:570-614 | one sequencer pulse: play counters, due events and the next request, track by track and then the conductor |
| Mpu401Device.Mpu401.IssueNextRequest | crates/izarravm-audio/src/mpu401.rs:645-659 | the lowest pending request goes out if nothing blocks it |
| Mpu401Device.Mpu401.QueueResponse | crates/izarravm-audio/src/mpu401.rs:699-704 | bytes join the input queue, which never exceeds its capacity |
| Mpu401Device.Mpu401.AllNotesOff | crates/izarravm-audio/src/mpu401.rs:381-389 | an all-notes-off message for each channel in order, as far as the output queue holds them |
| Mpu401Device.Mpu401.StatusAt | crates/izarravm-audio/src/mpu401.rs:157-164 | the status port shows whether a response waits, after the device caught up with the clock |
| Mpu401Device.Mpu401.ReadDataAt | crates/izarravm-audio/src/mpu401.rs:170-184 | a data read takes the oldest response, after the device caught up |
| Mpu401Device.Mpu401.WriteCommandAt | crates/izarravm-audio/src/mpu401.rs:190-263 | a command acts on the device as of its tick |
| Mpu401Device.Mpu401.WriteDataAt | crates/izarravm-audio/src/mpu401.rs:265-283 | a data byte goes to the pending parameter, the outstanding request or the parser, as of its tick |
| TlbModel.Tlb.LookupPage | crates/izarravm-cpu/src/paging.rs:169-172 | the live generation's entry for a page, by slot, tag and generation |
| TlbModel.Tlb.InsertPage | crates/izarravm-cpu/src/paging.rs:194-213 | the entry fills its slot under the live generation and what it displaced is handed back |
| TlbModel.Tlb.InvalidatePage | crates/izarravm-cpu/src/paging.rs:216-222 | the page's slot is cleared when it carries the page |
| TlbModel.Tlb.MintGeneration | crates/izarravm-cpu/src/paging.rs:227-235 | the next generation, skipping 0 and resetting the table when the counter comes round |
| TlbModel.Tlb.SelectGeneration | crates/izarravm-cpu/src/paging.rs:242-249 | the chosen slot's generation becomes the live one |
| TlbModel.Tlb.AllocateGeneration | crates/izarravm-cpu/src/paging.rs:255-260 | a slot gets a new generation and becomes live |
| TlbModel.Tlb.FlushLiveSlot | crates/izarravm-cpu/src/paging.rs:267-271 | the live slot gets a new generation |
| TlbModel.Tlb.RetireAllSlots | crates/izarravm-cpu/src/paging.rs:290-295 | both slots get new generations |
| TlbModel.Tlb.RetireDormantSlot | crates/izarravm-cpu/src/paging.rs:303-306 | the other slot gets a new generation |
| TlbModel.LookupIsMap | crates/izarravm-cpu/src/paging.rs:169-172 | a cache that represents two maps answers as the live map does |
| TlbModel.InsertIsMap | crates/izarravm-cpu/src/paging.rs:194-213 | insertion refines map update, with the slot's other pages dropped |
| TlbModel.InvalidateIsMap | crates/izarravm-cpu/src/paging.rs:216-222 | invalidation refines map removal |
| TlbModel.RemintIsMap | crates/izarravm-cpu/src/paging.rs:227-306 | a mint no entry and no slot carries yet empties one map and leaves the other |
| TlbModel.DoIsMap | crates/izarravm-cpu/src/paging.rs:164-306 | every operation refines its map operation as long as the counter has not gone round |
| TlbModel.NoWrapRun | crates/izarravm-cpu/src/paging.rs:164-306 | over every run with fewer mints than the counter holds, every lookup answers as the maps do |
| TlbModel.HeldIsLastInsert | crates/izarravm-cpu/src/paging.rs:164-306 | a slot holds a page if and only if some insert of it stands since, and holds that insert's entry |
| TlbModel.InvlpgRemoves | crates/izarravm-cpu/src/paging.rs:216-306 | invalidating a page and retiring the dormant slot removes it from both |
| TlbModel.DisplacedIsReported | crates/izarravm-cpu/src/paging.rs:194-213 | an insert that costs a slot another page hands back that page's entry |
| TlbModel.MintWorks | crates/izarravm-cpu/src/paging.rs:227-306 | a mint empties its slot and keeps the slots apart if and only if neither the other slot nor any entry carries the generation minted |
| TlbModel.ApartOrWrong | crates/izarravm-cpu/src/paging.rs:169-249 | an insert under one slot stays invisible to the other, for every page, if and only if the two generations differ |
| TlbModel.FlushedTo | crates/izarravm-cpu/src/paging.rs:227-271 | the generations after any number of flushes short of the counter's end |
| TlbModel.FlushesAlias | crates/izarravm-cpu/src/paging.rs:227-271 | that many flushes more and both slots carry the same generation |
| StateContainer.CanonicalStateWriter.constructor | crates/izarravm-core/src/canonical_state.rs:219-232 | a new writer holds a header and no section |
| StateContainer.CanonicalStateWriter.AddSection | crates/izarravm-core/src/canonical_state.rs:234-285 | a section is appended or the writer is left byte for byte as it was, with the error of the first check that failed, the callback's own included |
| StateContainer.CanonicalStateWriter.Finish | crates/izarravm-core/src/canonical_state.rs:288-294 | the bytes are the one encoding of the sections added, and parse back to them |
| StateContainer.Parse | crates/izarravm-core/src/canonical_state.rs:335-418 | the parsing loop computes the specified result, the first error included |
| StateContainer.BodyReads | crates/izarravm-core/src/canonical_state.rs:355-412 | from any cursor, ordered sections that were written are read back |
| StateContainer.BodyWrites | crates/izarravm-core/src/canonical_state.rs:355-412 | from any cursor, bytes that parse are exactly what the sections read would write |
| StateContainer.RoundTrip | crates/izarravm-core/src/canonical_state.rs:215-418 | every valid container parses back to itself |
| StateContainer.UniqueEncoding | crates/izarravm-core/src/canonical_state.rs:335-418 | whatever parses is the encoding of what it parses to |
| StateContainer.AcceptsExactly | crates/izarravm-core/src/canonical_state.rs:335-418 | the parser accepts exactly the encodings of valid containers, and no two containers share one |
| Resampling.Resampler.Process | crates/izarravm-audio/src/resample.rs:81-100 | after every chunk the output so far is all and only what the input so far determines; it overruns its history if and only if some output's window starts past the end |
| Resampling.Resampler.Produce | crates/izarravm-audio/src/resample.rs:84-92 | each output is the kernel over its own window of the whole input, and production stops at the first that is not ready |
| Resampling.Resampler.Interpolate | crates/izarravm-audio/src/resample.rs:102-114 | the window taken from the drained history is the window of the whole input |
| Resampling.OnlyOne | crates/izarravm-audio/src/resample.rs:81-100 | input and step determine the output |
| Resampling.Settled | crates/izarravm-audio/src/resample.rs:81-100 | an output once ready does not change as more input arrives |
| Resampling.ChunkingIsInvisible | crates/izarravm-audio/src/resample.rs:81-100 | two resamplers fed the same frames, however they were cut, have produced the same frames |
| Resampling.ShortSteps | crates/izarravm-audio/src/resample.rs:93-99 | an overrun needs a step over 64 |
| Resampling.SafeExactly | crates/izarravm-audio/src/resample.rs:93-99 | no input length overruns if and only if the step is at most 64 |
| Resampling.SafeRates | crates/izarravm-cdaudio/src/decode.rs:72-77 | the declared rates a file may have without an overrun are exactly those up to 2822400 Hz |
| SbDspModel.SbDsp.Arm | crates/izarravm-audio/src/dsp.rs:637-696 | arming starts a block and drops a half-filled stereo frame |
| SbDspModel.SbDsp.AdvanceBlock | crates/izarravm-audio/src/dsp.rs:1035-1060 | the loop over whole blocks equals consuming one unit at a time |
| SbDspModel.SbDsp.RenderFrame | crates/izarravm-audio/src/dsp.rs:860-940 | one rendered frame: the units it takes from the feed, the frame it gives and the block it advances |
| SbDspModel.PairingKept | crates/izarravm-audio/src/dsp.rs:860-940 | whatever the feed withholds, the frames rendered are the units fetched, paired left and right with at most one left waiting |
| SbDspModel.Play | crates/izarravm-audio/src/dsp.rs:860-940 | any number of render calls keep that pairing over any feed and take the feed in order |
| SbDspModel.UnitsCount | crates/izarravm-audio/src/dsp.rs:1035-1060 | interrupts raised and units left account for every unit consumed |
| SbDspModel.BlocksCrossed | crates/izarravm-audio/src/dsp.rs:1035-1060 | from a block's start, n units raise n over the block size interrupts and leave the rest |
| SbDspModel.QuietCall | crates/izarravm-audio/src/dsp.rs:838-940 | a call that does not reach the block's end raises nothing and takes its units from the feed |
| SbDspModel.LastCall | crates/izarravm-audio/src/dsp.rs:838-940 | the call that reaches it raises the interrupt |
| SbDspModel.IrqOnTime | crates/izarravm-audio/src/dsp.rs:838-852 | with a feed that delivers, the interrupt comes exactly at the predicted call and not before |
| FatLayout.SectorsPerCluster | scripts/build-freedos-hdd-image.py:54-66 | a cluster size between 1 and 64 sectors, none for a disk too small for FAT32 |
| FatLayout.FatHoldsAll | scripts/build-freedos-hdd-image.py:69-79 | the FAT size computed has an entry for every cluster it leaves room for |
| FatLayout.FatIsLeast | scripts/build-freedos-hdd-image.py:69-79 | it is the least size that meets the bound it is derived from: exactly the sizes from it on meet it |
| FatLayout.GeoOf | scripts/build-freedos-hdd-image.py:364-372 | a geometry whose areas fit the partition, with enough clusters for FAT32 |
| FatLayout.StampsOnce | scripts/build-freedos-hdd-image.py:102-131 | stamping the partition table or the parameter block twice is stamping it once |
| FatLayout.ChainsAreSound | scripts/build-freedos-hdd-image.py:456-474 | every chain, the root directory's included, lies within the volume and is walked in ascending order to the end mark, which stands nowhere else in it |
| FatLayout.ChainsApart | scripts/build-freedos-hdd-image.py:456-474 | any two chains are disjoint, in the order they were allocated |
| FatImage.NameReads | scripts/build-freedos-hdd-image.py:96-99 | an 8.3 name field trims back to the name and is never mistaken for a free, deleted or dot entry |
| FatImage.EntryReads | scripts/build-freedos-hdd-image.py:476-484 | a directory entry reads back as its name, attribute, first cluster and size |
| FatImage.ClustersConserved | scripts/build-freedos-hdd-image.py:541-547 | clusters used by all chains and the free count recorded add up to the volume |
| FatImage.WrittenSize | scripts/build-freedos-hdd-image.py:375-547 | everything written fits the disk |
| FatExtract.ChainBytes | scripts/build-freedos-hdd-image.py:163-180 | the loop along a cluster chain gathers the specified bytes or fails |
| FatExtract.WalkDir | scripts/build-freedos-hdd-image.py:182-204 | the directory walk yields the specified files in order |
| FatExtract.Extract | scripts/build-freedos-hdd-image.py:144-206 | boot sectors and all files of an image, or failure |
| FatRoundTrip.BootReads | scripts/build-freedos-hdd-image.py:377-400 | the image's first sector and its volume boot record are the stamped ones |
| FatRoundTrip.VolReads | scripts/build-freedos-hdd-image.py:102-158 | the volume parameters read from the image are those it was laid out with |
| FatRoundTrip.EntryRead | scripts/build-freedos-hdd-image.py:160-161 | every FAT entry read from the image is the allocator's |
| FatRoundTrip.FileGathered | scripts/build-freedos-hdd-image.py:163-180 | following a file's chain gives its data exactly |
| FatRoundTrip.ScanDir | scripts/build-freedos-hdd-image.py:182-204 | a directory laid over any number of clusters lists its entries from any point on |
| FatRoundTrip.RootWalk | scripts/build-freedos-hdd-image.py:182-204 | walking the root, the DOS directory inside it included, finds every file with its data in order |
| FatRoundTrip.ExtractsWhatWasBuilt | scripts/build-freedos-hdd-image.py:144-206 | extraction of any image built gives back the stamped boot sectors and every file |
| FatRoundTrip.RebuildReproduces | scripts/build-freedos-hdd-image.py:209-547 | building again from the stamped sectors gives the same image |
| FatRoundTrip.DictionaryOf | scripts/build-freedos-hdd-image.py:144-206 | with distinct names, the dictionary of files found has each name with its own data |
| FatBuilder.ImageBuilder.AllocChain | scripts/build-freedos-hdd-image.py:458-461 | a chain of n clusters is added at the next free one and no earlier chain is touched |
| FatBuilder.ImageBuilder.WriteFileData | scripts/build-freedos-hdd-image.py:463-474 | succeeds if and only if the clusters are there, and then the data stands at its first cluster and nothing else moved |
| FatBuilder.ImageBuilder.WriteClusters | scripts/build-freedos-hdd-image.py:469-473 | writing cluster by cluster is writing the data in one piece |
| FatBuilder.ImageBuilder.PlaceFiles | scripts/build-freedos-hdd-image.py:503-520 | the files' data one after another from the next free cluster, and the directory that lists them |
| FatBuilder.ImageBuilder.WriteBootSectors | scripts/build-freedos-hdd-image.py:377-400 | partition table, boot record and its backup in an otherwise blank disk |
| FatBuilder.ImageBuilder.WriteDirectories | scripts/build-freedos-hdd-image.py:527-532 | both directories stand in their reserved chains, zero-padded |
| FatBuilder.ImageBuilder.WriteTables | scripts/build-freedos-hdd-image.py:534-539 | both FAT copies are the packed table |
| FatBuilder.ImageBuilder.WriteInfo | scripts/build-freedos-hdd-image.py:541-547 | the information sector and its backup carry the final counts |
| FatBuilder.Build | scripts/build-freedos-hdd-image.py:209-547 | building succeeds if and only if the inputs fit, and its writes in the script's order leave exactly the closed-form image |
| FatRebuild.SourcedSame | scripts/build-freedos-hdd-image.py:245-258 | looking each file up in an extraction of distinct names gives the files it was built from |
| FatRebuild.BuildTwice | scripts/build-freedos-hdd-image.py:144-547 | build, extract, build from the extraction: the second image is the first |

## Left out

- Threads, mutex poisoning and memory ordering of the CD audio code: steps are sequentially consistent and a lock is a step's guard; the container decoders behind `decode_into` are an arbitrary list of packets.
- Residency: the registry, its eviction loop and the worker are steps of a state machine on values, so that any other thread may run between two of them; they are not methods on shared objects.
- DecodePublish.DecodeInto: opening the file, skipping a damaged packet, the frame budget from the probe, mono duplication and rate conversion come before the part modelled; its packets are the stereo samples that come out of them, of any number and length.
- Paging is an identity map in which any page may be absent, so page walks, accessed and dirty bits, CR3 loads in a task switch, CR0 loads and supervisor protection are not modelled; every access may still raise a page fault.
- Linear addresses of descriptor tables and task state segments do not wrap at 4 GiB.
- Real-mode delivery and return, far calls and jumps, call gates and the instruction decoder are not modelled.
- Bus errors, cycle counts, traces, code caches, the JIT and the reflected-call memo are not modelled.
- CpuCore.Cpu.TaskSwitch: the resumed image is stated for a task state segment that overlaps neither descriptor table, since setting accessed bits would otherwise change it; a fault past the commit is terminal and its registers are not described, as in the source.
- TaskChain.ReturnTask: a return from the outermost task is excluded, since its back-link is whatever the guest left there; jumps between tasks are not steps of the runs.
- V86RoundTrip.TakeAndReturn: a handler at another level than 0 and a task gate are not followed to a return, since IRET goes back into V86 mode only from level 0.
- Mpu401Model and SbDspModel keep the device's fields in one record that the class reassigns, so the methods can be specified by functions of it.
- The host MIDI sink behind the MPU-401's output queue is not modelled.
- SbDspModel leaves out ADPCM, the pause command, the command interpreter and reset timing; `irqs` counts interrupts raised, not acknowledged.
- Resampling works on real positions with the kernel a parameter: the rounding of 64-bit floats, the table of weights and its quantised phase are left out.
- StateContainer leaves out the field encoders and counts a failed allocation as a length bound; a section's callback is a value that either wrote bytes or failed.
- TlbModel leaves out the fast map that mirrors the cache and the callers that decide when to flush.
- FatExtract.WalkDir: recursion is bounded by the directory clusters on one path, so a directory that contains itself fails here where the script would recurse for ever; a truncated image or a name outside ASCII is failure where the script raises or decodes what is there; only spaces are stripped from names.
- FatBuilder.Build: file lists are parameters with plain upper-case 8.3 names; the vendored inputs, their digests, the generated configuration files and the check mode of the script are left out.
