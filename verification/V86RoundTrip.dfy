/** An event taken from a V86 task and the IRETD that ends its handler, together:
    whatever the handler did, the task resumes where it was. */
module V86RoundTrip {
  import opened Wrappers
  import opened CpuTypes
  import opened CpuCore

  /** A V86 task as the core keeps it: level 3, every segment register the
      canonical form of its selector. */
  ghost predicate V86Task(regs: Registers) {
    && regs.flags.vm && regs.flags.Wf() && regs.cpl == 3 && U32(regs.eip)
    && |regs.gpr| == 8 && U32(regs.gpr[ESP]) && |regs.seg| == 6
    && forall k :: 0 <= k < 6 ==> U16(regs.seg[k].selector) && regs.seg[k] == Real(regs.seg[k].selector)
  }

  /** What a handler leaves behind when it gets to its IRETD. */
  datatype Work = Work(mem: Memory, gpr: seq<int>, seg: seq<Segment>, flags: Flags, eip: int)

  /** The address of slot `k` of the handler's stack. */
  function SlotAt(ss: Segment, esp: int, k: nat): int { Linear(ss, Offset(ss, esp, 4 * k)) }

  /** The handler is free to change memory, registers, data segments and flags, as
      long as it drops the error code, leaves the `n` dwords of its frame as it
      found them, and turns on neither NT nor VM. The flags a persona lacks cannot
      change. */
  predicate Fair(work: Work, found: Memory, entered: Registers, code: Option<ErrorCode>, n: nat, persona: Persona) {
    && |entered.seg| == 6 && |entered.gpr| == 8 && |work.gpr| == 8 && |work.seg| == 6
    && work.flags.Wf() && !work.flags.nested && !work.flags.vm
    && (persona.I386? ==> work.flags.alignment == entered.flags.alignment)
    && (!persona.I586? ==> work.flags.id == entered.flags.id)
    && work.seg[SS] == entered.seg[SS]
    && work.gpr[ESP] == Moved(entered.seg[SS], entered.gpr[ESP], if code.Some? then 4 else 0)
    && Untouched(found, work.mem, entered.seg[SS], entered.gpr[ESP], n)
  }

  predicate Untouched(m: Memory, m': Memory, ss: Segment, esp: int, n: nat) {
    forall k :: 0 <= k < n ==> Read32(m', SlotAt(ss, esp, k)) == Read32(m, SlotAt(ss, esp, k))
  }

  /** No dword of the frame covers address `a`. */
  predicate ClearOf(ss: Segment, esp: int, n: nat, a: int) {
    forall k :: 0 <= k < n ==> a < SlotAt(ss, esp, k) || SlotAt(ss, esp, k) + 4 <= a
  }

  lemma UntouchedShows(m: Memory, m': Memory, absent: set<int>, ss: Segment, esp: int, values: seq<int>)
    requires Shows(m, absent, ss, esp, Dword, values) && Untouched(m, m', ss, esp, |values|)
    ensures Shows(m', absent, ss, esp, Dword, values)
  {
    hide Read32, Offset, Linear, InLimit;
    forall k | 0 <= k < |values| ensures Slot(m', absent, ss, esp, Dword, k, values[k]) {
      assert Slot(m, absent, ss, esp, Dword, k, values[k]);
      assert Read32(m', SlotAt(ss, esp, k)) == Read32(m, SlotAt(ss, esp, k));
    }
  }

  /** Marking the handler's code segment accessed leaves a frame clear of its
      descriptor alone. */
  lemma MarkLeaves(m: Memory, m': Memory, at: int, ss: Segment, esp: int, n: nat)
    requires m' == m || MarkedAccessed(m, m', at)
    requires ClearOf(ss, esp, n, at + 5)
    ensures Untouched(m, m', ss, esp, n)
  {
    hide SlotAt;
    forall k | 0 <= k < n ensures Read32(m', SlotAt(ss, esp, k)) == Read32(m, SlotAt(ss, esp, k)) {
      var slot := SlotAt(ss, esp, k);
      assert at + 5 < slot || slot + 4 <= at + 5;
    }
  }

  /** Everything of the task that an event and its return must not disturb. */
  ghost predicate Resumed(before: Registers, after: Registers) {
    && after.seg == before.seg && after.cpl == before.cpl && after.eip == before.eip % 0x1_0000
    && after.flags == before.flags.(one := true)
    && |after.gpr| == |before.gpr| == 8 && after.gpr[ESP] == before.gpr[ESP]
  }

  /** The frame above the error code. */
  function ReturnFrame(regs: Registers): (f: seq<int>)
    requires |regs.seg| == 6 && |regs.gpr| == 8 && regs.flags.vm
    ensures |f| == 9
  {
    [InstructionPointer(true, false, regs.eip), regs.seg[CS].selector, regs.flags.Image(), regs.gpr[ESP],
     regs.seg[SS].selector,
     regs.seg[ES].selector, regs.seg[DS].selector, regs.seg[FS].selector, regs.seg[GS].selector]
  }

  lemma FrameSplits(regs: Registers, code: Option<ErrorCode>)
    requires |regs.seg| == 6 && |regs.gpr| == 8 && regs.flags.vm
    ensures Frame(regs, true, code, Dword) == CodeSlot(code, Dword) + ReturnFrame(regs)
  {
  }

  /** Dropping the error code leaves the return frame on show. */
  lemma CodeDropped(m: Memory, absent: set<int>, ss: Segment, esp: int, code: Option<ErrorCode>, frame: seq<int>)
    requires U32(esp) && Shows(m, absent, ss, esp, Dword, CodeSlot(code, Dword) + frame)
    ensures Shows(m, absent, ss, Moved(ss, esp, if code.Some? then 4 else 0), Dword, frame)
  {
    hide Slot;
    if code.Some? {
      PopShows(m, absent, ss, esp, Dword, CodeSlot(code, Dword) + frame);
      assert (CodeSlot(code, Dword) + frame)[1..] == frame;
    } else {
      assert CodeSlot(code, Dword) + frame == frame;
      MovedBack(ss, esp);
    }
  }

  /** The frame of a V86 task is a V86 return frame: the pushed EFLAGS image reads
      back as the task's flags, and the instruction pointer fits 16 bits. */
  lemma FrameReadsBack(regs: Registers)
    requires V86Task(regs)
    ensures FlagsOf(ReturnFrame(regs)[2]) == regs.flags && 0 <= ReturnFrame(regs)[0] <= 0xffff
    ensures forall k :: 4 <= k < 9 ==> Low(ReturnFrame(regs)[k]) == ReturnFrame(regs)[k]
    ensures Low(ReturnFrame(regs)[1]) == ReturnFrame(regs)[1]
  {
    hide Flags.Image, FlagsOf;
    FlagsRoundTrip(regs.flags);
    assert forall k :: 0 <= k < 6 ==> U16(regs.seg[k].selector);
  }

  /** The return undoes the delivery. */
  lemma ReturnUndoesEntry(before: Registers, handler: Registers, after: Registers, persona: Persona)
    requires V86Task(before) && |handler.gpr| == 8 && |after.seg| == 6 && |after.gpr| == 8
    requires persona.I386? ==> handler.flags.alignment == before.flags.alignment
    requires !persona.I586? ==> handler.flags.id == before.flags.id
    requires BackInV86(handler, after, ReturnFrame(before), persona)
    ensures Resumed(before, after)
  {
    hide Flags.Image, FlagsOf, Low, Real;
    FrameReadsBack(before);
    assert after.seg == before.seg;
  }

  /** What the handler of a V86 task finds: a stack it can read, with the frame on
      it, and the flags a persona lacks as they were. */
  lemma EntryFacts(before: Registers, entered: Registers, gate: Gate, code: Option<ErrorCode>, target: int,
                   framed: Memory, absent: set<int>)
    requires V86Task(before) && |entered.seg| == 6 && |entered.gpr| == 8
    requires Entered(before, entered, gate, code, target, framed, absent)
    ensures Readable(entered.seg[SS].access) && entered.ldtr == before.ldtr
    ensures entered.flags.alignment == before.flags.alignment && entered.flags.id == before.flags.id
    ensures Shows(framed, absent, entered.seg[SS], entered.gpr[ESP], Dword, CodeSlot(code, Dword) + ReturnFrame(before))
  {
    hide Shows, Frame;
    FrameSplits(before, code);
  }

  /** At its IRETD the handler's stack shows the return frame. */
  lemma FrameAtReturn(before: Registers, entered: Registers, code: Option<ErrorCode>, framed: Memory, found: Memory,
                      at: int, work: Work, absent: set<int>, persona: Persona)
    requires V86Task(before) && |entered.seg| == 6 && |entered.gpr| == 8 && U32(entered.gpr[ESP])
    requires Shows(framed, absent, entered.seg[SS], entered.gpr[ESP], Dword,
                   CodeSlot(code, Dword) + ReturnFrame(before))
    requires found == framed || MarkedAccessed(framed, found, at)
    requires ClearOf(entered.seg[SS], entered.gpr[ESP], FrameSize(code), at + 5)
    requires Fair(work, found, entered, code, FrameSize(code), persona)
    ensures Shows(work.mem, absent, work.seg[SS], work.gpr[ESP], Dword, ReturnFrame(before))
  {
    hide Shows, MarkedAccessed, ClearOf, Untouched, Moved;
    var ss, esp, all := entered.seg[SS], entered.gpr[ESP], CodeSlot(code, Dword) + ReturnFrame(before);
    MarkLeaves(framed, found, at, ss, esp, FrameSize(code));
    UntouchedShows(framed, found, absent, ss, esp, all);
    UntouchedShows(found, work.mem, absent, ss, esp, all);
    CodeDropped(work.mem, absent, ss, esp, code, ReturnFrame(before));
  }

  function FrameSize(code: Option<ErrorCode>): nat { if code.Some? then 10 else 9 }

  /** An event delivered from a V86 task to level 0 through an interrupt or trap
      gate, any handler, and its IRETD. `resumed` says the handler was entered and
      kept to the rules, and then the task is back: CS, EFLAGS, SS, ESP, DS, ES,
      FS, GS and the level exactly, and EIP exactly if and only if it fitted the 16
      bits a V86 instruction pointer has. */
  method TakeAndReturn(cpu: Cpu, vector: int, code: Option<ErrorCode>, source: Source, work: Work)
    returns (r: Outcome, entered: Registers, found: Memory, resumed: bool, ghost framed: Memory)
    requires cpu.Valid() && V86Task(cpu.Regs()) && 0 <= vector < 0x100
    requires |work.gpr| == 8 && (forall k :: 0 <= k < 8 ==> U32(work.gpr[k]))
    requires |work.seg| == 6 && (forall k :: 0 <= k < 6 ==> SegmentWf(work.seg[k])) && U32(work.eip)
    modifies cpu
    ensures cpu.Valid() && |entered.seg| == 6 && |entered.gpr| == 8
    ensures r.Done? && !IsTaskGate(old(cpu.mem), cpu.idtr, vector) ==>
      var gate := GateAt(old(cpu.mem), cpu.idtr, vector);
      Entered(old(cpu.Regs()), entered, gate, PushedCode(vector, code, source), old(cpu.TargetLevel(gate.selector)),
              framed, cpu.absent)
    ensures resumed <==>
      var pushed := PushedCode(vector, code, source);
      && r.Done? && !IsTaskGate(old(cpu.mem), cpu.idtr, vector) && entered.cpl == 0
      && Fair(work, found, entered, pushed, FrameSize(pushed), cpu.persona)
      && ClearOf(entered.seg[SS], entered.gpr[ESP], FrameSize(pushed), old(HandlerAt(cpu, vector)) + 5)
    ensures resumed ==> Resumed(old(cpu.Regs()), cpu.Regs()) && cpu.mem == work.mem
    ensures resumed ==> (cpu.eip == old(cpu.eip) <==> old(cpu.eip) <= 0xffff)
  {
    hide Entered, BackInV86, MarkedAccessed, IsTaskGate, GateAt, Refused, Refusal, Shows, ClearOf, Untouched, Read32,
      Real,
      FlagsOf, Index, Flags.Image, Moved, Readable, Access, GateOf, LoadFlags, Rpl, Fair, FrameSize, Tasked;
    var before, start := cpu.Regs(), cpu.mem;
    var pushed := PushedCode(vector, code, source);
    var at := HandlerAt(cpu, vector);
    ghost var hop;
    r, framed, hop := cpu.Deliver(vector, code, source);
    entered, found, resumed := cpu.Regs(), cpu.mem, false;
    if r.Raised? || IsTaskGate(start, cpu.idtr, vector) || cpu.cpl != 0 {
      return;
    }
    if !Fair(work, found, entered, pushed, FrameSize(pushed), cpu.persona)
       || !ClearOf(entered.seg[SS], entered.gpr[ESP], FrameSize(pushed), at + 5) {
      return;
    }
    ghost var gate := GateAt(start, cpu.idtr, vector);
    EntryFacts(before, entered, gate, pushed, old(cpu.TargetLevel(gate.selector)), framed, cpu.absent);
    FrameAtReturn(before, entered, pushed, framed, found, at, work, cpu.absent, cpu.persona);
    FrameReadsBack(before);
    FairMeans(work, found, entered, pushed, FrameSize(pushed), cpu.persona);
    cpu.mem, cpu.gpr, cpu.seg, cpu.flags, cpu.eip := work.mem, work.gpr, work.seg, work.flags, work.eip;
    ghost var handler := cpu.Regs();
    ghost var trail;
    var back;
    back, trail := cpu.Iret(Dword, ReturnFrame(before));
    ReturnUndoesEntry(before, handler, cpu.Regs(), cpu.persona);
    resumed := true;
  }

  lemma FairMeans(work: Work, found: Memory, entered: Registers, code: Option<ErrorCode>, n: nat, persona: Persona)
    requires Fair(work, found, entered, code, n, persona)
    ensures work.flags.Wf() && !work.flags.nested && !work.flags.vm && work.seg[SS] == entered.seg[SS]
    ensures persona.I386? ==> work.flags.alignment == entered.flags.alignment
    ensures !persona.I586? ==> work.flags.id == entered.flags.id
  {
  }

  /** Where the descriptor of a vector's handler is. */
  function HandlerAt(cpu: Cpu, vector: int): int
    reads cpu
  {
    var gate := GateAt(cpu.mem, cpu.idtr, vector);
    cpu.TableOf(gate.selector).base + Index(gate.selector)
  }
}
