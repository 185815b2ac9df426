/** Why the escalation loop needs its cap: alignment checks that the delivery of
    alignment checks raises. A register state keeps the three-step bound of
    `TakeEvent` under every table it may meet exactly if `Checked` fails of it. */
module AlignmentLoop {
  import opened Wrappers
  import opened CpuTypes
  import opened CpuCore

  const INVALID_OPCODE := 6
  const SERVICE := 0x21

  /** Where the tables below go, clear of the TSS. */
  function Site(tr: Segment): int { if tr.base < 0x2000 then 0x4000 else 0 }
  function Idt(d: int): Table { Table(d, 0x7ff) }
  function Gdt(d: int): Table { Table(d + 0x1000, 31) }

  /** 32-bit interrupt gates for #UD, #AC and INT 21h, the last open to level 3, to
      one level-3 code segment, and a level-3 data segment behind it. */
  function Tables(d: int): Memory {
    map[d + 50 := 8, d + 53 := 0x8e, d + 138 := 8, d + 141 := 0x8e, d + 266 := 8, d + 269 := 0xee,
        d + 0x100d := 0xfb, d + 0x1015 := 0xf3, d + 0x1016 := 0x4f]
  }

  /** The same, with a level-3 stack in the TSS that starts at an odd offset. */
  function Memories(tr: Segment): Memory {
    if NarrowTss(tr) then Write16(Write16(Tables(Site(tr)), tr.base + 14, 0x8001), tr.base + 16, 0x10)
    else Write16(Write32(Tables(Site(tr)), tr.base + 28, 0x8001), tr.base + 32, 0x10)
  }

  lemma StackReads(tr: Segment)
    ensures InnerStack(Memories(tr), tr, 3) == (0x8001, 0x10)
    ensures SameOutside(Tables(Site(tr)), Memories(tr), tr.base + 14, tr.base + 34)
  {
    hide Tables, Read16, Read32, Write16, Write32, NarrowTss;
    var m := Tables(Site(tr));
    if NarrowTss(tr) {
      var m' := Write16(m, tr.base + 14, 0x8001);
      Written16(m, tr.base + 14, 0x8001);
      Written16(m', tr.base + 16, 0x10);
      Kept16(m', Memories(tr), tr.base + 16, tr.base + 18, tr.base + 14);
    } else {
      var m' := Write32(m, tr.base + 28, 0x8001);
      Written32(m, tr.base + 28, 0x8001);
      Written16(m', tr.base + 32, 0x10);
      Kept32(m', Memories(tr), tr.base + 32, tr.base + 34, tr.base + 28);
    }
  }

  lemma DwordReads(m: Memory, a: int, b0: int, b1: int, b2: int, b3: int)
    requires Byte(m, a) == b0 && Byte(m, a + 1) == b1 && Byte(m, a + 2) == b2 && Byte(m, a + 3) == b3
    ensures Read32(m, a) == b0 + 0x100 * b1 + 0x1_0000 * b2 + 0x100_0000 * b3
  {
  }

  /** The tables stand as they were laid out, the stack beside them. */
  lemma TablesStand(tr: Segment, k: int)
    requires U32(tr.base) && 0 <= k < 0x1020
    ensures var d := Site(tr); Byte(Memories(tr), d + k) == Byte(Tables(d), d + k)
  {
    hide Memories, Tables, Byte;
    StackReads(tr);
  }

  lemma GateReads(tr: Segment, vector: int)
    requires U32(tr.base) && (vector == INVALID_OPCODE || vector == ALIGNMENT_CHECK || vector == SERVICE)
    ensures var m, a := Memories(tr), Site(tr) + vector * 8;
      Read32(m, a) == 0x8_0000 && Read32(m, a + 4) == if vector == SERVICE then 0xee00 else 0x8e00
  {
    hide Memories, Read32;
    var m, d, v := Memories(tr), Site(tr), vector * 8;
    assert v == 48 || v == 136 || v == 264;
    TablesStand(tr, v); TablesStand(tr, v + 1); TablesStand(tr, v + 2); TablesStand(tr, v + 3);
    TablesStand(tr, v + 4); TablesStand(tr, v + 5); TablesStand(tr, v + 6); TablesStand(tr, v + 7);
    DwordReads(m, d + v, 0, 0, 8, 0);
    DwordReads(m, d + v + 4, 0, if vector == SERVICE then 0xee else 0x8e, 0, 0);
  }

  lemma SegmentsRead(tr: Segment)
    requires U32(tr.base)
    ensures var m, d := Memories(tr), Site(tr);
      && Read32(m, d + 0x100c) == 0xfb00 && Read32(m, d + 0x1010) == 0 && Read32(m, d + 0x1014) == 0x4f_f300
      && Byte(m, d + 0x1015) == 0xf3
  {
    hide Memories, Read32;
    var m, d := Memories(tr), Site(tr);
    TablesStand(tr, 0x100c); TablesStand(tr, 0x100d); TablesStand(tr, 0x100e); TablesStand(tr, 0x100f);
    TablesStand(tr, 0x1010); TablesStand(tr, 0x1011); TablesStand(tr, 0x1012); TablesStand(tr, 0x1013);
    TablesStand(tr, 0x1014); TablesStand(tr, 0x1015); TablesStand(tr, 0x1016); TablesStand(tr, 0x1017);
    DwordReads(m, d + 0x100c, 0, 0xfb, 0, 0);
    DwordReads(m, d + 0x1010, 0, 0, 0, 0);
    DwordReads(m, d + 0x1014, 0, 0xf3, 0x4f, 0);
  }

  lemma InnerStackOff(tr: Segment, ldtr: Segment, esp: int)
    requires U32(tr.base)
    ensures var m, gdt := Memories(tr), Gdt(Site(tr));
      InnerReady(m, {}, gdt, ldtr, tr, 3) && InnerUnaligned(m, gdt, ldtr, tr, 3, esp)
  {
    hide Memories, Read32, InnerStack, SameOutside, Byte, InnerMapped, StackPointer, Decode;
    StackReads(tr);
    SegmentsRead(tr);
    var m, d := Memories(tr), Site(tr);
    assert Index(0x10) == 0x10 && !InLdt(0x10);
    StackDescriptor();
    NothingAbsent(tr);
    assert EntryAt(m, d + 0x1010, 0x10) == Decode(0x10, 0, 0x4f_f300);
  }

  lemma NothingAbsent(tr: Segment)
    ensures InnerMapped({}, tr, 3)
  {
  }

  lemma StackDescriptor()
    ensures var s := Decode(0x10, 0, 0x4f_f300);
      && s.big && !InLine(s, StackPointer(true, 0, 0x8001), Dword)
      && forall esp :: StackPointer(true, esp, 0x8001) == 0x8001
    ensures Vet(SS, 0x10, 0xf3, -1).Done? && Accessed(0xf3)
  {
  }

  lemma GateStands(regs: Registers, vector: int)
    requires RegistersWf(regs) && Checked(true, regs)
    requires vector == INVALID_OPCODE || vector == ALIGNMENT_CHECK || vector == SERVICE
    ensures Trapped(regs, Memories(regs.tr), Idt(Site(regs.tr)), Gdt(Site(regs.tr)), {}, true, vector,
                    if vector == SERVICE then SoftwareInterrupt else Trap)
  {
    hide InLine, Read32, Memories, InnerReady, InnerUnaligned;
    GateReads(regs.tr, vector);
    SegmentsRead(regs.tr);
    InnerStackOff(regs.tr, regs.ldtr, regs.gpr[ESP]);
    assert GateAt(Memories(regs.tr), Idt(Site(regs.tr)), vector) == Gate(8, 0, true, true);
  }

  /** With CR0.AM set, every register state that alignment checks can reach has
      tables under which an invalid opcode takes nine deliveries, eight of them of
      alignment checks that the one before raised. The cap is what stops the core,
      and no double fault is ever tried. */
  method CapIsReached(regs: Registers, persona: Persona) returns (cpu: Cpu, e: Ending, ghost nested: seq<int>)
    requires RegistersWf(regs) && Checked(true, regs)
    ensures cpu.Valid() && cpu.alignmentMask && cpu.Regs() == regs
    ensures e == TripleFault(INVALID_OPCODE, ALIGNMENT_CHECK) && |nested| == MAX_FAULT_ESCALATIONS
            && AllAlignment(nested)
    ensures forall k :: 0 <= k <= |nested| ==> !EndsChain(INVALID_OPCODE, false, nested[..k])
  {
    hide Trapped, Chain, Checked, RegistersWf;
    var d := Site(regs.tr);
    cpu := new Cpu(Gdt(d), Idt(d), persona, {}, true, Memories(regs.tr), regs);
    GateStands(regs, INVALID_OPCODE);
    GateStands(regs, ALIGNMENT_CHECK);
    ghost var last;
    e, nested, last := cpu.TakeEvent(INVALID_OPCODE, None, false);
    forall k | 0 <= k <= |nested| ensures !EndsChain(INVALID_OPCODE, false, nested[..k]) {
      NeverDouble(nested, k);
    }
  }

  /** INT n takes one more: its own delivery is outside the loop, and the triple
      fault names the alignment check that delivery raised. */
  method IntReachesCap(regs: Registers, persona: Persona, start: int)
    returns (cpu: Cpu, e: Ending, ghost nested: seq<int>)
    requires RegistersWf(regs) && Checked(true, regs) && U32(start)
    ensures cpu.Valid() && cpu.alignmentMask && cpu.Regs() == regs.(eip := start)
    ensures e == TripleFault(ALIGNMENT_CHECK, ALIGNMENT_CHECK)
    ensures |nested| == MAX_FAULT_ESCALATIONS + 1 && AllAlignment(nested)
  {
    hide Trapped, Chain, Checked, RegistersWf;
    var d := Site(regs.tr);
    cpu := new Cpu(Gdt(d), Idt(d), persona, {}, true, Memories(regs.tr), regs);
    GateStands(regs, SERVICE);
    GateStands(regs, ALIGNMENT_CHECK);
    ghost var last;
    e, nested, last := cpu.TakeInt(SERVICE, start);
  }

  lemma {:induction false} NeverDouble(nested: seq<int>, k: nat)
    requires AllAlignment(nested) && k <= |nested|
    ensures Chain(INVALID_OPCODE, false, nested[..k]) == if k == 0 then INVALID_OPCODE else ALIGNMENT_CHECK
  {
    if k > 0 {
      var before, next := nested[..k - 1], nested[k - 1];
      assert nested[..k] == before + [next] && next in nested;
      NeverDouble(nested, k - 1);
      ChainStep(INVALID_OPCODE, false, before, next);
      AlignmentIsSerial(FaultClassOf(Chain(INVALID_OPCODE, false, before), false));
    }
  }
}
