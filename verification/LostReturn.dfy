/** A task return that faults and cannot be restarted as one. */
module LostReturn {
  import opened Wrappers
  import opened CpuTypes
  import opened CpuCore

  /** A GDT out of the way of the TSS, with one busy TSS in it. */
  function Gdt(tr: Segment): Table { Table(if tr.base < 0x8000 then 0x1_0000 else 0, 15) }

  function Linked(tr: Segment): Memory {
    Write16(map[Gdt(tr).base + 13 := 0x8b], tr.base, 8)
  }

  /** A nested task whose TSS runs over the end of a page before its save area. */
  ghost predicate Straddles(regs: Registers) {
    RegistersWf(regs) && !regs.flags.vm && regs.flags.nested && regs.tr.base % 0x1000 >= 0xfe0
  }

  lemma LinkStands(tr: Segment)
    requires U32(tr.base) && tr.base % 0x1000 >= 0xfe0
    ensures var absent := {Page(tr.base + 32)};
      LinkAccepted(Linked(tr), absent, Gdt(tr), tr) && Blocked(absent, Gdt(tr), tr, Return)
  {
    hide Read16, Write16;
    var m, gdt, next := map[Gdt(tr).base + 13 := 0x8b], Gdt(tr), Page(tr.base + 32);
    Written16(m, tr.base, 8);
    assert Byte(Linked(tr), gdt.base + 13) == Byte(m, gdt.base + 13) == 0x8b;
    assert next == Page(tr.base) + 1;
    assert Page(gdt.base + 8) == Page(gdt.base + 12) == gdt.base / 0x1000;
    assert !SaveMapped({next}, tr.base, 8, 25) by { assert Page(tr.base + 4 * 8) in {next}; }
  }

  /** With the page of the save area absent and the back-link in order, the return
      faults with NT clear. The instruction that is restarted is no task return. */
  method NtIsLost(regs: Registers, persona: Persona) returns (cpu: Cpu, r: Outcome)
    requires Straddles(regs)
    ensures cpu.Valid() && LinkAccepted(Linked(regs.tr), cpu.absent, cpu.gdtr, regs.tr)
    ensures r.Raised? && r.fault.Exception? && r.fault.vector == PAGE_FAULT
    ensures cpu.flags == regs.flags.(nested := false) && !cpu.TaskReturn()
    ensures cpu.eip == regs.eip && cpu.seg == regs.seg && cpu.gpr == regs.gpr && cpu.tr == regs.tr
  {
    hide LinkAccepted, Blocked, Accepted, Linked, OuterCode, Shows;
    LinkStands(regs.tr);
    LinkMeans(Linked(regs.tr), {Page(regs.tr.base + 32)}, Gdt(regs.tr), regs.tr);
    cpu := new Cpu(Gdt(regs.tr), Table(0, 0), persona, {Page(regs.tr.base + 32)}, false, Linked(regs.tr), regs);
    ShowsNothing(cpu.mem, cpu.absent, cpu.seg[SS], cpu.gpr[ESP], Dword);
    ghost var trail;
    r, trail := cpu.Iret(Dword, []);
  }

  lemma LinkMeans(m: Memory, absent: set<int>, gdt: Table, tr: Segment)
    requires LinkAccepted(m, absent, gdt, tr)
    ensures Switchable(m, gdt, Read16(m, tr.base), Return)
  {
  }
}
