/** The control-transfer half of the protected-mode core: stack pushes and pops,
    segment loads, event delivery with its rollback guard and escalation loop,
    IRET, and the hardware task switch. Paging is an identity map in which any
    set of pages may be absent, so every memory access can raise #PF. */
module CpuCore {
  import opened Wrappers
  import opened CpuTypes

  const PAGE_FAULT := 14
  const GENERAL_PROTECTION := 13
  const STACK_FAULT := 12
  const NOT_PRESENT := 11
  const INVALID_TSS := 10
  const DOUBLE_FAULT := 8
  const ALIGNMENT_CHECK := 17

  /** The faults a delivery can raise before it commits. */
  predicate Nestable(vector: int) { INVALID_TSS <= vector <= PAGE_FAULT || vector == ALIGNMENT_CHECK }

  /** Alignment checks are on and can meet a frame built for a handler entered from
      `regs`: nothing but a level-3 task or a V86 task enters one at level 3, the
      first on its own stack and the second on a stack its TSS names. */
  ghost predicate Checked(mask: bool, regs: Registers)
    requires |regs.seg| == 6 && |regs.gpr| == 8
  {
    mask && regs.flags.alignment && (regs.flags.vm || (regs.cpl == 3 && !InLine(regs.seg[SS], regs.gpr[ESP], Dword)))
  }

  /** A processor exception, or the terminal error of a fault past the point
      where a task switch has committed. */
  datatype Fault = Exception(vector: int, code: Option<ErrorCode>) | AfterCommit(vector: int)
  datatype Outcome = Done | Raised(fault: Fault)

  datatype Source = Trap | SoftwareInterrupt | External
  datatype Kind = Jump | Call | Return

  predicate VectorPushesCode(vector: int) {
    vector == 8 || vector == 10 || vector == 11 || vector == 12 || vector == 13 || vector == 14 || vector == 17
  }

  /** Everything the core holds outside memory that a transfer can change. */
  datatype Registers = Registers(
    gpr: seq<int>, seg: seq<Segment>, eip: int, flags: Flags, cpl: int, tr: Segment, ldtr: Segment, switched: bool)

  predicate U32(x: int) { 0 <= x < 0x1_0000_0000 }
  predicate U16(x: int) { 0 <= x < 0x1_0000 }

  predicate SegmentWf(s: Segment) {
    U16(s.selector) && U32(s.base) && U32(s.limit) && 0 <= s.access < 0x100
  }

  ghost predicate RegistersWf(r: Registers) {
    && |r.gpr| == 8 && (forall k :: 0 <= k < 8 ==> U32(r.gpr[k]))
    && |r.seg| == 6 && (forall k :: 0 <= k < 6 ==> SegmentWf(r.seg[k]))
    && U32(r.eip) && r.flags.Wf() && 0 <= r.cpl <= 3 && SegmentWf(r.tr) && SegmentWf(r.ldtr)
  }

  const ESP := 4

  /** The part of a 386 TSS that a task switch saves and loads. */
  datatype TaskImage = TaskImage(eip: int, flags: int, gpr: seq<int>, selectors: seq<int>, ldt: int)

  ghost function ImageAt(m: Memory, base: int): (t: TaskImage)
    ensures U32(t.eip) && U32(t.flags) && |t.gpr| == 8 && |t.selectors| == 6 && U16(t.ldt)
  {
    TaskImage(Read32(m, base + 32), Read32(m, base + 36),
              seq(8, k requires 0 <= k < 8 => Read32(m, base + 40 + 4 * k)),
              seq(6, k requires 0 <= k < 6 => Read16(m, base + 72 + 4 * k)),
              Read16(m, base + 96))
  }

  ghost function ImageOf(regs: Registers): TaskImage {
    TaskImage(regs.eip, regs.flags.Image(), regs.gpr, Selectors(regs.seg), regs.ldtr.selector)
  }

  /** Changes to adjoining stretches are changes to the stretch they make up. */
  lemma Joined(m: Memory, m': Memory, m'': Memory, lo: int, mid: int, hi: int)
    requires SameOutside(m, m', lo, mid) && SameOutside(m', m'', mid, hi) && lo <= mid <= hi
    ensures SameOutside(m, m'', lo, hi)
  {
  }

  lemma Widened(m: Memory, m': Memory, lo: int, mid: int, hi: int)
    requires SameOutside(m, m', lo, mid) && mid <= hi
    ensures SameOutside(m, m', lo, hi)
  {
  }

  function Selectors(seg: seq<Segment>): (s: seq<int>)
    ensures |s| == |seg| && forall k :: 0 <= k < |s| ==> s[k] == seg[k].selector
  {
    seq(|seg|, k requires 0 <= k < |seg| => seg[k].selector)
  }

  /** `a` is an address of a descriptor table. */
  predicate InTable(table: Table, a: int) {
    table.limit >= 7 && table.base <= a <= table.base + table.limit
  }

  /** `a` is the access byte of some entry of a descriptor table. */
  predicate IsAccessByte(table: Table, a: int) {
    InTable(table, a) && (a - table.base) % 8 == 5
  }

  /** All that segment loads may have done to memory: set Accessed bits of code
      and data descriptors, in the GDT or in the LDT. */
  ghost predicate OnlyAccessed(m: Memory, m': Memory, gdt: Table, ldt: Table) {
    forall a :: AccessedAt(m, m', gdt, ldt, a)
  }

  ghost predicate AccessedAt(m: Memory, m': Memory, gdt: Table, ldt: Table, a: int) {
    || Byte(m', a) == Byte(m, a)
    || (IsAccessByte(gdt, a) && CodeOrData(Byte(m, a)) && CodeOrData(Byte(m', a)))
    || InTable(ldt, a)
  }

  lemma MarkedIsOnlyAccessed(m: Memory, m': Memory, gdt: Table, ldt: Table, table: Table, index: int)
    requires table == gdt || table == ldt
    requires index % 8 == 0 && 0 <= index && index + 7 <= table.limit
    requires MarkedAccessed(m, m', table.base + index)
    ensures OnlyAccessed(m, m', gdt, ldt)
  {
    var at := table.base + index;
    var access := Byte(m, at + 5);
    assert CodeOrData(access + 1) by { assert access % 2 == 0 && (access + 1) / 0x10 == access / 0x10; }
    assert (at + 5 - table.base) % 8 == 5;
  }

  lemma OnlyAccessedTwice(m: Memory, m': Memory, m'': Memory, gdt: Table, ldt: Table)
    requires OnlyAccessed(m, m', gdt, ldt) && OnlyAccessed(m', m'', gdt, ldt)
    ensures OnlyAccessed(m, m'', gdt, ldt)
  {
    forall a ensures AccessedAt(m, m'', gdt, ldt, a) {
      assert AccessedAt(m, m', gdt, ldt, a) && AccessedAt(m', m'', gdt, ldt, a);
    }
  }

  /** A TSS none of whose bytes is a descriptor. */
  ghost predicate Clear(base: int, table: Table) {
    forall a :: base <= a < base + 104 ==> !InTable(table, a)
  }

  lemma ClearKeeps(m: Memory, m': Memory, gdt: Table, ldt: Table, base: int, at: int)
    requires OnlyAccessed(m, m', gdt, ldt) && Clear(base, gdt) && Clear(base, ldt)
    requires base <= at && at + 2 <= base + 104
    ensures Read16(m', at) == Read16(m, at)
  {
    assert AccessedAt(m, m', gdt, ldt, at) && AccessedAt(m, m', gdt, ldt, at + 1);
  }

  /** The busy bit of a TSS descriptor's access byte. */
  function WithBusy(access: int, busy: bool): int {
    if ReadWrite(access) == busy then access else if busy then access + 2 else access - 2
  }

  function BusySet(m: Memory, gdt: Table, selector: int, busy: bool): Memory {
    if Index(selector) == 0 then m
    else var at := gdt.base + Index(selector) + 5; Write8(m, at, WithBusy(Byte(m, at), busy))
  }

  /** The dwords `lo` up to `hi` of a TSS start on present pages. */
  ghost predicate SaveMapped(absent: set<int>, base: int, lo: int, hi: int) {
    forall k :: lo <= k < hi ==> Page(base + 4 * k) !in absent
  }

  /** The page of the busy bit a selector names, if it names one, is present. */
  predicate BusyMapped(absent: set<int>, gdt: Table, selector: int) {
    Index(selector) == 0 || Page(gdt.base + Index(selector) + 5) !in absent
  }

  /** The fields written earlier survive the ones written later. */
  lemma ImageKept(b: Memory, c: Memory, d: Memory, e: Memory, base: int, gpr: seq<int>, selectors: seq<int>)
    requires SameOutside(b, c, base + 40, base + 72) && SameOutside(c, d, base + 72, base + 96)
             && SameOutside(d, e, base + 96, base + 98)
    requires |gpr| == 8 && forall k :: 0 <= k < 8 ==> Read32(c, base + 40 + 4 * k) == gpr[k]
    requires |selectors| == 6 && forall k :: 0 <= k < 6 ==> Read16(d, base + 72 + 4 * k) == selectors[k]
    ensures Read32(e, base + 32) == Read32(b, base + 32) && Read32(e, base + 36) == Read32(b, base + 36)
    ensures ImageAt(e, base).gpr == gpr && ImageAt(e, base).selectors == selectors
  {
    Kept32(b, c, base + 40, base + 72, base + 32);
    Kept32(b, c, base + 40, base + 72, base + 36);
    Kept32(c, d, base + 72, base + 96, base + 32);
    Kept32(c, d, base + 72, base + 96, base + 36);
    Kept32(d, e, base + 96, base + 98, base + 32);
    Kept32(d, e, base + 96, base + 98, base + 36);
    forall k | 0 <= k < 8 ensures Read32(e, base + 40 + 4 * k) == gpr[k] {
      Kept32(c, d, base + 72, base + 96, base + 40 + 4 * k);
      Kept32(d, e, base + 96, base + 98, base + 40 + 4 * k);
    }
    forall k | 0 <= k < 6 ensures Read16(e, base + 72 + 4 * k) == selectors[k] {
      Kept16(d, e, base + 96, base + 98, base + 72 + 4 * k);
    }
  }

  lemma DecodeWf(selector: int, low: int, high: int)
    requires U16(selector) && U32(low) && U32(high)
    ensures SegmentWf(Decode(selector, low, high))
  {
    assert 0 <= low / 0x1_0000 < 0x1_0000 && 0 <= high % 0x100 < 0x100 && 0 <= high / 0x100_0000 < 0x100;
    assert 0 <= high / 0x1_0000 % 0x10 < 0x10 && 0 <= low % 0x1_0000 < 0x1_0000;
  }

  function TableIn(gdt: Table, ldtr: Segment, selector: int): Table {
    if InLdt(selector) then Table(ldtr.base, ldtr.limit) else gdt
  }

  /** The privilege level of the descriptor a selector names. */
  ghost function LevelIn(m: Memory, gdt: Table, ldtr: Segment, selector: int): int {
    Dpl(Access(Read32(m, TableIn(gdt, ldtr, selector).base + Index(selector) + 4)))
  }

  predicate NarrowTss(tr: Segment) { SystemType(tr.access) == 0x01 || SystemType(tr.access) == 0x03 }

  /** The stack pointer and stack selector a TSS holds for a level, 386 or 286
      layout. */
  function InnerStack(m: Memory, tr: Segment, level: int): (r: (int, int))
    ensures U32(r.0) && U16(r.1)
  {
    if NarrowTss(tr) then (Read16(m, tr.base + 2 + 4 * level), Read16(m, tr.base + 4 + 4 * level))
    else (Read32(m, tr.base + 4 + 8 * level), Read16(m, tr.base + 8 + 8 * level))
  }

  /** The selector's descriptor is within its table and its pages are there. */
  predicate Reachable(absent: set<int>, table: Table, selector: int) {
    && Index(selector) != 0 && Index(selector) + 7 <= table.limit
    && Page(table.base + Index(selector)) !in absent && Page(table.base + Index(selector) + 4) !in absent
  }

  predicate InnerMapped(absent: set<int>, tr: Segment, level: int) {
    if NarrowTss(tr) then Page(tr.base + 2 + 4 * level) !in absent && Page(tr.base + 4 + 4 * level) !in absent
    else Page(tr.base + 4 + 8 * level) !in absent && Page(tr.base + 8 + 8 * level) !in absent
  }

  /** A system load of this selector into SS succeeds and leaves no mark. */
  predicate StackReady(m: Memory, absent: set<int>, table: Table, selector: int)
    requires U16(selector)
  {
    var access := Byte(m, table.base + Index(selector) + 5);
    Reachable(absent, table, selector) && Vet(SS, selector, access, -1).Done? && Accessed(access)
  }

  function BadSelector(selector: int): Outcome
    requires U16(selector)
  {
    Raised(Exception(GENERAL_PROTECTION, Some(SelectorCode(selector))))
  }

  /** The type, privilege and presence checks of a segment load. `level` is the
      current privilege level, or -1 for a reload whose caller applied its own
      privilege rules. */
  function Vet(which: int, selector: int, access: int, level: int): (r: Outcome)
    requires U16(selector)
    ensures r.Raised? ==> r.fault.Exception? && r.fault.vector in {GENERAL_PROTECTION, STACK_FAULT, NOT_PRESENT}
    ensures r.Done? ==> CodeOrData(access) && TypeLegal(which, access)
    ensures r.Done? && which == SS ==> Writable(access)
  {
    if !TypeLegal(which, access) then BadSelector(selector)
    else if level >= 0 && which != CS && !Conforming(access)
            && Dpl(access) < (if level > Rpl(selector) then level else Rpl(selector)) then BadSelector(selector)
    else if !Present(access) then
      Raised(Exception(if which == SS then STACK_FAULT else NOT_PRESENT,
                       Some(SelectorCode(selector))))
    else Done
  }

  /** What is wrong with loading a selector into register `which`, if anything: a null
      one is fine for a data segment, any other must be in its table, and then its
      descriptor must pass. */
  function LoadFault(m: Memory, table: Table, which: int, selector: int, level: int): Outcome
    requires U16(selector)
  {
    if NullSelector(selector) && which != CS && which != SS then Done
    else if (Index(selector) == 0 && !InLdt(selector)) || Index(selector) + 7 > table.limit then BadSelector(selector)
    else Vet(which, selector, Byte(m, table.base + Index(selector) + 5), level)
  }

  class Cpu {
    const gdtr: Table
    const idtr: Table
    const persona: Persona
    const absent: set<int>
    /** CR0.AM, which no transfer changes. */
    const alignmentMask: bool

    var mem: Memory
    var gpr: seq<int>
    var seg: seq<Segment>
    var eip: int
    var flags: Flags
    var cpl: int
    var tr: Segment
    var ldtr: Segment
    var switched: bool

    constructor (gdt: Table, idt: Table, persona: Persona, absent: set<int>, alignmentMask: bool, m: Memory,
                 regs: Registers)
      requires RegistersWf(regs)
      ensures Valid() && Regs() == regs && mem == m
      ensures gdtr == gdt && idtr == idt && this.persona == persona && this.absent == absent
              && this.alignmentMask == alignmentMask
    {
      gdtr, idtr, this.persona, this.absent, this.alignmentMask := gdt, idt, persona, absent, alignmentMask;
      mem, gpr, seg, eip, flags, cpl := m, regs.gpr, regs.seg, regs.eip, regs.flags, regs.cpl;
      tr, ldtr, switched := regs.tr, regs.ldtr, regs.switched;
    }

    ghost predicate Valid()
      reads this
    {
      RegistersWf(Regs())
    }

    function Regs(): Registers
      reads this
    {
      Registers(gpr, seg, eip, flags, cpl, tr, ldtr, switched)
    }

    /** A V86 task runs at level 3 on 8086-style segments. */
    ghost predicate V86Canonical()
      reads `flags, `cpl, `seg
    {
      flags.vm ==> cpl == 3 && |seg| == 6 && forall k :: 0 <= k < 6 ==> seg[k] == Real(seg[k].selector)
    }

    // ----- System structures ---------------------------------------------------

    predicate Gone(a: int) { Page(a) in absent }

    function PageFault(write: bool): Outcome {
      Raised(Exception(PAGE_FAULT, Some(if write then 2 else 0)))
    }

    /** A stack access runs at the current level, which the error code shows. */
    function StackPageFault(write: bool): Outcome
      reads this`cpl
    {
      Raised(Exception(PAGE_FAULT, Some((if write then 2 else 0) + if cpl == 3 then 4 else 0)))
    }

    function AlignmentFault(): Outcome { Raised(Exception(ALIGNMENT_CHECK, None)) }

    /** Where a selector's descriptor lives, if its table reaches that far. */
    function TableOf(selector: int): Table
      reads this`ldtr
    {
      TableIn(gdtr, ldtr, selector)
    }

    method ReadSystem32(a: int) returns (r: Outcome, v: int)
      ensures r == if Gone(a) then PageFault(false) else Done
      ensures r.Done? ==> v == Read32(mem, a)
      ensures U32(v)
    {
      if Gone(a) { return PageFault(false), 0; }
      return Done, Read32(mem, a);
    }

    method ReadSystem16(a: int) returns (r: Outcome, v: int)
      ensures r == if Gone(a) then PageFault(false) else Done
      ensures r.Done? ==> v == Read16(mem, a)
      ensures U16(v)
    {
      if Gone(a) { return PageFault(false), 0; }
      return Done, Read16(mem, a);
    }

    /** A descriptor for a far transfer: #GP on a null or out-of-range selector. */
    method ReadDescriptor(selector: int) returns (r: Outcome, low: int, high: int)
      requires U16(selector)
      ensures U32(low) && U32(high)
      ensures r.Raised? ==> r == PageFault(false) || r == BadSelector(selector)
      ensures r.Done? ==>
        var at := TableOf(selector).base + Index(selector);
        && Index(selector) != 0 && Index(selector) + 7 <= TableOf(selector).limit
        && low == Read32(mem, at) && high == Read32(mem, at + 4)
      ensures Index(selector) != 0 && Index(selector) + 7 <= TableOf(selector).limit && r.Raised? ==>
        r == PageFault(false)
      ensures Reachable(absent, TableOf(selector), selector) ==> r.Done?
    {
      low, high := 0, 0;
      var table := TableOf(selector);
      if Index(selector) == 0 || Index(selector) + 7 > table.limit {
        return BadSelector(selector), 0, 0;
      }
      var at := table.base + Index(selector);
      r, low := ReadSystem32(at);
      if r.Raised? { return; }
      r, high := ReadSystem32(at + 4);
    }

    // ----- Segment loads -------------------------------------------------------

    /** The descriptor at `at`, decoded. */
    method ReadEntry(selector: int, at: int) returns (r: Outcome, s: Segment)
      requires U16(selector)
      ensures r.Raised? ==> r == PageFault(false)
      ensures SegmentWf(s) && s.selector == selector
      ensures r.Done? ==> s == EntryAt(mem, at, selector) && s.access == Byte(mem, at + 5)
      ensures r.Done? <==> Page(at) !in absent && Page(at + 4) !in absent
    {
      s := Unusable(selector);
      var low, high;
      r, low := ReadSystem32(at);
      if r.Raised? { return; }
      r, high := ReadSystem32(at + 4);
      if r.Raised? { return; }
      AccessByte(mem, at);
      DecodeWf(selector, low, high);
      s := Decode(selector, low, high);
    }

    /** The checked load of a protected-mode descriptor into register `which`. It
        may set the descriptor's Accessed bit and changes nothing else. */
    method LoadProtected(which: int, selector: int, checkPrivilege: bool) returns (r: Outcome, s: Segment)
      requires Valid() && U16(selector)
      modifies `mem
      ensures SegmentWf(s)
      ensures r.Raised? ==>
        r.fault.Exception? && r.fault.vector in {PAGE_FAULT, GENERAL_PROTECTION, STACK_FAULT, NOT_PRESENT}
      ensures r.Done? ==> s.selector == selector
      ensures r.Done? ==> s == if NullSelector(selector) && which != CS && which != SS then Unusable(selector)
                               else EntryAt(old(mem), TableOf(selector).base + Index(selector), selector)
      ensures r.Raised? ==>
        || r == PageFault(false) || r == PageFault(true)
        || r == LoadFault(old(mem), TableOf(selector), which, selector, if checkPrivilege then cpl else -1)
      ensures r.Done? ==>
        LoadFault(old(mem), TableOf(selector), which, selector, if checkPrivilege then cpl else -1).Done?
      ensures r.Done? && which == SS ==> Writable(s.access) && CodeOrData(s.access)
      ensures mem == old(mem) || MarkedAccessed(old(mem), mem, TableOf(selector).base + Index(selector))
      ensures which == SS && !checkPrivilege && StackReady(old(mem), absent, TableOf(selector), selector) ==>
        r.Done? && mem == old(mem)
      ensures mem != old(mem) ==>
        Index(selector) + 7 <= TableOf(selector).limit && (Index(selector) != 0 || InLdt(selector))
    {
      hide EntryAt, Index, InLdt, TypeLegal, CodeOrData, Writable;
      s := Unusable(selector);
      if NullSelector(selector) && which != CS && which != SS {
        return Done, s;
      }
      var table := TableOf(selector);
      if (Index(selector) == 0 && !InLdt(selector)) || Index(selector) + 7 > table.limit {
        return BadSelector(selector), s;
      }
      var at := table.base + Index(selector);
      r, s := ReadEntry(selector, at);
      if r.Raised? { return; }
      r := Vet(which, selector, s.access, if checkPrivilege then cpl else -1);
      if r.Raised? { return; }
      if !Accessed(s.access) {
        if Gone(at + 5) {
          return PageFault(true), s;
        }
        mem := Write8(mem, at + 5, s.access + 1);
      }
    }

    method LoadSegment(which: int, selector: int, checkPrivilege: bool) returns (r: Outcome)
      requires Valid() && U16(selector) && 0 <= which < 6
      modifies `mem, `seg
      ensures Valid()
      ensures r.Raised? ==> seg == old(seg) && r.fault.Exception?
      ensures r.Raised? ==> r.fault.vector in {PAGE_FAULT, GENERAL_PROTECTION, STACK_FAULT, NOT_PRESENT}
      ensures r.Done? ==> seg == old(seg)[which := seg[which]] && seg[which].selector == selector
      ensures flags.vm ==> r.Done? && seg[which] == Real(selector) && mem == old(mem)
      ensures r.Done? && !flags.vm && which == SS ==> Writable(seg[SS].access) && CodeOrData(seg[SS].access)
      ensures mem == old(mem) || MarkedAccessed(old(mem), mem, TableOf(selector).base + Index(selector))
      ensures r.Done? && !flags.vm && (which == CS || which == SS) ==>
        seg[which] == EntryAt(old(mem), TableOf(selector).base + Index(selector), selector)
      ensures which == SS && !checkPrivilege && StackReady(old(mem), absent, TableOf(selector), selector) ==>
        r.Done? && mem == old(mem)
      ensures mem != old(mem) ==>
        Index(selector) + 7 <= TableOf(selector).limit && (Index(selector) != 0 || InLdt(selector))
    {
      hide EntryAt, StackReady, Index, InLdt, MarkedAccessed, Writable, CodeOrData, NullSelector;
      if flags.vm {
        seg := seg[which := Real(selector)];
        return Done;
      }
      var s;
      r, s := LoadProtected(which, selector, checkPrivilege);
      if r.Done? {
        seg := seg[which := s];
      }
    }

    // ----- The stack -----------------------------------------------------------

    predicate Armed()
      reads `flags, `cpl
    {
      alignmentMask && flags.alignment && cpl == 3
    }

    /** A stack access the alignment check refuses, before any other check. */
    predicate Misaligned(offset: int, size: Size)
      reads `flags, `cpl
    {
      Armed() && offset % size.Bytes() != 0
    }

    /** A push writes first and moves the stack pointer only once the write went
        through, so a faulting push leaves no trace. */
    method Push(value: int, size: Size) returns (r: Outcome)
      requires Valid() && U32(value)
      modifies `mem, `gpr
      ensures Valid()
      ensures r.Raised? ==> gpr == old(gpr) && mem == old(mem)
      ensures r.Raised? ==> r.fault.Exception? && r.fault.vector in {PAGE_FAULT, STACK_FAULT, ALIGNMENT_CHECK}
      ensures r == AlignmentFault() <==> Misaligned(Offset(seg[SS], old(gpr[ESP]), -size.Bytes()), size)
      ensures r.Raised? && r.fault.vector == ALIGNMENT_CHECK ==> r == AlignmentFault()
      ensures r.Done? ==>
        var at := Linear(seg[SS], Offset(seg[SS], old(gpr[ESP]), -size.Bytes()));
        && gpr == old(gpr)[ESP := Moved(seg[SS], old(gpr[ESP]), -size.Bytes())]
        && mem == WriteAt(old(mem), size, at, value)
        && Mapped(absent, at, size.Bytes())
        && InLimit(seg[SS], Offset(seg[SS], old(gpr[ESP]), -size.Bytes()), size.Bytes())
    {
      hide WriteAt, InLimit, Linear;
      var ss := seg[SS];
      var offset := Offset(ss, gpr[ESP], -size.Bytes());
      if Misaligned(offset, size) {
        return AlignmentFault();
      }
      if !Writable(ss.access) || !InLimit(ss, offset, size.Bytes()) {
        return Raised(Exception(STACK_FAULT, Some(0)));
      }
      var at := Linear(ss, offset);
      if !Mapped(absent, at, size.Bytes()) {
        return StackPageFault(true);
      }
      mem := WriteAt(mem, size, at, value);
      MovedOffset(ss, gpr[ESP], -size.Bytes(), 0);
      gpr := gpr[ESP := Moved(ss, gpr[ESP], -size.Bytes())];
      return Done;
    }

    /** A pop from a stack that shows `shown`, or any stack if that is empty. */
    method Pop(size: Size, ghost shown: seq<int>) returns (r: Outcome, value: int)
      requires Valid() && Shows(mem, absent, seg[SS], gpr[ESP], size, shown)
      modifies `gpr
      ensures Valid() && U32(value) && (size.Word? ==> U16(value))
      ensures gpr == old(gpr)[ESP := if r.Done? then Moved(seg[SS], old(gpr[ESP]), size.Bytes()) else old(gpr[ESP])]
      ensures r.Raised? ==> r.fault.Exception? && r.fault.vector in {PAGE_FAULT, STACK_FAULT, ALIGNMENT_CHECK}
      ensures Misaligned(Offset(seg[SS], old(gpr[ESP]), 0), size) ==> r == AlignmentFault()
      ensures r.Done? ==> value == ReadAt(mem, size, Linear(seg[SS], Offset(seg[SS], old(gpr[ESP]), 0)))
      ensures r.Done? ==> Shows(mem, absent, seg[SS], gpr[ESP], size, Rest(shown))
      ensures shown != [] && Readable(seg[SS].access) && !Misaligned(Offset(seg[SS], old(gpr[ESP]), 0), size) ==>
        r.Done?
      ensures shown != [] && r.Done? ==> value == shown[0]
    {
      hide ReadAt, InLimit, Linear, Offset, Moved, Shows;
      var ss := seg[SS];
      var offset := Offset(ss, gpr[ESP], 0);
      if shown != [] { PopShows(mem, absent, ss, gpr[ESP], size, shown); }
      if Misaligned(offset, size) {
        return AlignmentFault(), 0;
      }
      if !Readable(ss.access) || !InLimit(ss, offset, size.Bytes()) {
        return Raised(Exception(STACK_FAULT, Some(0))), 0;
      }
      var at := Linear(ss, offset);
      if !Mapped(absent, at, size.Bytes()) {
        return StackPageFault(false), 0;
      }
      MovedOffset(ss, gpr[ESP], size.Bytes(), 0);
      gpr := gpr[ESP := Moved(ss, gpr[ESP], size.Bytes())];
      if shown == [] { ShowsNothing(mem, absent, ss, gpr[ESP], size); }
      return Done, ReadAt(mem, size, at);
    }

    // ----- Event delivery ------------------------------------------------------

    /** The ring-`level` stack pointer in the current TSS, 386 or 286 layout. */
    method ReadInnerStack(level: int) returns (r: Outcome, esp: int, ss: int)
      ensures U32(esp) && U16(ss) && (r.Raised? ==> r == PageFault(false))
      ensures r.Done? ==> (esp, ss) == InnerStack(mem, tr, level)
      ensures InnerMapped(absent, tr, level) ==> r.Done?
    {
      esp, ss := 0, 0;
      if NarrowTss(tr) {
        r, esp := ReadSystem16(tr.base + 2 + 4 * level);
        if r.Raised? { return; }
        r, ss := ReadSystem16(tr.base + 4 + 4 * level);
      } else {
        r, esp := ReadSystem32(tr.base + 4 + 8 * level);
        if r.Raised? { return; }
        r, ss := ReadSystem16(tr.base + 8 + 8 * level);
      }
    }

    /** Switch to the ring-`level` stack. On a 16-bit stack only SP is loaded and
        ESP's high word stays. */
    method SwitchToInnerStack(level: int) returns (r: Outcome, oldSs: int, oldEsp: int)
      requires Valid() && 0 <= level <= 3 && !flags.vm
      modifies `mem, `gpr, `seg
      ensures Valid()
      ensures oldSs == old(seg[SS].selector) && oldEsp == old(gpr[ESP])
      ensures gpr == old(gpr)[ESP := gpr[ESP]] && seg == old(seg)[SS := seg[SS]]
      ensures r.Raised? ==>
        r.fault.Exception? && r.fault.vector in {PAGE_FAULT, GENERAL_PROTECTION, STACK_FAULT, NOT_PRESENT}
      ensures r.Done? ==> Writable(seg[SS].access) && CodeOrData(seg[SS].access)
      ensures r.Done? ==>
        var (esp, ss) := InnerStack(old(mem), tr, level);
        && seg[SS] == EntryAt(old(mem), TableOf(ss).base + Index(ss), ss) && seg[SS].selector == ss
        && gpr[ESP] == StackPointer(seg[SS].big, old(gpr[ESP]), esp)
        && (mem == old(mem) || MarkedAccessed(old(mem), mem, TableOf(ss).base + Index(ss)))
      ensures InnerReady(old(mem), absent, gdtr, ldtr, tr, level) ==> r.Done? && mem == old(mem)
    {
      hide InnerStack, MarkedAccessed, Index, InLdt, TableIn, Writable, CodeOrData, StackPointer, InnerMapped,
        StackReady, EntryAt;
      oldSs, oldEsp := seg[SS].selector, gpr[ESP];
      var newEsp, newSs;
      r, newEsp, newSs := ReadInnerStack(level);
      if r.Raised? { return; }
      r := LoadSegment(SS, newSs, false);
      if r.Raised? { return; }
      StackPointerWf(seg[SS].big, gpr[ESP], newEsp);
      gpr := gpr[ESP := StackPointer(seg[SS].big, gpr[ESP], newEsp)];
    }

    /** One more value on a stack that shows `below`. */
    method PushShown(value: int, size: Size, ghost below: seq<int>, ghost shown: seq<int>) returns (r: Outcome)
      requires Valid() && U32(value) && |below| <= 12 && shown == [Cut(value, size)] + below
      requires Shows(mem, absent, seg[SS], gpr[ESP], size, below)
      modifies `mem, `gpr
      ensures Valid() && gpr == old(gpr)[ESP := gpr[ESP]]
      ensures r.Raised? ==> r.fault.Exception? && r.fault.vector in {PAGE_FAULT, STACK_FAULT, ALIGNMENT_CHECK}
      ensures r.Raised? && r.fault.vector == ALIGNMENT_CHECK ==> Armed()
      ensures old(Misaligned(Offset(seg[SS], gpr[ESP], -size.Bytes()), size)) ==>
        r == AlignmentFault() && mem == old(mem)
      ensures r.Done? ==> Shows(mem, absent, seg[SS], gpr[ESP], size, shown)
      ensures old(InLine(seg[SS], gpr[ESP], size)) ==> InLine(seg[SS], gpr[ESP], size) && !IsAlignmentCheck(r)
    {
      hide WriteAt, InLimit, Linear, Offset, Moved, Shows, InLine;
      LineKept(seg[SS], gpr[ESP], size);
      r := Push(value, size);
      if r.Done? {
        PushShows(old(mem), absent, seg[SS], old(gpr[ESP]), size, below, value);
      }
    }

    /** The four data segments of a V86 source, above the inner stack. */
    method PushDataSegments() returns (r: Outcome)
      requires Valid()
      modifies `mem, `gpr
      ensures Valid() && gpr == old(gpr)[ESP := gpr[ESP]]
      ensures r.Raised? ==> r.fault.Exception? && r.fault.vector in {PAGE_FAULT, STACK_FAULT, ALIGNMENT_CHECK}
      ensures r.Raised? && r.fault.vector == ALIGNMENT_CHECK ==> Armed()
      ensures old(Misaligned(Offset(seg[SS], gpr[ESP], -4), Dword)) ==> r == AlignmentFault() && mem == old(mem)
      ensures r.Done? ==> Shows(mem, absent, seg[SS], gpr[ESP], Dword, DataSelectors(seg))
    {
      hide Shows;
      var gs, fs, ds, es := seg[GS].selector, seg[FS].selector, seg[DS].selector, seg[ES].selector;
      ShowsNothing(mem, absent, seg[SS], gpr[ESP], Dword);
      r := PushShown(gs, Dword, [], [gs]);
      if r.Raised? { return; }
      r := PushShown(fs, Dword, [gs], [fs, gs]);
      if r.Raised? { return; }
      r := PushShown(ds, Dword, [fs, gs], [ds, fs, gs]);
      if r.Raised? { return; }
      r := PushShown(es, Dword, [ds, fs, gs], [es, ds, fs, gs]);
    }

    /** The outer stack, if a ring was crossed, on top of `below`. */
    method PushOuterStack(crossed: bool, ss: int, esp: int, size: Size, ghost below: seq<int>) returns (r: Outcome)
      requires Valid() && U16(ss) && U32(esp) && |below| <= 4
      requires Shows(mem, absent, seg[SS], gpr[ESP], size, below)
      modifies `mem, `gpr
      ensures Valid() && gpr == old(gpr)[ESP := gpr[ESP]]
      ensures r.Raised? ==> r.fault.Exception? && r.fault.vector in {PAGE_FAULT, STACK_FAULT, ALIGNMENT_CHECK}
      ensures r.Raised? && r.fault.vector == ALIGNMENT_CHECK ==> Armed()
      ensures r.Done? ==> Shows(mem, absent, seg[SS], gpr[ESP], size, OuterStack(crossed, ss, esp, size) + below)
      ensures !crossed ==> r.Done? && mem == old(mem) && gpr == old(gpr)
      ensures old(InLine(seg[SS], gpr[ESP], size)) ==> InLine(seg[SS], gpr[ESP], size) && !IsAlignmentCheck(r)
    {
      hide Shows, InLine;
      r := Done;
      if crossed {
        r := PushShown(ss, size, below, [ss] + below);
        if r.Raised? { return; }
        r := PushShown(esp, size, [ss] + below, [Cut(esp, size), ss] + below);
      } else {
        assert OuterStack(crossed, ss, esp, size) + below == below;
      }
    }

    /** Flags, CS and the instruction pointer on top of `below`, then the error
        code of a vector that carries one. */
    method PushReturn(image: int, cs: int, ip: int, code: Option<ErrorCode>, size: Size, ghost below: seq<int>)
      returns (r: Outcome)
      requires Valid() && U32(image) && U16(cs) && U32(ip) && |below| <= 6
      requires Shows(mem, absent, seg[SS], gpr[ESP], size, below)
      modifies `mem, `gpr
      ensures Valid() && gpr == old(gpr)[ESP := gpr[ESP]]
      ensures r.Raised? ==> r.fault.Exception? && r.fault.vector in {PAGE_FAULT, STACK_FAULT, ALIGNMENT_CHECK}
      ensures r.Raised? && r.fault.vector == ALIGNMENT_CHECK ==> Armed()
      ensures old(Misaligned(Offset(seg[SS], gpr[ESP], -size.Bytes()), size)) ==>
        r == AlignmentFault() && mem == old(mem)
      ensures r.Done? ==>
        Shows(mem, absent, seg[SS], gpr[ESP], size,
              CodeSlot(code, size) + [Cut(ip, size), cs, Cut(image, size)] + below)
      ensures old(InLine(seg[SS], gpr[ESP], size)) ==> InLine(seg[SS], gpr[ESP], size) && !IsAlignmentCheck(r)
    {
      hide Shows, InLine;
      ghost var a := [Cut(image, size)] + below;
      ghost var b := [cs, Cut(image, size)] + below;
      ghost var c := [Cut(ip, size), cs, Cut(image, size)] + below;
      r := PushShown(image, size, below, a);
      if r.Raised? { return; }
      r := PushShown(cs, size, a, b);
      if r.Raised? { return; }
      r := PushShown(ip, size, b, c);
      if r.Raised? { return; }
      assert CodeSlot(code, size) + [Cut(ip, size), cs, Cut(image, size)] + below == CodeSlot(code, size) + c;
      if code.Some? {
        r := PushShown(code.value, size, c, [Cut(code.value, size)] + c);
      } else {
        assert CodeSlot(code, size) + c == c;
      }
    }

    /** The stack the handler runs on: the ring's own if the entry crosses, with
        the data segments of a V86 source on it. */
    method EnterStack(crosses: bool, fromV86: bool, target: int) returns (r: Outcome, ss: int, esp: int)
      requires Valid() && !flags.vm && 0 <= target <= 3
      modifies `mem, `gpr, `seg
      ensures Valid() && gpr == old(gpr)[ESP := gpr[ESP]] && seg == old(seg)[SS := seg[SS]]
      ensures ss == old(seg[SS].selector) && esp == old(gpr[ESP])
      ensures !crosses ==> r.Done? && mem == old(mem) && gpr == old(gpr) && seg == old(seg)
      ensures
        && crosses && fromV86 && Armed() && InnerReady(old(mem), absent, gdtr, ldtr, tr, target)
        && InnerUnaligned(old(mem), gdtr, ldtr, tr, target, old(gpr[ESP]))
        ==> r == AlignmentFault() && mem == old(mem)
      ensures r.Raised? ==> r.fault.Exception? && Nestable(r.fault.vector)
      ensures r.Raised? && r.fault.vector == ALIGNMENT_CHECK ==> Armed()
      ensures r.Done? ==> if crosses then Writable(seg[SS].access) else seg[SS] == old(seg[SS])
      ensures r.Done? && crosses ==> seg[SS].selector == InnerStack(old(mem), tr, target).1
      ensures r.Done? ==>
        Shows(mem, absent, seg[SS], gpr[ESP], Dword, if crosses && fromV86 then DataSelectors(old(seg)) else [])
    {
      hide Shows, Writable, CodeOrData, InnerStack, MarkedAccessed, StackPointer, InnerReady, EntryAt, Index, TableIn,
        InLine, Offset, Moved;
      r, ss, esp := Done, seg[SS].selector, gpr[ESP];
      if crosses {
        r, ss, esp := SwitchToInnerStack(target);
        if r.Raised? { return; }
        if fromV86 {
          LineKept(seg[SS], gpr[ESP], Dword);
          r := PushDataSegments();
        }
      }
      if !crosses || !fromV86 { ShowsNothing(mem, absent, seg[SS], gpr[ESP], Dword); }
    }

    /** The whole frame of an event that interrupts `regs`. */
    method BuildFrame(crosses: bool, fromV86: bool, target: int, cs: int, ip: int, image: int, code: Option<ErrorCode>,
                      size: Size, ghost regs: Registers)
      returns (r: Outcome)
      requires Valid() && !flags.vm && 0 <= target <= 3 && U16(cs) && U32(ip) && U32(image)
      requires regs.gpr == gpr && regs.seg == seg && cs == seg[CS].selector && image == regs.flags.Image()
      requires fromV86 == regs.flags.vm && (fromV86 ==> crosses && size.Dword?)
               && ip == InstructionPointer(fromV86, seg[CS].big, regs.eip)
      modifies `mem, `gpr, `seg
      ensures Valid() && gpr == old(gpr)[ESP := gpr[ESP]] && seg == old(seg)[SS := seg[SS]]
      ensures r.Raised? ==> r.fault.Exception? && Nestable(r.fault.vector)
      ensures r.Raised? && r.fault.vector == ALIGNMENT_CHECK ==> Armed()
      ensures r.Done? ==> if crosses then Writable(seg[SS].access) else seg[SS] == old(seg[SS])
      ensures r.Done? && crosses ==> seg[SS].selector == InnerStack(old(mem), tr, target).1
      ensures r.Done? ==> Shows(mem, absent, seg[SS], gpr[ESP], size, Frame(regs, crosses, code, size))
      ensures !crosses && old(Misaligned(Offset(seg[SS], gpr[ESP], -size.Bytes()), size)) ==>
        r == AlignmentFault() && mem == old(mem)
      ensures !crosses && old(InLine(seg[SS], gpr[ESP], size)) ==> !IsAlignmentCheck(r)
      ensures
        && crosses && fromV86 && Armed() && InnerReady(old(mem), absent, gdtr, ldtr, tr, target)
        && InnerUnaligned(old(mem), gdtr, ldtr, tr, target, old(gpr[ESP]))
        ==> r == AlignmentFault() && mem == old(mem)
    {
      hide Shows, Writable, CodeSlot, OuterStack, Cut, InnerStack, InLine, InnerReady, InnerUnaligned;
      var ss, esp;
      r, ss, esp := EnterStack(crosses, fromV86, target);
      if r.Raised? { return; }
      ghost var below := if crosses && regs.flags.vm then DataSelectors(regs.seg) else [];
      if below == [] { ShowsNothing(mem, absent, seg[SS], gpr[ESP], size); }
      r := PushOuterStack(crosses, ss, esp, size, below);
      if r.Raised? { return; }
      ghost var outer := OuterStack(crosses, ss, esp, size);
      OuterStackSize(crosses, ss, esp, size);
      r := PushReturn(image, cs, ip, code, size, outer + below);
    }

    /** The last step of an entry: the handler's flags, CS and instruction pointer.
        A V86 source leaves its data segments behind. */
    method EnterCode(gate: Gate, interrupted: Flags) returns (r: Outcome)
      requires Valid() && U16(gate.selector) && U32(gate.offset) && interrupted.Wf()
      modifies `mem, `seg, `eip, `flags
      ensures Valid()
      ensures r.Raised? ==>
        && eip == old(eip) && seg[CS] == old(seg[CS]) && r.fault.Exception?
        && r.fault.vector in {PAGE_FAULT, GENERAL_PROTECTION, STACK_FAULT, NOT_PRESENT}
      ensures r.Done? ==> eip == gate.offset && seg[CS].selector == gate.selector
      ensures flags == HandlerFlags(interrupted, gate.interrupt) && !flags.vm && seg[SS] == old(seg[SS])
      ensures r.Done? ==>
        if interrupted.vm then seg[DS] == seg[ES] == seg[FS] == seg[GS] == Real(0) else seg == old(seg)[CS := seg[CS]]
      ensures mem == old(mem) || MarkedAccessed(old(mem), mem, TableOf(gate.selector).base + Index(gate.selector))
    {
      hide MarkedAccessed, Index, InLdt, CodeOrData, Writable, TableOf;
      flags := HandlerFlags(interrupted, gate.interrupt);
      if interrupted.vm {
        seg := seg[DS := Real(0)][ES := Real(0)][FS := Real(0)][GS := Real(0)];
      }
      r := LoadSegment(CS, gate.selector, true);
      if r.Raised? { return; }
      eip := gate.offset;
    }

    /** Leave V86 mode and take the level of the handler's segment, before anything
        is pushed. */
    method EnterLevel(selector: int) returns (r: Outcome, crosses: bool, target: int)
      requires Valid() && U16(selector)
      modifies `flags, `cpl
      ensures Valid() && 0 <= target <= 3 && flags == old(flags).(vm := false)
      ensures r.Raised? ==> r.fault.Exception? && r.fault.vector in {PAGE_FAULT, GENERAL_PROTECTION}
      ensures r.Done? ==> target == TargetLevel(selector) && crosses == Crosses(old(Regs()), target)
      ensures r.Done? ==> cpl == if crosses then target else old(cpl)
      ensures Reachable(absent, TableOf(selector), selector) ==> r.Done?
    {
      hide Index, InLdt, Dpl, Access, TableIn, Read32, SelectorCode;
      crosses, target := flags.vm, 0;
      flags := flags.(vm := false);
      var low, high;
      r, low, high := ReadDescriptor(selector);
      if r.Raised? { return; }
      target := Dpl(Access(high));
      DplInRange(Access(high));
      crosses := crosses || target < cpl;
      cpl := if crosses then target else cpl;
    }

    /** The way into a handler as far as its stack: the handler's level, then the
        frame. */
    method EnterFrame(gate: Gate, code: Option<ErrorCode>) returns (r: Outcome)
      requires Valid() && U16(gate.selector)
      modifies `mem, `gpr, `seg, `flags, `cpl
      ensures Valid() && gpr == old(gpr)[ESP := gpr[ESP]] && seg == old(seg)[SS := seg[SS]]
              && flags == old(flags).(vm := false)
      ensures r.Raised? ==> r.fault.Exception? && Nestable(r.fault.vector)
      ensures IsAlignmentCheck(r) ==> Checked(alignmentMask, old(Regs())) && old(TargetLevel(gate.selector)) == 3
      ensures
        && Unaligned(old(Regs()), old(mem), gdtr, absent, alignmentMask, gate) && old(TargetLevel(gate.selector)) == 3
        && Reachable(absent, TableOf(gate.selector), gate.selector)
        ==> r == AlignmentFault() && mem == old(mem)
      ensures r.Done? ==>
        var target := old(TargetLevel(gate.selector));
        var crossed := Crosses(old(Regs()), target);
        var size := if gate.wide || old(flags.vm) then Dword else Word;
        && cpl == (if crossed then target else old(cpl))
        && (if crossed then Writable(seg[SS].access) && seg[SS].selector == InnerStack(old(mem), tr, target).1
            else seg[SS] == old(seg[SS]))
        && Shows(mem, absent, seg[SS], gpr[ESP], size, Frame(old(Regs()), crossed, code, size))
    {
      hide InnerReady, InnerUnaligned, InLine, Offset, Moved, InnerStack, Shows, Index, InLdt, Frame, Writable,
        Flags.Image, TableOf, InstructionPointer, TargetLevel, Flags.Wf, Reachable, RegistersWf;
      Shape();
      ghost var regs := Regs();
      var image, cs, fromV86 := flags.Image(), seg[CS].selector, flags.vm;
      ImageInRange(flags);
      var ip := InstructionPointer(fromV86, seg[CS].big, eip);
      var size := if gate.wide || fromV86 then Dword else Word;
      LineKept(seg[SS], gpr[ESP], size);
      if InLine(seg[SS], gpr[ESP], Dword) { DwordLine(seg[SS], gpr[ESP]); }
      var crosses, target;
      r, crosses, target := EnterLevel(gate.selector);
      if r.Raised? { return; }
      Shape();
      r := BuildFrame(crosses, fromV86, target, cs, ip, image, code, size, regs);
    }

    /** The parts of `Valid` a frame is made of. */
    lemma Shape()
      requires Valid()
      ensures |gpr| == 8 && |seg| == 6 && U32(gpr[ESP]) && U16(seg[CS].selector) && U32(eip) && flags.Wf()
              && 0 <= cpl <= 3
    {
    }

    /** Entry to a handler through an interrupt or trap gate. `framed` is the
        memory once the frame is on the handler's stack. */
    method EnterHandler(gate: Gate, code: Option<ErrorCode>) returns (r: Outcome, ghost framed: Memory)
      requires Valid() && U16(gate.selector) && U32(gate.offset)
      modifies `mem, `gpr, `seg, `eip, `flags, `cpl
      ensures Valid() && gpr == old(gpr)[ESP := gpr[ESP]]
      ensures r.Raised? ==> eip == old(eip) && seg[CS] == old(seg[CS]) && r.fault.Exception? && Nestable(r.fault.vector)
      ensures IsAlignmentCheck(r) ==> Checked(alignmentMask, old(Regs())) && old(TargetLevel(gate.selector)) == 3
      ensures
        && Unaligned(old(Regs()), old(mem), gdtr, absent, alignmentMask, gate) && old(TargetLevel(gate.selector)) == 3
        && Reachable(absent, TableOf(gate.selector), gate.selector)
        ==> r == AlignmentFault() && mem == old(mem)
      ensures r.Done? ==> !flags.vm
      ensures r.Done? ==>
        && Entered(old(Regs()), Regs(), gate, code, old(TargetLevel(gate.selector)), framed, absent)
        && (mem == framed || MarkedAccessed(framed, mem, TableOf(gate.selector).base + Index(gate.selector)))
      ensures r.Done? && Crosses(old(Regs()), old(TargetLevel(gate.selector))) ==>
        seg[SS].selector == InnerStack(old(mem), tr, old(TargetLevel(gate.selector))).1
    {
      hide Unaligned, Checked, InnerStack, Shows, MarkedAccessed, Index, InLdt, Frame, Writable, TableOf,
        HandlerFlags, TargetLevel, Flags.Wf,
        Reachable, SegmentWf;
      framed := mem;
      var interrupted := flags;
      r := EnterFrame(gate, code);
      if r.Raised? { return; }
      framed := mem;
      r := EnterCode(gate, interrupted);
    }

    /** The level a handler in this segment runs at. */
    ghost function TargetLevel(selector: int): int
      reads `mem, `ldtr
    {
      LevelIn(mem, gdtr, ldtr, selector)
    }

    /** The delivery body. It commits piece by piece, so a failure may leave the
        stack pointer, the flags, the level and the stack and data segments
        changed; CS, EIP and the rest it changes last. */
    method DeliverBody(vector: int, code: Option<ErrorCode>, source: Source)
      returns (r: Outcome, ghost framed: Memory, ghost hop: Hop)
      requires Valid() && 0 <= vector < 0x100
      modifies this
      ensures Valid()
      ensures r.Raised? && r.fault.Exception? ==>
        && Nestable(r.fault.vector)
        && Regs() == old(Regs()).(gpr := old(gpr)[ESP := gpr[ESP]], seg := seg, flags := flags, cpl := cpl)
        && seg[CS] == old(seg[CS])
      ensures r.Done? ==> V86Canonical()
      ensures Refused(old(mem), idtr, vector, source, old(cpl)) ==>
        r == PageFault(false) || r == Raised(Refusal(old(mem), idtr, vector, source, old(cpl)))
      ensures r.Done? && !IsTaskGate(old(mem), idtr, vector) ==>
        var gate := GateAt(old(mem), idtr, vector);
        && Entered(old(Regs()), Regs(), gate, PushedCode(vector, code, source), old(TargetLevel(gate.selector)),
                   framed, absent)
        && (mem == framed || MarkedAccessed(framed, mem, TableOf(gate.selector).base + Index(gate.selector)))
      ensures r.Done? && IsTaskGate(old(mem), idtr, vector) ==>
        Tasked(old(Regs()), old(mem), Regs(), mem, gdtr, GateAt(old(mem), idtr, vector).selector,
               PushedCode(vector, code, source), hop)
      ensures r.Raised? && r.fault.Exception? && r.fault.vector == ALIGNMENT_CHECK ==>
        && Checked(alignmentMask, old(Regs()))
        && LevelIn(old(mem), gdtr, old(ldtr), GateAt(old(mem), idtr, vector).selector) == 3
      ensures Trapped(old(Regs()), old(mem), idtr, gdtr, absent, alignmentMask, vector, source) ==>
        r == AlignmentFault() && mem == old(mem)
    {
      hide Entered, MarkedAccessed, Index, InLdt, Read32, Switchable, ImageAt, OnlyAccessed,
        SelectorCode, BusySet, EntryAt, SameOutside, LdtFrom, Arrives, GateOf, Access, Dpl, Shows, Clear, Tasked,
        LevelIn, TableIn, Unaligned, Reachable;
      framed, hop := mem, Hop(Trail(mem, mem, mem), Regs(), mem);
      var ext := if source.External? then 1 else 0;
      if idtr.limit < vector * 8 + 7 {
        return Raised(Exception(GENERAL_PROTECTION, Some(vector * 8 + 2 + ext))), framed, hop;
      }
      var low, high;
      r, low := ReadSystem32(idtr.base + vector * 8);
      if r.Raised? { return; }
      r, high := ReadSystem32(idtr.base + vector * 8 + 4);
      if r.Raised? { return; }
      var idtCode := vector * 8 + 2 + ext;
      if source.SoftwareInterrupt? && Dpl(Access(high)) < cpl {
        return Raised(Exception(GENERAL_PROTECTION, Some(idtCode))), framed, hop;
      }
      if !Present(Access(high)) {
        return Raised(Exception(NOT_PRESENT, Some(idtCode))), framed, hop;
      }
      var gate := GateOf(low, high);
      GateOfWf(low, high);
      var pushed := PushedCode(vector, code, source);
      if SystemType(Access(high)) == TASK_GATE {
        r, hop := DeliverToTask(gate.selector, pushed);
      } else {
        r, framed := EnterHandler(gate, pushed);
      }
    }

    /** Delivery through a task gate: a nested task, with the error code on the new
        task's stack. */
    method DeliverToTask(selector: int, pushed: Option<ErrorCode>) returns (r: Outcome, ghost hop: Hop)
      requires Valid() && U16(selector)
      modifies this
      ensures Valid()
      ensures r.Raised? && r.fault.Exception? ==> INVALID_TSS <= r.fault.vector <= PAGE_FAULT && Regs() == old(Regs())
      ensures r.Done? ==> V86Canonical()
      ensures r.Done? ==> Tasked(old(Regs()), old(mem), Regs(), mem, gdtr, selector, pushed, hop)
    {
      hide Switchable, ImageAt, OnlyAccessed, SelectorCode, BusySet, EntryAt, SameOutside, LdtFrom, Arrives, Clear,
        WithBusy, V86Canonical, Linked, Switched,
        WriteAt, Linear, Offset, Moved, InLimit, Mapped;
      ghost var trail;
      r, trail := TaskSwitch(selector, Call);
      hop := Hop(trail, Regs(), mem);
      if r.Done? && pushed.Some? {
        r := Push(pushed.value, Dword);
        if r.Raised? {
          r := Raised(AfterCommit(r.fault.vector));
        }
      }
    }

    /** Delivery is all or nothing: unless a task switch has committed, a failure
        puts the interrupted state back whole. */
    method Deliver(vector: int, code: Option<ErrorCode>, source: Source)
      returns (r: Outcome, ghost framed: Memory, ghost hop: Hop)
      requires Valid() && 0 <= vector < 0x100
      modifies this
      ensures Valid()
      ensures r.Raised? && r.fault.Exception? ==> Nestable(r.fault.vector) && Regs() == old(Regs())
      ensures r.Done? ==> V86Canonical()
      ensures Refused(old(mem), idtr, vector, source, old(cpl)) ==>
        r == PageFault(false) || r == Raised(Refusal(old(mem), idtr, vector, source, old(cpl)))
      ensures r.Done? && !IsTaskGate(old(mem), idtr, vector) ==>
        var gate := GateAt(old(mem), idtr, vector);
        && Entered(old(Regs()), Regs(), gate, PushedCode(vector, code, source), old(TargetLevel(gate.selector)),
                   framed, absent)
        && (mem == framed || MarkedAccessed(framed, mem, TableOf(gate.selector).base + Index(gate.selector)))
      ensures r.Done? && IsTaskGate(old(mem), idtr, vector) ==>
        Tasked(old(Regs()), old(mem), Regs(), mem, gdtr, GateAt(old(mem), idtr, vector).selector,
               PushedCode(vector, code, source), hop)
      ensures r.Raised? && r.fault.Exception? && r.fault.vector == ALIGNMENT_CHECK ==>
        && Checked(alignmentMask, old(Regs()))
        && LevelIn(old(mem), gdtr, old(ldtr), GateAt(old(mem), idtr, vector).selector) == 3
      ensures Trapped(old(Regs()), old(mem), idtr, gdtr, absent, alignmentMask, vector, source) ==>
        r == AlignmentFault() && mem == old(mem)
    {
      hide Entered, MarkedAccessed, Index, InLdt, TargetLevel, TableOf, GateAt, IsTaskGate, Refused, Refusal,
        V86Canonical, Tasked;
      var entryCpl, entryFlags, entryEsp, entrySeg := cpl, flags, gpr[ESP], seg;
      r, framed, hop := DeliverBody(vector, code, source);
      if r.Raised? && r.fault.Exception? {
        cpl, flags := entryCpl, entryFlags;
        gpr := gpr[ESP := entryEsp];
        seg := seg[SS := entrySeg[SS]][DS := entrySeg[DS]][ES := entrySeg[ES]][FS := entrySeg[FS]][GS := entrySeg[GS]];
        assert seg == entrySeg;
      }
    }

    // ----- Escalation ----------------------------------------------------------

    /** One delivery, with what it started from and what it did. */
    method DeliverNext(vector: int, code: Option<ErrorCode>, source: Source) returns (r: Outcome, ghost last: Last)
      requires Valid() && 0 <= vector < 0x100
      modifies this
      ensures Valid()
      ensures r.Raised? && r.fault.Exception? ==> Nestable(r.fault.vector) && Regs() == old(Regs())
      ensures r.Done? ==> V86Canonical()
      ensures r.Raised? && r.fault.Exception? && r.fault.vector == ALIGNMENT_CHECK ==>
        Checked(alignmentMask, old(Regs()))
      ensures Trapped(old(Regs()), old(mem), idtr, gdtr, absent, alignmentMask, vector, source) ==>
        r == AlignmentFault() && mem == old(mem)
      ensures last.mem == old(mem) && last.code == code
      ensures Refused(old(mem), idtr, vector, source, old(cpl)) ==>
        r == PageFault(false) || r == Raised(Refusal(old(mem), idtr, vector, source, old(cpl)))
      ensures r.Done? ==> Handled(old(Regs()), Regs(), mem, idtr, gdtr, vector, source, absent, last)
    {
      hide Entered, MarkedAccessed, Index, InLdt, GateAt, IsTaskGate, Refused, Refusal, V86Canonical, Tasked, TableIn,
        LevelIn, PushedCode, Trapped;
      ghost var start := mem;
      ghost var framed, hop;
      r, framed, hop := Deliver(vector, code, source);
      last := Last(start, code, framed, hop);
      if r.Done? && !IsTaskGate(start, idtr, vector) {
        ghost var gate := GateAt(start, idtr, vector);
        EnteredKeepsLdt(old(Regs()), Regs(), gate, PushedCode(vector, code, source), old(TargetLevel(gate.selector)),
                        framed, absent);
      }
    }

    /** What follows a delivery that failed: the fault it raised is delivered in its
        turn, or a double fault is, until a handler is entered, the double fault's
        own delivery fails or the cap is reached. `nested` lists the faults in the
        order they were raised and delivered from. */
    method Escalate(attempt: Outcome, original: int, external: bool)
      returns (e: Ending, ghost nested: seq<int>, ghost last: Last)
      requires Valid() && 0 <= original < 0x100
      requires attempt.Raised? && attempt.fault.Exception? ==> Nestable(attempt.fault.vector)
      requires attempt.Done? ==> V86Canonical()
      modifies this
      ensures Valid()
      ensures |nested| <= MAX_FAULT_ESCALATIONS && forall n :: n in nested ==> Nestable(n)
      ensures ALIGNMENT_CHECK !in nested ==> |nested| <= 3
      ensures !Checked(alignmentMask, old(Regs())) && !IsAlignmentCheck(attempt) ==> ALIGNMENT_CHECK !in nested
      ensures forall k :: 0 <= k < |nested| ==> !EndsChain(original, external, nested[..k])
      ensures e.Delivered? ==> V86Canonical()
      ensures attempt.Done? ==> e.Delivered? && nested == [] && Regs() == old(Regs()) && mem == old(mem)
      ensures e.Delivered? && nested == [] ==> attempt.Done?
      ensures attempt.Raised? && attempt.fault.AfterCommit? ==> e == Stopped(attempt.fault.vector) && nested == []
      ensures e.TripleFault? ==> e.original == original && Regs() == old(Regs())
      ensures e.TripleFault? ==> EndsChain(original, external, nested) || |nested| == MAX_FAULT_ESCALATIONS
      ensures e.Delivered? && nested != [] ==>
        Handled(old(Regs()), Regs(), mem, idtr, gdtr, Chain(original, external, nested), Trap, absent, last)
      ensures e.Delivered? && nested != [] && EndsChain(original, external, nested) ==> last.code == Some(0)
      ensures attempt == AlignmentFault()
              && Trapped(old(Regs()), old(mem), idtr, gdtr, absent, alignmentMask, ALIGNMENT_CHECK, Trap)
              && (original != DOUBLE_FAULT || external) ==>
        e == TripleFault(original, ALIGNMENT_CHECK) && |nested| == MAX_FAULT_ESCALATIONS && AllAlignment(nested)
    {
      hide OnTrack, V86Canonical, Entered, MarkedAccessed, TargetLevel, GateAt, IsTaskGate, Refused, Refusal,
        FaultClassOf, EscalateFault, EndsChain,
        Handled, Tasked, Chain, TableOf, Index, PushedCode, Trapped, Checked;
      ghost var stuck := attempt == AlignmentFault() && (original != DOUBLE_FAULT || external)
        && Trapped(Regs(), mem, idtr, gdtr, absent, alignmentMask, ALIGNMENT_CHECK, Trap);
      var now, vector := attempt, original;
      var category := FaultClassOf(original, external);
      var callingDoubleFault := original == DOUBLE_FAULT && !external;
      var escalations := 0;
      nested, last := [], Last(mem, None, mem, Hop(Trail(mem, mem, mem), Regs(), mem));
      StartsOnTrack(original, external);
      while now.Raised?
        invariant Valid() && 0 <= vector < 0x100
        invariant now.Raised? && now.fault.Exception? ==>
          Nestable(now.fault.vector) && Regs() == old(Regs())
        invariant now.Done? ==> V86Canonical()
        invariant now.Done? && nested != [] ==>
          Handled(old(Regs()), Regs(), mem, idtr, gdtr, vector, Trap, absent, last)
        invariant nested != [] && callingDoubleFault ==> last.code == Some(0)
        invariant nested == [] ==> now == attempt && Regs() == old(Regs()) && mem == old(mem)
        invariant nested != [] ==> attempt.Raised? && attempt.fault.Exception?
        invariant category == FaultClassOf(vector, external && nested == [])
                  && escalations == |nested| <= MAX_FAULT_ESCALATIONS
        invariant OnTrack(original, external, nested, vector, callingDoubleFault)
        invariant !Checked(alignmentMask, old(Regs())) && !IsAlignmentCheck(attempt) ==>
          ALIGNMENT_CHECK !in nested && !IsAlignmentCheck(now)
        invariant stuck ==>
          now == AlignmentFault() && !callingDoubleFault && AllAlignment(nested)
          && Regs() == old(Regs()) && mem == old(mem)
        decreases MAX_FAULT_ESCALATIONS - |nested|, now.Raised?
      {
        TrackMeans(original, external, nested, vector, callingDoubleFault);
        if now.fault.AfterCommit? {
          return Stopped(now.fault.vector), nested, last;
        }
        if callingDoubleFault || escalations == MAX_FAULT_ESCALATIONS {
          return TripleFault(original, now.fault.vector), nested, last;
        }
        escalations := escalations + 1;
        var code := now.fault.code;
        StaysOnTrack(original, external, nested, vector, now.fault.vector);
        AlignmentIsSerial(category);
        nested := nested + [now.fault.vector];
        if EscalateFault(category, FaultClassOf(now.fault.vector, false)).Serial? {
          vector := now.fault.vector;
        } else {
          callingDoubleFault, vector, code := true, DOUBLE_FAULT, Some(0);
        }
        category := FaultClassOf(vector, false);
        now, last := DeliverNext(vector, code, Trap);
      }
      TrackMeans(original, external, nested, vector, callingDoubleFault);
      return Delivered, nested, last;
    }

    /** An exception or an external interrupt as the core takes it: one delivery,
        then the escalation. */
    method TakeEvent(vector: int, code: Option<ErrorCode>, external: bool)
      returns (e: Ending, ghost nested: seq<int>, ghost last: Last)
      requires Valid() && 0 <= vector < 0x100
      modifies this
      ensures Valid() && |nested| <= MAX_FAULT_ESCALATIONS && forall n :: n in nested ==> Nestable(n)
      ensures !Checked(alignmentMask, old(Regs())) ==> |nested| <= 3 && ALIGNMENT_CHECK !in nested
      ensures forall k :: 0 <= k < |nested| ==> !EndsChain(vector, external, nested[..k])
      ensures e.Delivered? ==> V86Canonical()
      ensures e.TripleFault? ==> e.original == vector && Regs() == old(Regs())
      ensures e.TripleFault? ==> EndsChain(vector, external, nested) || |nested| == MAX_FAULT_ESCALATIONS
      ensures e.Delivered? ==>
        Handled(old(Regs()), Regs(), mem, idtr, gdtr, Chain(vector, external, nested),
                if nested == [] && external then External else Trap, absent, last)
      ensures e.Delivered? && nested == [] ==> last.mem == old(mem) && last.code == code
      ensures
        && Trapped(old(Regs()), old(mem), idtr, gdtr, absent, alignmentMask, vector,
                   if external then External else Trap)
        && Trapped(old(Regs()), old(mem), idtr, gdtr, absent, alignmentMask, ALIGNMENT_CHECK, Trap)
        && (vector != DOUBLE_FAULT || external)
        ==> e == TripleFault(vector, ALIGNMENT_CHECK) && |nested| == MAX_FAULT_ESCALATIONS && AllAlignment(nested)
    {
      hide EndsChain, V86Canonical, Handled, Trapped, Checked;
      var attempt;
      ghost var first;
      attempt, first := DeliverNext(vector, code, if external then External else Trap);
      e, nested, last := Escalate(attempt, vector, external);
      if nested == [] { last := first; }
    }

    /** INT n, with EIP already past it and `start` the instruction itself. It is
        delivered once. If that faults, the instruction is put back and the fault is
        an exception of its own, with an escalation of its own. `nested` starts with
        that fault. */
    method TakeInt(vector: int, start: int) returns (e: Ending, ghost nested: seq<int>, ghost last: Last)
      requires Valid() && 0 <= vector < 0x100 && U32(start)
      modifies this
      ensures Valid() && |nested| <= MAX_FAULT_ESCALATIONS + 1 && forall n :: n in nested ==> Nestable(n)
      ensures !Checked(alignmentMask, old(Regs())) ==> |nested| <= 3 && ALIGNMENT_CHECK !in nested
      ensures forall k :: 1 <= k < |nested| ==> !EndsChain(nested[0], false, nested[1..k])
      ensures e.Delivered? ==> V86Canonical()
      ensures e.TripleFault? ==> nested != [] && e.original == nested[0] && Regs() == old(Regs()).(eip := start)
      ensures e.TripleFault? ==> EndsChain(nested[0], false, nested[1..]) || |nested| == MAX_FAULT_ESCALATIONS + 1
      ensures Refused(old(mem), idtr, vector, SoftwareInterrupt, old(cpl)) ==>
        nested != [] && (nested[0] == PAGE_FAULT
                        || nested[0] == Refusal(old(mem), idtr, vector, SoftwareInterrupt, old(cpl)).vector)
      ensures e.Delivered? && nested == [] ==>
        && Handled(old(Regs()), Regs(), mem, idtr, gdtr, vector, SoftwareInterrupt, absent, last)
        && last.mem == old(mem) && last.code == None
      ensures e.Delivered? && nested != [] ==>
        Handled(old(Regs()).(eip := start), Regs(), mem, idtr, gdtr, Chain(nested[0], false, nested[1..]), Trap,
                absent, last)
      ensures
        && Trapped(old(Regs()), old(mem), idtr, gdtr, absent, alignmentMask, vector, SoftwareInterrupt)
        && Trapped(old(Regs()), old(mem), idtr, gdtr, absent, alignmentMask, ALIGNMENT_CHECK, Trap)
        ==> e == TripleFault(ALIGNMENT_CHECK, ALIGNMENT_CHECK) && |nested| == MAX_FAULT_ESCALATIONS + 1
            && AllAlignment(nested)
    {
      hide EndsChain, V86Canonical, Handled, Trapped, Checked, Refused, Chain;
      var attempt;
      attempt, last := DeliverNext(vector, None, SoftwareInterrupt);
      nested := [];
      if attempt.Done? {
        return Delivered, nested, last;
      }
      if attempt.fault.AfterCommit? {
        return Stopped(attempt.fault.vector), nested, last;
      }
      eip := start;
      SameElsewhere(old(Regs()), Regs(), mem, idtr, gdtr, absent, alignmentMask);
      ghost var rest;
      e, rest, last := TakeEvent(attempt.fault.vector, attempt.fault.code, false);
      nested := [attempt.fault.vector] + rest;
      assert nested[1..] == rest && forall k :: 1 <= k < |nested| ==> nested[1..k] == rest[..k - 1];
      AfterFault(attempt.fault.vector, rest);
    }

    // ----- IRET ----------------------------------------------------------------

    /** Three pops in a row. */
    method PopThree(size: Size, ghost shown: seq<int>) returns (r: Outcome, a: int, b: int, c: int)
      requires Valid() && Shows(mem, absent, seg[SS], gpr[ESP], size, shown)
      modifies `gpr
      ensures Valid() && U32(a) && U32(b) && U32(c) && (size.Word? ==> U16(a) && U16(b) && U16(c))
      ensures gpr == old(gpr)[ESP := gpr[ESP]]
      ensures r.Raised? ==> r.fault.Exception? && r.fault.vector in {PAGE_FAULT, STACK_FAULT, ALIGNMENT_CHECK}
      ensures r.Done? ==> Shows(mem, absent, seg[SS], gpr[ESP], size, Rest(Rest(Rest(shown))))
      ensures |shown| >= 3 && Readable(seg[SS].access) && !Armed() ==> r.Done?
      ensures |shown| >= 3 && r.Done? ==> a == shown[0] && b == shown[1] && c == shown[2]
    {
      hide Shows, ReadAt, Linear, Offset, Moved, Readable;
      a, b, c := 0, 0, 0;
      r, a := Pop(size, shown);
      if r.Raised? { return; }
      r, b := Pop(size, Rest(shown));
      if r.Raised? { return; }
      r, c := Pop(size, Rest(Rest(shown)));
    }

    /** The return into a V86 task: the rest of the frame, then 8086-style segments. */
    method ReturnToV86(ip: int, cs: int, image: int, ghost frame: seq<int>) returns (r: Outcome)
      requires Valid() && U16(cs) && 0 <= ip <= 0xffff && U32(image) && FlagsOf(image).vm && cpl == 0
      requires Shows(mem, absent, seg[SS], gpr[ESP], Dword, frame)
      modifies `gpr, `seg, `eip, `flags, `cpl
      ensures Valid() && (r.Done? ==> V86Canonical())
      ensures r.Raised? ==> r.fault.Exception? && Regs() == old(Regs()).(gpr := old(gpr)[ESP := gpr[ESP]])
      ensures |frame| >= 6 && Readable(old(seg[SS].access)) ==> r.Done? && gpr == old(gpr)[ESP := frame[0]]
      ensures |frame| >= 6 && r.Done? ==>
        && seg[SS] == Real(Low(frame[1])) && seg[ES] == Real(Low(frame[2])) && seg[DS] == Real(Low(frame[3]))
        && seg[FS] == Real(Low(frame[4])) && seg[GS] == Real(Low(frame[5]))
      ensures r.Done? ==> eip == ip && cpl == 3 && seg[CS] == Real(cs)
      ensures r.Done? ==> flags == LoadFlags(old(flags), FlagsOf(image), Dword, 0, true, persona)
    {
      hide Shows, Readable, FlagsOf, Low, Real, LoadFlags;
      var esp, ss, es, ds, fs, gs;
      r, esp, ss, es := PopThree(Dword, frame);
      if r.Raised? { return; }
      r, ds, fs, gs := PopThree(Dword, Rest(Rest(Rest(frame))));
      if r.Raised? { return; }
      LowWord(ss); LowWord(es); LowWord(ds); LowWord(fs); LowWord(gs);
      ResumeV86(esp, ip, [Low(es), cs, Low(ss), Low(ds), Low(fs), Low(gs)], image);
    }

    /** The last step of that return: every register of the V86 task at once. */
    method ResumeV86(esp: int, ip: int, selectors: seq<int>, image: int)
      requires Valid() && U32(esp) && U32(ip) && U32(image) && FlagsOf(image).vm
      requires |selectors| == 6 && forall k :: 0 <= k < 6 ==> U16(selectors[k])
      modifies `gpr, `seg, `eip, `flags, `cpl
      ensures Valid() && V86Canonical() && eip == ip && cpl == 3 && gpr == old(gpr)[ESP := esp]
      ensures forall k :: 0 <= k < 6 ==> seg[k] == Real(selectors[k])
      ensures flags == LoadFlags(old(flags), FlagsOf(image), Dword, 0, true, persona)
    {
      hide FlagsOf, Real, LoadFlags;
      FlagsOfWf(image);
      LoadFlagsWf(flags, FlagsOf(image), Dword, 0, true, persona);
      flags := LoadFlags(flags, FlagsOf(image), Dword, 0, true, persona);
      seg := RealSegments(selectors);
      eip := ip;
      gpr := gpr[ESP := esp];
      cpl := 3;
    }

    /** The return at the same level, or within V86 mode. */
    method ReturnSame(size: Size, ip: int, cs: int, image: int) returns (r: Outcome)
      requires Valid() && U16(cs) && U32(ip) && U32(image)
      modifies `mem, `seg, `eip, `flags, `cpl
      ensures Valid()
      ensures r.Raised? ==> r.fault.Exception? && Regs() == old(Regs())
      ensures r.Done? ==> eip == ip && seg == old(seg)[CS := seg[CS]] && seg[CS].selector == cs
      ensures r.Done? ==> flags == LoadFlags(old(flags), FlagsOf(image), size, old(cpl), false, persona)
      ensures r.Done? ==> cpl == if size.Dword? then old(cpl) else if old(flags.vm) then 3 else Rpl(cs)
      ensures old(V86Canonical()) ==> V86Canonical()
    {
      hide FlagsOf, MarkedAccessed, Index, InLdt, CodeOrData, Writable, TableOf;
      r := LoadSegment(CS, cs, true);
      if r.Raised? { return; }
      eip := ip;
      FlagsOfWf(image);
      LoadFlagsWf(flags, FlagsOf(image), size, cpl, false, persona);
      flags := LoadFlags(flags, FlagsOf(image), size, cpl, false, persona);
      if size.Word? {
        cpl := if flags.vm then 3 else Rpl(cs);
      }
    }

    /** Null the data segments the new level may not use. */
    method InvalidateDataSegments()
      requires Valid()
      modifies `seg
      ensures Valid() && seg[CS] == old(seg[CS]) && seg[SS] == old(seg[SS])
      ensures forall k :: k in [DS, ES, FS, GS] ==> seg[k] == Usable(old(seg[k]), cpl)
    {
      hide Usable;
      var list := [DS, ES, FS, GS];
      for i := 0 to 4
        invariant Valid() && seg[CS] == old(seg[CS]) && seg[SS] == old(seg[SS])
        invariant forall j :: 0 <= j < 4 ==>
          seg[list[j]] == if j < i then Usable(old(seg[list[j]]), cpl) else old(seg[list[j]])
      {
        UsableWf(seg[list[i]], cpl);
        seg := seg[list[i] := Usable(seg[list[i]], cpl)];
      }
    }

    /** The code and stack segments of an outer level. */
    method LoadOuter(cs: int, ss: int) returns (r: Outcome)
      requires Valid() && U16(cs) && U16(ss) && !flags.vm
      modifies `mem, `seg
      ensures Valid() && (r.Raised? ==> r.fault.Exception?)
      ensures r.Raised? ==>
        seg == old(seg) || seg == old(seg)[CS := EntryAt(old(mem), TableOf(cs).base + Index(cs), cs)]
      ensures r.Done? ==>
        seg == old(seg)[CS := seg[CS]][SS := seg[SS]] && seg[CS].selector == cs && seg[SS].selector == ss
    {
      hide MarkedAccessed, Index, InLdt, CodeOrData, Writable, TableOf, EntryAt;
      r := LoadSegment(CS, cs, true);
      if r.Raised? { return; }
      r := LoadSegment(SS, ss, false);
    }

    /** The return to an outer level: its stack comes off the frame too. */
    method ReturnOuter(size: Size, ip: int, cs: int, image: int, ghost frame: seq<int>) returns (r: Outcome)
      requires Valid() && !flags.vm && U16(cs) && U32(ip) && U32(image)
      requires Shows(mem, absent, seg[SS], gpr[ESP], size, frame)
      modifies `mem, `gpr, `seg, `eip, `flags, `cpl
      ensures Valid() && gpr == old(gpr)[ESP := gpr[ESP]]
      ensures r.Raised? ==>
        && r.fault.Exception? && eip == old(eip) && flags == old(flags) && cpl == old(cpl)
        && (seg == old(seg) || seg == old(seg)[CS := EntryAt(old(mem), TableOf(cs).base + Index(cs), cs)])
      ensures r.Done? ==> eip == ip && seg[CS].selector == cs && cpl == Rpl(cs) && !flags.vm
      ensures r.Done? ==> flags == LoadFlags(old(flags), FlagsOf(image), size, old(cpl), false, persona)
      ensures r.Done? ==> forall k :: k in [DS, ES, FS, GS] ==> seg[k] == Usable(old(seg[k]), cpl)
      ensures r.Done? && |frame| >= 2 ==> seg[SS].selector == Low(frame[1])
      ensures r.Done? && |frame| >= 2 ==>
        var inner := Moved(old(seg[SS]), Moved(old(seg[SS]), old(gpr[ESP]), size.Bytes()), size.Bytes());
        gpr[ESP] == StackPointer(seg[SS].big, inner, frame[0])
    {
      hide FlagsOf, MarkedAccessed, Index, InLdt, CodeOrData, Writable, TableOf, Shows, ReadAt, Linear, Offset, Moved,
        Readable, Low, StackPointer, Usable, LoadFlags, Rpl, SelectorCode, EntryAt;
      var esp, ss;
      r, esp := Pop(size, frame);
      if r.Raised? { return; }
      r, ss := Pop(size, Rest(frame));
      if r.Raised? { return; }
      LowWord(ss);
      ss := Low(ss);
      if size.Word? && Rpl(ss) != Rpl(cs) {
        return BadSelector(ss);
      }
      r := LoadOuter(cs, ss);
      if r.Raised? { return; }
      ResumeOuter(size, ip, cs, image, esp);
    }

    /** The last step of that return, with CS and SS in: EIP, the stack pointer, the
        flags, the level and what is left of the data segments. */
    method ResumeOuter(size: Size, ip: int, cs: int, image: int, esp: int)
      requires Valid() && !flags.vm && U16(cs) && U32(ip) && U32(image) && U32(esp)
      modifies `gpr, `seg, `eip, `flags, `cpl
      ensures Valid() && seg[CS] == old(seg[CS]) && seg[SS] == old(seg[SS])
      ensures eip == ip && cpl == Rpl(cs) && !flags.vm
              && gpr == old(gpr)[ESP := StackPointer(seg[SS].big, old(gpr[ESP]), esp)]
      ensures flags == LoadFlags(old(flags), FlagsOf(image), size, old(cpl), false, persona)
      ensures forall k :: k in [DS, ES, FS, GS] ==> seg[k] == Usable(old(seg[k]), cpl)
    {
      hide FlagsOf, StackPointer, Usable, Rpl;
      eip := ip;
      StackPointerWf(seg[SS].big, gpr[ESP], esp);
      gpr := gpr[ESP := StackPointer(seg[SS].big, gpr[ESP], esp)];
      FlagsOfWf(image);
      LoadFlagsWf(flags, FlagsOf(image), size, cpl, false, persona);
      flags := LoadFlags(flags, FlagsOf(image), size, cpl, false, persona);
      RplRange(cs);
      cpl := Rpl(cs);
      InvalidateDataSegments();
    }

    method IretBody(size: Size, ghost frame: seq<int>) returns (r: Outcome, ghost trail: Trail)
      requires Valid() && Shows(mem, absent, seg[SS], gpr[ESP], size, frame)
      modifies this
      ensures Valid()
      ensures !old(TaskReturn()) ==>
        && tr == old(tr) && ldtr == old(ldtr) && switched == old(switched)
        && (r.Raised? ==>
              && r.fault.Exception? && gpr == old(gpr)[ESP := gpr[ESP]] && eip == old(eip)
              && flags == old(flags) && cpl == old(cpl)
              && (seg == old(seg) || OuterCode(old(Regs()), old(mem), gdtr, seg)))
      ensures r.Done? && old(V86Canonical()) ==> V86Canonical()
      ensures !old(TaskReturn()) && |frame| >= 9 && old(IntoV86(size, frame)) && Readable(old(seg[SS].access)) ==>
        if frame[0] <= 0xffff then r.Done? && BackInV86(old(Regs()), Regs(), frame, persona) && mem == old(mem)
        else r == Raised(Exception(GENERAL_PROTECTION, Some(0))) && mem == old(mem)
      ensures !old(TaskReturn()) && |frame| >= 5 && !old(IntoV86(size, frame)) && r.Done? ==>
        && eip == frame[0] && seg[CS].selector == Low(frame[1])
        && flags == LoadFlags(old(flags), FlagsOf(frame[2]), size, old(cpl), false, persona)
        && (!old(flags.vm) && Rpl(Low(frame[1])) > old(cpl) ==>
              seg[SS].selector == Low(frame[4]) && cpl == Rpl(Low(frame[1])))
      ensures old(TaskReturn()) && r.Raised? && r.fault.Exception? ==>
        && Regs() == (if LinkAccepted(old(mem), absent, gdtr, old(tr))
                      then old(Regs()).(flags := Outgoing(old(flags), Return))
                      else old(Regs()))
        && SameOutside(old(mem), mem, old(tr.base) + 32, old(tr.base) + 98)
        && (Switchable(old(mem), gdtr, Read16(old(mem), old(tr.base)), Return) ==> r.fault.vector == PAGE_FAULT)
      ensures old(TaskReturn()) ==>
        (r.Raised? && r.fault.Exception? <==>
         !LinkAccepted(old(mem), absent, gdtr, old(tr)) || Blocked(absent, gdtr, old(tr), Return))
      ensures old(TaskReturn()) && r.Done? ==>
        Switched(old(Regs()), old(mem), Regs(), mem, gdtr, Read16(old(mem), old(tr.base)), Return, trail)
    {
      hide FlagsOf, Shows, Moved, Readable, Low, StackPointer, Usable, LoadFlags, Rpl, Real, Switched, Switchable,
        Read16, SameOutside, SelectorCode, Rest, LinkAccepted, Blocked, EntryAt, Index;
      trail := Trail(mem, mem, mem);
      if TaskReturn() {
        r, trail := ReturnToTask();
        return;
      }
      var ip, cs, image;
      r, ip, cs, image := PopThree(size, frame);
      if r.Raised? { return; }
      ghost var tail := Rest(Rest(Rest(frame)));
      RestOfThree(frame);
      LowWord(cs);
      cs := Low(cs);
      if size.Dword? && cpl == 0 && FlagsOf(image).vm {
        if ip > 0xffff {
          return Raised(Exception(GENERAL_PROTECTION, Some(0))), trail;
        }
        r := ReturnToV86(ip, cs, image, tail);
      } else if !flags.vm && Rpl(cs) > cpl {
        EntrySelector(mem, TableOf(cs).base + Index(cs), cs);
        r := ReturnOuter(size, ip, cs, image, tail);
      } else {
        r := ReturnSame(size, ip, cs, image);
      }
    }

    /** IRET. A failure puts the stack pointer back, so the instruction can be
        restarted, with two things left of it. A return to an outer level whose stack
        segment is refused has CS in already. And a return to another task clears NT
        once the back-link is accepted: if recording the outgoing task then meets an
        absent page, NT stays clear, and what is restarted is a return from a stack
        frame. */
    method Iret(size: Size, ghost frame: seq<int>) returns (r: Outcome, ghost trail: Trail)
      requires Valid() && Shows(mem, absent, seg[SS], gpr[ESP], size, frame)
      modifies this
      ensures Valid()
      ensures r.Raised? ==> gpr[ESP] == old(gpr[ESP])
      ensures r.Raised? && r.fault.Exception? ==>
        && gpr == old(gpr) && eip == old(eip) && cpl == old(cpl) && tr == old(tr) && ldtr == old(ldtr)
        && (seg == old(seg) || (!old(TaskReturn()) && OuterCode(old(Regs()), old(mem), gdtr, seg)))
        && (flags == old(flags) <==> !(old(TaskReturn()) && LinkAccepted(old(mem), absent, gdtr, old(tr))))
        && (flags != old(flags) ==> flags == old(flags).(nested := false))
      ensures old(TaskReturn()) ==>
        (r.Raised? && r.fault.Exception? <==>
         !LinkAccepted(old(mem), absent, gdtr, old(tr)) || Blocked(absent, gdtr, old(tr), Return))
      ensures r.Done? && old(V86Canonical()) ==> V86Canonical()
      ensures !old(TaskReturn()) && |frame| >= 9 && old(IntoV86(size, frame)) && Readable(old(seg[SS].access)) ==>
        if frame[0] <= 0xffff then r.Done? && BackInV86(old(Regs()), Regs(), frame, persona) && mem == old(mem)
        else r == Raised(Exception(GENERAL_PROTECTION, Some(0))) && mem == old(mem)
      ensures !old(TaskReturn()) && |frame| >= 5 && !old(IntoV86(size, frame)) && r.Done? ==>
        && eip == frame[0] && seg[CS].selector == Low(frame[1])
        && flags == LoadFlags(old(flags), FlagsOf(frame[2]), size, old(cpl), false, persona)
        && (!old(flags.vm) && Rpl(Low(frame[1])) > old(cpl) ==>
              seg[SS].selector == Low(frame[4]) && cpl == Rpl(Low(frame[1])))
      ensures old(TaskReturn()) && r.Raised? && r.fault.Exception? ==>
        && SameOutside(old(mem), mem, old(tr.base) + 32, old(tr.base) + 98)
        && (Switchable(old(mem), gdtr, Read16(old(mem), old(tr.base)), Return) ==> r.fault.vector == PAGE_FAULT)
      ensures old(TaskReturn()) && r.Done? ==>
        Switched(old(Regs()), old(mem), Regs(), mem, gdtr, Read16(old(mem), old(tr.base)), Return, trail)
    {
      hide FlagsOf, Shows, Readable, Low, LoadFlags, Rpl, Switched, Switchable, Read16, SameOutside, V86Canonical,
        BackInV86, IntoV86, LinkAccepted, Blocked, OuterCode;
      var esp := gpr[ESP];
      r, trail := IretBody(size, frame);
      if r.Raised? {
        gpr := gpr[ESP := esp];
      }
    }

    /** The return from a nested task, through the back-link of the current TSS. */
    method ReturnToTask() returns (r: Outcome, ghost trail: Trail)
      requires Valid()
      modifies this
      ensures Valid() && (r.Done? ==> V86Canonical())
      ensures !Switchable(old(mem), gdtr, Read16(old(mem), old(tr.base)), Return) ==>
        && r.Raised? && r.fault.Exception? && Regs() == old(Regs()) && mem == old(mem)
        && (r == PageFault(false) || r == BadTask(Read16(old(mem), old(tr.base)), Return))
      ensures r.Raised? && r.fault.Exception? ==>
        && Regs() == (if LinkAccepted(old(mem), absent, gdtr, old(tr))
                      then old(Regs()).(flags := Outgoing(old(flags), Return))
                      else old(Regs()))
        && SameOutside(old(mem), mem, old(tr.base) + 32, old(tr.base) + 98)
      ensures r.Raised? && r.fault.Exception? <==>
        !LinkAccepted(old(mem), absent, gdtr, old(tr)) || Blocked(absent, gdtr, old(tr), Return)
      ensures Switchable(old(mem), gdtr, Read16(old(mem), old(tr.base)), Return) && r.Raised? && r.fault.Exception? ==>
        r.fault.vector == PAGE_FAULT
      ensures r.Done? ==>
        Switched(old(Regs()), old(mem), Regs(), mem, gdtr, Read16(old(mem), old(tr.base)), Return, trail)
    {
      hide Switched, Switchable, Read16, SameOutside, V86Canonical, Blocked;
      var link;
      trail := Trail(mem, mem, mem);
      SameOutsideItself(mem, tr.base + 32, tr.base + 98);
      r, link := ReadSystem16(tr.base);
      if r.Raised? { return; }
      r, trail := TaskSwitch(link, Return);
    }

    /** NT set outside V86 mode: this IRET ends a nested task. */
    predicate TaskReturn()
      reads `flags
    {
      !flags.vm && flags.nested
    }

    ghost predicate IntoV86(size: Size, frame: seq<int>)
      requires |frame| >= 3
      reads `cpl
    {
      size.Dword? && cpl == 0 && FlagsOf(frame[2]).vm
    }

    // ----- Hardware task switch ------------------------------------------------

    /** The running task as its TSS would record it. */
    ghost function Current(): TaskImage
      reads this
    {
      ImageOf(Regs())
    }

    method WriteSystem32(a: int, v: int) returns (r: Outcome)
      requires U32(v)
      modifies `mem
      ensures r == if Gone(a) then PageFault(true) else Done
      ensures r.Raised? ==> mem == old(mem)
      ensures r.Done? ==> Read32(mem, a) == v
      ensures SameOutside(old(mem), mem, a, a + 4)
    {
      if Gone(a) { return PageFault(true); }
      Written32(mem, a, v);
      mem := Write32(mem, a, v);
      return Done;
    }

    method WriteSystem16(a: int, v: int) returns (r: Outcome)
      requires U16(v)
      modifies `mem
      ensures r == if Gone(a) then PageFault(true) else Done
      ensures r.Raised? ==> mem == old(mem)
      ensures r.Done? ==> mem == Write16(old(mem), a, v) && Read16(mem, a) == v
      ensures SameOutside(old(mem), mem, a, a + 2)
    {
      if Gone(a) { return PageFault(true); }
      Written16(mem, a, v);
      mem := Write16(mem, a, v);
      return Done;
    }

    method SaveRegisters(base: int) returns (r: Outcome)
      requires Valid()
      modifies `mem
      ensures r.Raised? ==> r == PageFault(true)
      ensures r.Done? ==> forall k :: 0 <= k < 8 ==> Read32(mem, base + 40 + 4 * k) == gpr[k]
      ensures SameOutside(old(mem), mem, base + 40, base + 72)
      ensures r.Done? <==> SaveMapped(absent, base, 10, 18)
    {
      for i := 0 to 8
        invariant SaveMapped(absent, base, 10, 10 + i)
        invariant forall k :: 0 <= k < i ==> Read32(mem, base + 40 + 4 * k) == gpr[k]
        invariant SameOutside(old(mem), mem, base + 40, base + 72)
      {
        ghost var before := mem;
        assert base + 40 + 4 * i == base + 4 * (10 + i);
        r := WriteSystem32(base + 40 + 4 * i, gpr[i]);
        if r.Raised? { return; }
        forall k | 0 <= k < i ensures Read32(mem, base + 40 + 4 * k) == gpr[k] {
          Kept32(before, mem, base + 40 + 4 * i, base + 44 + 4 * i, base + 40 + 4 * k);
        }
      }
      r := Done;
    }

    method SaveSelectors(base: int) returns (r: Outcome)
      requires Valid()
      modifies `mem
      ensures r.Raised? ==> r == PageFault(true)
      ensures r.Done? ==> forall k :: 0 <= k < 6 ==> Read16(mem, base + 72 + 4 * k) == seg[k].selector
      ensures SameOutside(old(mem), mem, base + 72, base + 96)
      ensures r.Done? <==> SaveMapped(absent, base, 18, 24)
    {
      for i := 0 to 6
        invariant SaveMapped(absent, base, 18, 18 + i)
        invariant forall k :: 0 <= k < i ==> Read16(mem, base + 72 + 4 * k) == seg[k].selector
        invariant SameOutside(old(mem), mem, base + 72, base + 96)
      {
        ghost var before := mem;
        assert base + 72 + 4 * i == base + 4 * (18 + i);
        r := WriteSystem16(base + 72 + 4 * i, seg[i].selector);
        if r.Raised? { return; }
        forall k | 0 <= k < i ensures Read16(mem, base + 72 + 4 * k) == seg[k].selector {
          Kept16(before, mem, base + 72 + 4 * i, base + 74 + 4 * i, base + 72 + 4 * k);
        }
      }
      r := Done;
    }

    method SaveHead(base: int) returns (r: Outcome)
      requires Valid()
      modifies `mem
      ensures r.Raised? ==> r == PageFault(true)
      ensures SameOutside(old(mem), mem, base + 32, base + 40)
      ensures r.Done? <==> SaveMapped(absent, base, 8, 10)
      ensures r.Done? ==> Read32(mem, base + 32) == eip && Read32(mem, base + 36) == flags.Image()
    {
      ImageInRange(flags);
      assert base + 32 == base + 4 * 8 && base + 36 == base + 4 * 9;
      r := WriteSystem32(base + 32, eip);
      if r.Raised? { return; }
      ghost var a := mem;
      r := WriteSystem32(base + 36, flags.Image());
      Kept32(a, mem, base + 36, base + 40, base + 32);
    }

    /** Record the outgoing task in its TSS. */
    method SaveTaskState() returns (r: Outcome)
      requires Valid()
      modifies `mem
      ensures r.Raised? ==> r == PageFault(true)
      ensures SameOutside(old(mem), mem, tr.base + 32, tr.base + 98)
      ensures r.Done? <==> SaveMapped(absent, tr.base, 8, 25)
      ensures r.Done? ==> ImageAt(mem, tr.base) == Current()
    {
      hide SameOutside, SaveMapped;
      var base := tr.base;
      MappedParts(absent, base);
      r := SaveHead(base);
      ghost var b := mem;
      Widened(old(mem), b, base + 32, base + 40, base + 98);
      if r.Raised? { return; }
      r := SaveRegisters(base);
      ghost var c := mem;
      Joined(old(mem), b, c, base + 32, base + 40, base + 72);
      Widened(old(mem), c, base + 32, base + 72, base + 98);
      if r.Raised? { return; }
      r := SaveSelectors(base);
      ghost var d := mem;
      Joined(old(mem), c, d, base + 32, base + 72, base + 96);
      Widened(old(mem), d, base + 32, base + 96, base + 98);
      if r.Raised? { return; }
      r := WriteSystem16(base + 96, ldtr.selector);
      Joined(old(mem), d, mem, base + 32, base + 96, base + 98);
      if r.Raised? { return; }
      ImageKept(b, c, d, mem, base, gpr, Selectors(seg));
    }

    method LoadLdtr(selector: int) returns (r: Outcome)
      requires Valid() && U16(selector)
      modifies `ldtr
      ensures Valid()
      ensures r.Raised? ==>
        ldtr == old(ldtr) && r.fault.Exception? && r.fault.vector in {PAGE_FAULT, GENERAL_PROTECTION}
      ensures r.Done? ==> ldtr.selector == selector && LdtFrom(mem, gdtr, ldtr)
    {
      hide InLdt, Index, IsLdt, Access, Read32, SelectorCode;
      if InLdt(selector) {
        return BadSelector(selector);
      }
      if Index(selector) == 0 {
        ldtr := Unusable(selector);
        return Done;
      }
      var low, high;
      r, low, high := ReadDescriptor(selector);
      if r.Raised? { return; }
      if !IsLdt(Access(high)) {
        return BadSelector(selector);
      }
      AccessByte(mem, gdtr.base + Index(selector));
      DecodeWf(selector, low, high);
      ldtr := Decode(selector, low, high);
      return Done;
    }

    /** The busy bit of the GDT descriptor a selector names; null names none. */
    method SetTssBusy(selector: int, busy: bool) returns (r: Outcome)
      modifies `mem
      ensures r.Raised? ==> r.fault.Exception? && r.fault.vector == PAGE_FAULT && mem == old(mem)
      ensures r.Done? <==> BusyMapped(absent, gdtr, selector)
      ensures r.Done? ==> mem == BusySet(old(mem), gdtr, selector, busy)
    {
      if Index(selector) == 0 {
        return Done;
      }
      var at := gdtr.base + Index(selector) + 5;
      if Gone(at) { return PageFault(false); }
      mem := Write8(mem, at, WithBusy(Byte(mem, at), busy));
      return Done;
    }

    method LoadRegisters(base: int) returns (r: Outcome)
      requires Valid()
      modifies `gpr
      ensures Valid() && (r.Raised? ==> r == PageFault(false))
      ensures r.Done? ==> gpr == ImageAt(mem, base).gpr
    {
      for i := 0 to 8
        invariant Valid()
        invariant forall k :: 0 <= k < i ==> gpr[k] == Read32(mem, base + 40 + 4 * k)
      {
        var v;
        r, v := ReadSystem32(base + 40 + 4 * i);
        if r.Raised? { return; }
        gpr := gpr[i := v];
      }
      r := Done;
    }

    /** Reload one segment register of the incoming task. */
    method LoadSelector(i: int, base: int) returns (r: Outcome)
      requires Valid() && 0 <= i < 6
      modifies `mem, `seg
      ensures Valid() && (r.Raised? ==> r.fault.Exception?)
      ensures seg == old(seg)[i := seg[i]]
      ensures r.Done? ==> seg[i].selector == Read16(old(mem), base + 72 + 4 * i)
      ensures r.Done? && flags.vm ==> seg[i] == Real(seg[i].selector)
      ensures OnlyAccessed(old(mem), mem, gdtr, Table(ldtr.base, ldtr.limit))
    {
      hide OnlyAccessed, InLdt, Read16, MarkedAccessed;
      NothingAccessed(mem, gdtr, Table(ldtr.base, ldtr.limit));
      var selector;
      r, selector := ReadSystem16(base + 72 + 4 * i);
      if r.Raised? { return; }
      if Index(selector) == 0 && i != CS && i != SS && !flags.vm {
        seg := seg[i := Unusable(selector)];
      } else {
        r := LoadSegment(i, selector, false);
        if mem != old(mem) {
          MarkedIsOnlyAccessed(old(mem), mem, gdtr, Table(ldtr.base, ldtr.limit), TableOf(selector), Index(selector));
        }
      }
    }

    /** Reload the six segment registers of the incoming task; the level follows
        CS. A V86 task gets 8086-style segments, a null one included. */
    method LoadSelectors(base: int) returns (r: Outcome)
      requires Valid()
      modifies `mem, `seg, `cpl
      ensures Valid() && (r.Raised? ==> r.fault.Exception?)
      ensures OnlyAccessed(old(mem), mem, gdtr, Table(ldtr.base, ldtr.limit))
      ensures r.Done? && Clear(base, gdtr) && Clear(base, Table(ldtr.base, ldtr.limit)) ==>
        Selectors(seg) == ImageAt(old(mem), base).selectors
      ensures r.Done? ==> cpl == if flags.vm then 3 else Rpl(seg[CS].selector)
      ensures r.Done? ==> V86Canonical()
    {
      ghost var ldt := Table(ldtr.base, ldtr.limit);
      ghost var clear := Clear(base, gdtr) && Clear(base, ldt);
      for i := 0 to 6
        invariant Valid() && OnlyAccessed(old(mem), mem, gdtr, ldt)
        invariant clear ==> forall k :: 0 <= k < i ==> seg[k].selector == Read16(old(mem), base + 72 + 4 * k)
        invariant flags.vm ==> forall k :: 0 <= k < i ==> seg[k] == Real(seg[k].selector)
        invariant i > CS ==> cpl == if flags.vm then 3 else Rpl(seg[CS].selector)
      {
        ghost var before := mem;
        if clear { ClearKeeps(old(mem), mem, gdtr, ldt, base, base + 72 + 4 * i); }
        r := LoadSelector(i, base);
        OnlyAccessedTwice(old(mem), before, mem, gdtr, ldt);
        if r.Raised? { return; }
        if i == CS {
          cpl := if flags.vm then 3 else Rpl(seg[CS].selector);
        }
      }
      r := Done;
    }

    /** Load the incoming task from its TSS. */
    method LoadTaskState(base: int) returns (r: Outcome)
      requires Valid()
      modifies `mem, `gpr, `seg, `eip, `flags, `cpl, `ldtr
      ensures Valid() && (r.Raised? ==> r.fault.Exception?)
      ensures OnlyAccessed(old(mem), mem, gdtr, Table(ldtr.base, ldtr.limit))
      ensures r.Done? ==> LdtFrom(old(mem), gdtr, ldtr)
      ensures r.Done? ==> V86Canonical() && flags.one
      ensures r.Done? && Clear(base, gdtr) && Clear(base, Table(ldtr.base, ldtr.limit)) ==>
        Arrives(Regs(), ImageAt(old(mem), base), Jump)
    {
      hide AccessedAt, IsLdt, Clear, FlagsOf, ImageAt, LdtFrom, Selectors, Arrives;
      NothingAccessed(mem, gdtr, Table(ldtr.base, ldtr.limit));
      var ldt, newEip, image;
      r, ldt := ReadSystem16(base + 96);
      if r.Raised? { return; }
      r := LoadLdtr(ldt);
      NothingAccessed(mem, gdtr, Table(ldtr.base, ldtr.limit));
      if r.Raised? { return; }
      r, newEip := ReadSystem32(base + 32);
      if r.Raised? { return; }
      r, image := ReadSystem32(base + 36);
      if r.Raised? { return; }
      r := LoadRegisters(base);
      if r.Raised? { return; }
      FlagsOfWf(image);
      flags := FlagsOf(image).(one := true);
      eip := newEip;
      r := LoadSelectors(base);
      if r.Done? {
        ghost var clear := Clear(base, gdtr) && Clear(base, Table(ldtr.base, ldtr.limit));
        if clear { Arrived(old(mem), base, Regs(), image); }
      }
    }

    /** The part of a task switch past the point of no return. */
    method CommitTaskSwitch(kind: Kind, tss: Segment, oldSelector: int) returns (r: Outcome, ghost loaded: Memory)
      requires Valid() && SegmentWf(tss) && U16(oldSelector)
      modifies this
      ensures Valid() && (r.Raised? ==> r.fault.Exception?)
      ensures r.Done? ==> V86Canonical() && switched && tr == tss.(access := WithBusy(tss.access, true))
      ensures r.Done? ==> LdtFrom(old(mem), gdtr, ldtr)
      ensures r.Done? ==> OnlyAccessed(old(mem), loaded, gdtr, Table(ldtr.base, ldtr.limit))
      ensures r.Done? ==> mem == BusySet(Linked(loaded, kind, tss.base, oldSelector), gdtr, tss.selector, true)
      ensures r.Done? && Clear(tss.base, gdtr) && Clear(tss.base, Table(ldtr.base, ldtr.limit)) ==>
        Arrives(Regs(), ImageAt(old(mem), tss.base), kind)
    {
      hide OnlyAccessed, LdtFrom, Clear, BusySet, Selectors, ImageAt, FlagsOf;
      r := LoadTaskState(tss.base);
      loaded := mem;
      if r.Raised? { return; }
      ghost var resumed := Regs();
      if kind.Call? {
        r := WriteSystem16(tss.base, oldSelector);
        if r.Raised? { return; }
        flags := flags.(nested := true);
      }
      r := SetTssBusy(tss.selector, true);
      if r.Raised? { return; }
      BusyAccess(tss.access);
      tr := tss.(access := WithBusy(tss.access, true));
      switched := true;
    }

    /** A hardware task switch. */
    method TaskSwitch(selector: int, kind: Kind) returns (r: Outcome, ghost trail: Trail)
      requires Valid() && U16(selector)
      modifies this
      ensures Valid()
      ensures !Switchable(old(mem), gdtr, selector, kind) ==>
        && r.Raised? && r.fault.Exception? && Regs() == old(Regs()) && mem == old(mem)
        && (r == PageFault(false) || r == BadTask(selector, kind))
      ensures Switchable(old(mem), gdtr, selector, kind) && r.Raised? && r.fault.Exception? ==>
        && r.fault.vector == PAGE_FAULT
        && Regs() == (if Accepted(old(mem), absent, gdtr, selector, kind)
                      then old(Regs()).(flags := Outgoing(old(flags), kind))
                      else old(Regs()))
        && SameOutside(old(mem), mem, old(tr.base) + 32, old(tr.base) + 98)
      ensures r.Raised? && r.fault.Exception? <==>
        !Accepted(old(mem), absent, gdtr, selector, kind) || Blocked(absent, gdtr, old(tr), kind)
      ensures r.Done? ==> V86Canonical() && Switched(old(Regs()), old(mem), Regs(), mem, gdtr, selector, kind, trail)
    {
      hide SaveMapped, BusyMapped, OnlyAccessed, LdtFrom, Clear, SameOutside, Arrives, BusySet, Selectors, ImageAt,
        EntryAt, Index, InLdt,
        WithBusy, V86Canonical;
      ghost var saved, freed, loaded := mem, mem, mem;
      trail := Trail(mem, mem, mem);
      SameOutsideItself(mem, tr.base + 32, tr.base + 98);
      if InLdt(selector) {
        return BadTask(selector, kind), trail;
      }
      if Index(selector) == 0 || Index(selector) + 7 > gdtr.limit {
        return BadTask(selector, kind), trail;
      }
      var tss;
      r, tss := ReadEntry(selector, gdtr.base + Index(selector));
      if r.Raised? { return; }
      if !Present(tss.access) || SystemType(tss.access) != Wanted(kind) {
        return BadTask(selector, kind), trail;
      }
      var oldSelector := tr.selector;
      flags := Outgoing(flags, kind);
      r := SaveTaskState();
      saved, freed := mem, mem;
      if r.Raised? { return; }
      if !kind.Call? {
        r := SetTssBusy(oldSelector, false);
        freed := mem;
        if r.Raised? { return; }
      }
      r, loaded := CommitTaskSwitch(kind, tss, oldSelector);
      trail := Trail(saved, freed, loaded);
      if r.Raised? {
        r := Raised(AfterCommit(r.fault.vector));
      }
    }

    /** The fault of a selector no task switch of this kind can take. */
    function BadTask(selector: int, kind: Kind): Outcome
      requires U16(selector)
    {
      Raised(Exception(if kind.Return? then INVALID_TSS else GENERAL_PROTECTION,
                       Some(SelectorCode(selector))))
    }
  }

  /** `m'` is `m` with the Accessed bit of the descriptor at `at` set. */
  ghost predicate MarkedAccessed(m: Memory, m': Memory, at: int) {
    var access := Byte(m, at + 5);
    CodeOrData(access) && !Accessed(access) && m' == Write8(m, at + 5, access + 1)
  }

  /** `ldtr` caches no table, or a present LDT descriptor of the GDT. */
  ghost predicate LdtFrom(m: Memory, gdt: Table, ldtr: Segment) {
    var selector := ldtr.selector;
    || ldtr == Unusable(selector)
    || (!InLdt(selector) && Index(selector) != 0 && Index(selector) + 7 <= gdt.limit
        && IsLdt(Byte(m, gdt.base + Index(selector) + 5))
        && ldtr == EntryAt(m, gdt.base + Index(selector), selector))
  }

  lemma Arrived(m: Memory, base: int, regs: Registers, image: int)
    requires image == Read32(m, base + 36) && regs.flags == FlagsOf(image).(one := true)
    requires regs.eip == Read32(m, base + 32) && regs.ldtr.selector == Read16(m, base + 96)
    requires regs.gpr == ImageAt(m, base).gpr && Selectors(regs.seg) == ImageAt(m, base).selectors
    ensures Arrives(regs, ImageAt(m, base), Jump)
  {
    hide Read32, Read16, FlagsOf;
  }

  ghost function Rest(s: seq<int>): seq<int> { if s == [] then [] else s[1..] }

  lemma RestOfThree(s: seq<int>)
    ensures |s| >= 3 ==> Rest(Rest(Rest(s))) == s[3..]
  {
  }

  lemma ShowsNothing(m: Memory, absent: set<int>, ss: Segment, esp: int, size: Size)
    ensures Shows(m, absent, ss, esp, size, [])
  {
  }

  // The parts of an interrupt frame, as the handler's stack shows them.
  function DataSelectors(seg: seq<Segment>): seq<int>
    requires |seg| == 6
  {
    [seg[ES].selector, seg[DS].selector, seg[FS].selector, seg[GS].selector]
  }

  function OuterStack(crossed: bool, ss: int, esp: int, size: Size): seq<int> {
    if crossed then [Cut(esp, size), ss] else []
  }

  function CodeSlot(code: Option<ErrorCode>, size: Size): seq<int> {
    if code.Some? then [Cut(code.value, size)] else []
  }

  /** An interrupt or trap gate. */
  datatype Gate = Gate(selector: int, offset: int, interrupt: bool, wide: bool)

  /** The frame a gate to a level-3 handler asks for starts at an offset the
      alignment check refuses: on its own stack for a level-3 task, on the stack its
      TSS names for a V86 task. */
  ghost predicate Unaligned(regs: Registers, m: Memory, gdt: Table, absent: set<int>, mask: bool, gate: Gate)
    requires |regs.seg| == 6 && |regs.gpr| == 8
  {
    && mask && regs.flags.alignment
    && if regs.flags.vm
       then
         && InnerReady(m, absent, gdt, regs.ldtr, regs.tr, 3)
         && InnerUnaligned(m, gdt, regs.ldtr, regs.tr, 3, regs.gpr[ESP])
       else regs.cpl == 3 && !InLine(regs.seg[SS], regs.gpr[ESP], if gate.wide then Dword else Word)
  }

  ghost predicate Crosses(regs: Registers, target: int) { regs.flags.vm || target < regs.cpl }

  /** 16-bit code has a 16-bit instruction pointer. */
  function InstructionPointer(vm: bool, big: bool, eip: int): (ip: int)
    ensures U32(eip) ==> U32(ip)
  {
    if vm || !big then eip % 0x1_0000 else eip
  }

  lemma OuterStackSize(crossed: bool, ss: int, esp: int, size: Size)
    ensures |OuterStack(crossed, ss, esp, size)| <= 2
  {
  }

  /** The switch to a level's own stack succeeds and leaves no mark. */
  ghost predicate InnerReady(m: Memory, absent: set<int>, gdt: Table, ldtr: Segment, tr: Segment, level: int) {
    var ss := InnerStack(m, tr, level).1;
    InnerMapped(absent, tr, level) && StackReady(m, absent, TableIn(gdt, ldtr, ss), ss)
  }

  /** The stack a level's TSS entry names is out of line for dwords. */
  ghost predicate InnerUnaligned(m: Memory, gdt: Table, ldtr: Segment, tr: Segment, level: int, esp: int) {
    var (top, ss) := InnerStack(m, tr, level);
    var s := EntryAt(m, TableIn(gdt, ldtr, ss).base + Index(ss), ss);
    !InLine(s, StackPointer(s.big, esp, top), Dword)
  }

  /** What delivery leaves on the handler's stack for an event that interrupts
      `regs`, first popped first. */
  function Frame(regs: Registers, crossed: bool, code: Option<ErrorCode>, size: Size): seq<int>
    requires |regs.seg| == 6 && |regs.gpr| == 8
  {
    var ip := InstructionPointer(regs.flags.vm, regs.seg[CS].big, regs.eip);
    var outer := OuterStack(crossed, regs.seg[SS].selector, regs.gpr[ESP], size);
    CodeSlot(code, size) + [Cut(ip, size), regs.seg[CS].selector, Cut(regs.flags.Image(), size)]
    + (outer + if regs.flags.vm then DataSelectors(regs.seg) else [])
  }

  const TASK_GATE := 0x05

  /** An IDT entry as an interrupt or trap gate. A narrow gate has no high offset
      word. */
  function GateOf(low: int, high: int): Gate {
    var wide := Access(high) / 8 % 2 == 1;
    Gate(low / 0x1_0000, if wide then low % 0x1_0000 + high / 0x1_0000 * 0x1_0000 else low % 0x1_0000,
         Access(high) % 8 == 6, wide)
  }

  lemma GateOfWf(low: int, high: int)
    requires U32(low) && U32(high)
    ensures U16(GateOf(low, high).selector) && U32(GateOf(low, high).offset)
  {
  }

  function GateAt(m: Memory, idt: Table, vector: int): Gate {
    GateOf(Read32(m, idt.base + vector * 8), Read32(m, idt.base + vector * 8 + 4))
  }

  predicate IsTaskGate(m: Memory, idt: Table, vector: int) {
    SystemType(Access(Read32(m, idt.base + vector * 8 + 4))) == TASK_GATE
  }

  /** The checks an IDT entry must pass before anything is touched: the table must
      reach it, a software interrupt needs its privilege, and it must be present. */
  ghost predicate Refused(m: Memory, idt: Table, vector: int, source: Source, cpl: int) {
    var access := Access(Read32(m, idt.base + vector * 8 + 4));
    idt.limit < vector * 8 + 7 || (source.SoftwareInterrupt? && Dpl(access) < cpl) || !Present(access)
  }

  /** The fault of an entry that fails one, the first failing check first. */
  ghost function Refusal(m: Memory, idt: Table, vector: int, source: Source, cpl: int): Fault
    requires 0 <= vector < 0x100
  {
    var access := Access(Read32(m, idt.base + vector * 8 + 4));
    var code := Some(vector * 8 + 2 + if source.External? then 1 else 0);
    if idt.limit < vector * 8 + 7 || (source.SoftwareInterrupt? && Dpl(access) < cpl)
    then Exception(GENERAL_PROTECTION, code) else Exception(NOT_PRESENT, code)
  }

  /** Delivery of `vector` gets as far as the frame and the alignment check stops it
      there: the gate stands, it leads to a level-3 handler, and that handler's
      stack is out of line for it. */
  ghost predicate Trapped(regs: Registers, m: Memory, idt: Table, gdt: Table, absent: set<int>, mask: bool,
                          vector: int, source: Source)
    requires |regs.seg| == 6 && |regs.gpr| == 8
  {
    var gate := GateAt(m, idt, vector);
    && !Refused(m, idt, vector, source, regs.cpl) && !IsTaskGate(m, idt, vector)
    && Page(idt.base + vector * 8) !in absent && Page(idt.base + vector * 8 + 4) !in absent
    && Reachable(absent, TableIn(gdt, regs.ldtr, gate.selector), gate.selector)
    && LevelIn(m, gdt, regs.ldtr, gate.selector) == 3 && Unaligned(regs, m, gdt, absent, mask, gate)
  }

  /** Only a processor exception carries an error code, and only on some vectors. */
  function PushedCode(vector: int, code: Option<ErrorCode>, source: Source): Option<ErrorCode> {
    if source.Trap? && VectorPushesCode(vector) then Some(if code.Some? then code.value else 0) else None
  }

  /** `after` is the start of a handler entered through `gate` from `before`. */
  ghost predicate Entered(before: Registers, after: Registers, gate: Gate, code: Option<ErrorCode>, target: int,
                          framed: Memory, absent: set<int>)
    requires |before.seg| == |after.seg| == 6 && |before.gpr| == |after.gpr| == 8
  {
    var crossed := Crosses(before, target);
    var size := if gate.wide || before.flags.vm then Dword else Word;
    && after.eip == gate.offset && after.seg[CS].selector == gate.selector
    && after.flags == HandlerFlags(before.flags, gate.interrupt)
    && after.cpl == (if crossed then target else before.cpl)
    && after.gpr == before.gpr[ESP := after.gpr[ESP]]
    && after.tr == before.tr && after.ldtr == before.ldtr && after.switched == before.switched
    && (if before.flags.vm then after.seg[DS] == after.seg[ES] == after.seg[FS] == after.seg[GS] == Real(0)
        else after.seg == before.seg[CS := after.seg[CS]][SS := after.seg[SS]])
    && (if crossed then Writable(after.seg[SS].access) else after.seg[SS] == before.seg[SS])
    && Shows(framed, absent, after.seg[SS], after.gpr[ESP], size, Frame(before, crossed, code, size))
  }

  lemma EnteredKeepsLdt(before: Registers, after: Registers, gate: Gate, code: Option<ErrorCode>, target: int,
                        framed: Memory, absent: set<int>)
    requires |before.seg| == |after.seg| == 6 && |before.gpr| == |after.gpr| == 8
    requires Entered(before, after, gate, code, target, framed, absent)
    ensures after.ldtr == before.ldtr
  {
  }

  /** A nested task just resumed, before any error code went on its stack. */
  datatype Hop = Hop(trail: Trail, regs: Registers, mem: Memory)

  /** `after` is the start of a handler task entered through a task gate: the
      switch nested it, and then at most the error code went on its stack. */
  ghost predicate Tasked(before: Registers, m: Memory, after: Registers, m': Memory, gdt: Table, selector: int,
                         pushed: Option<ErrorCode>, hop: Hop) {
    && Switched(before, m, hop.regs, hop.mem, gdt, selector, Call, hop.trail) && |hop.regs.seg| == 6
    && |hop.regs.gpr| == 8
    && match pushed
       case None => after == hop.regs && m' == hop.mem
       case Some(code) =>
         var ss, esp := hop.regs.seg[SS], hop.regs.gpr[ESP];
         && after == hop.regs.(gpr := hop.regs.gpr[ESP := Moved(ss, esp, -4)])
         && m' == WriteAt(hop.mem, Dword, Linear(ss, Offset(ss, esp, -4)), code)
  }

  /** The delivery that entered a handler: the memory it found, the error code it
      carried, the memory with the frame built, and the switch of a task gate. */
  datatype Last = Last(mem: Memory, code: Option<ErrorCode>, framed: Memory, hop: Hop)

  /** The handler of `vector` was entered from `before`, as its gate says. */
  ghost predicate Handled(before: Registers, after: Registers, m': Memory, idt: Table, gdt: Table, vector: int,
                          source: Source, absent: set<int>, last: Last) {
    var gate := GateAt(last.mem, idt, vector);
    var pushed := PushedCode(vector, last.code, source);
    if IsTaskGate(last.mem, idt, vector) then Tasked(before, last.mem, after, m', gdt, gate.selector, pushed, last.hop)
    else
      && |before.seg| == |after.seg| == 6 && |before.gpr| == |after.gpr| == 8
      && Entered(before, after, gate, pushed, LevelIn(last.mem, gdt, before.ldtr, gate.selector), last.framed, absent)
      && var at := TableIn(gdt, before.ldtr, gate.selector).base + Index(gate.selector);
      m' == last.framed || MarkedAccessed(last.framed, m', at)
  }

  function Low(x: int): int { x % 0x1_0000 }

  lemma LowWord(x: int)
    ensures U16(Low(x))
  {
  }

  /** ESP for a popped value: a 16-bit stack takes SP only. */
  function StackPointer(big: bool, before: int, popped: int): int {
    if big then popped else before / 0x1_0000 * 0x1_0000 + popped % 0x1_0000
  }

  lemma StackPointerWf(big: bool, before: int, popped: int)
    requires U32(before) && U32(popped)
    ensures U32(StackPointer(big, before, popped))
  {
  }

  lemma RplRange(selector: int)
    ensures 0 <= Rpl(selector) <= 3
  {
  }

  /** A segment register after a drop to `level`: null if that level may not use
      what it holds. */
  function Usable(s: Segment, level: int): Segment {
    if NullSelector(s.selector) || s.access / 4 % 4 == 3 || Dpl(s.access) >= level then s else Unusable(0)
  }

  lemma UsableWf(s: Segment, level: int)
    requires SegmentWf(s)
    ensures SegmentWf(Usable(s, level))
  {
  }

  /** 8086-style segments for a list of selectors. */
  function RealSegments(selectors: seq<int>): (s: seq<Segment>)
    requires forall k :: 0 <= k < |selectors| ==> U16(selectors[k])
    ensures |s| == |selectors|
    ensures forall k :: 0 <= k < |s| ==> SegmentWf(s[k]) && s[k] == Real(s[k].selector) == Real(selectors[k])
  {
    seq(|selectors|, k requires 0 <= k < |selectors| => Real(selectors[k]))
  }

  lemma LoadFlagsWf(live: Flags, value: Flags, size: Size, cpl: int, allowVm: bool, persona: Persona)
    requires live.Wf() && value.Wf()
    ensures LoadFlags(live, value, size, cpl, allowVm, persona).Wf()
    ensures !allowVm ==> LoadFlags(live, value, size, cpl, allowVm, persona).vm == live.vm
  {
  }

  /** `after` is the V86 task the frame describes. */
  ghost predicate BackInV86(before: Registers, after: Registers, frame: seq<int>, persona: Persona)
    requires |after.seg| == 6 && |before.gpr| == 8 && |frame| >= 9
  {
    && after.eip == frame[0] && after.seg[CS] == Real(Low(frame[1])) && after.cpl == 3
    && after.flags == LoadFlags(before.flags, FlagsOf(frame[2]), Dword, 0, true, persona)
    && after.gpr == before.gpr[ESP := frame[3]] && after.seg[SS] == Real(Low(frame[4]))
    && after.seg[ES] == Real(Low(frame[5])) && after.seg[DS] == Real(Low(frame[6]))
    && after.seg[FS] == Real(Low(frame[7])) && after.seg[GS] == Real(Low(frame[8]))
  }

  // ----- Fault classes -----------------------------------------------------------

  datatype FaultClass = Benign | Contributory | PageFaultClass
  datatype Escalation = Serial | DoubleFault
  datatype Ending = Delivered | TripleFault(original: int, nested: int) | Stopped(vector: int)

  const MAX_FAULT_ESCALATIONS := 8

  function FaultClassOf(vector: int, external: bool): FaultClass {
    if external then Benign
    else if vector == 0 || 8 <= vector <= 13 then Contributory
    else if vector == PAGE_FAULT then PageFaultClass
    else Benign
  }

  function EscalateFault(first: FaultClass, second: FaultClass): Escalation {
    if first.Benign? || second.Benign? then Serial
    else if first.Contributory? && second.PageFaultClass? then Serial
    else DoubleFault
  }

  /** The vector being delivered once each of `nested` was raised by the delivery
      before it. */
  function Chain(original: int, external: bool, nested: seq<int>): int
    decreases |nested|
  {
    if nested == [] then original else
    var before := nested[..|nested| - 1];
    var vector := Chain(original, external, before);
    var last := nested[|nested| - 1];
    if EscalateFault(FaultClassOf(vector, external && before == []),
                     FaultClassOf(last, false)).Serial? then last else DOUBLE_FAULT
  }

  /** The delivery in hand is the double fault's, so its failure is shutdown. */
  predicate EndsChain(original: int, external: bool, nested: seq<int>) {
    Chain(original, external, nested) == DOUBLE_FAULT && !(external && nested == [])
  }

  lemma ChainStep(original: int, external: bool, nested: seq<int>, next: int)
    ensures (nested + [next])[..|nested|] == nested
    ensures forall k :: 0 <= k <= |nested| ==> (nested + [next])[..k] == nested[..k]
    ensures Chain(original, external, nested + [next]) ==
      if EscalateFault(FaultClassOf(Chain(original, external, nested), external && nested == []),
                       FaultClassOf(next, false)).Serial?
      then next else DOUBLE_FAULT
  {
    assert (nested + [next])[..|nested|] == nested;
  }

  /** How far along the table a class is; a nested fault climbs or double-faults. */
  function Rank(c: FaultClass): int {
    match c case Benign => 0 case Contributory => 1 case PageFaultClass => 2
  }

  /** Where the escalation loop stands after `nested`. */
  ghost predicate OnTrack(original: int, external: bool, nested: seq<int>, vector: int, callingDoubleFault: bool) {
    && (forall n :: n in nested ==> Nestable(n))
    && vector == Chain(original, external, nested) && callingDoubleFault == EndsChain(original, external, nested)
    && (forall k :: 0 <= k < |nested| ==> !EndsChain(original, external, nested[..k]))
    && (ALIGNMENT_CHECK !in nested ==>
          |nested| <= if callingDoubleFault then 3 else Rank(FaultClassOf(vector, external && nested == [])))
  }

  predicate IsAlignmentCheck(r: Outcome) {
    r.Raised? && r.fault.Exception? && r.fault.vector == ALIGNMENT_CHECK
  }

  predicate AllAlignment(nested: seq<int>) { forall n :: n in nested ==> n == ALIGNMENT_CHECK }

  /** An alignment check is benign, so it is always delivered in its turn. */
  lemma AlignmentIsSerial(category: FaultClass)
    ensures EscalateFault(category, FaultClassOf(ALIGNMENT_CHECK, false)).Serial?
  {
  }

  lemma StartsOnTrack(original: int, external: bool)
    ensures OnTrack(original, external, [], original, original == DOUBLE_FAULT && !external)
  {
  }

  lemma TrackMeans(original: int, external: bool, nested: seq<int>, vector: int, callingDoubleFault: bool)
    requires OnTrack(original, external, nested, vector, callingDoubleFault)
    ensures ALIGNMENT_CHECK !in nested ==> |nested| <= if callingDoubleFault then 3 else 2
    ensures vector == Chain(original, external, nested)
    ensures callingDoubleFault == EndsChain(original, external, nested)
    ensures forall n :: n in nested ==> Nestable(n)
    ensures forall k :: 0 <= k < |nested| ==> !EndsChain(original, external, nested[..k])
  {
  }

  lemma StaysOnTrack(original: int, external: bool, nested: seq<int>, vector: int, next: int)
    requires OnTrack(original, external, nested, vector, false) && Nestable(next)
    ensures if EscalateFault(FaultClassOf(vector, external && nested == []), FaultClassOf(next, false)).Serial?
      then OnTrack(original, external, nested + [next], next, false)
      else OnTrack(original, external, nested + [next], DOUBLE_FAULT, true)
  {
    ChainStep(original, external, nested, next);
    var more := nested + [next];
    forall k | 0 <= k < |more| ensures !EndsChain(original, external, more[..k]) {
      assert more[..k] == nested[..k];
      if k == |nested| { assert nested[..k] == nested; }
    }
  }

  /** Any three faults in a row that are contributory or page faults reach the
      double fault, whatever was nested before them. */
  lemma {:induction false} ChainBound(original: int, external: bool, nested: seq<int>, i: nat)
    requires i + 3 <= |nested| && forall k :: i <= k < i + 3 ==> INVALID_TSS <= nested[k] <= PAGE_FAULT
    ensures exists k :: i <= k <= i + 3 && EndsChain(original, external, nested[..k])
  {
    var a, b, c := nested[..i + 1], nested[..i + 2], nested[..i + 3];
    assert a == nested[..i] + [nested[i]] && b == a + [nested[i + 1]] && c == b + [nested[i + 2]];
    ChainStep(original, external, nested[..i], nested[i]);
    ChainStep(original, external, a, nested[i + 1]);
    ChainStep(original, external, b, nested[i + 2]);
    if !EndsChain(original, external, a) && !EndsChain(original, external, b) {
      assert EndsChain(original, external, c);
    }
  }

  /** The alignment check does not look at the instruction pointer. */
  lemma SameElsewhere(regs: Registers, moved: Registers, m: Memory, idt: Table, gdt: Table, absent: set<int>,
                      mask: bool)
    requires |regs.seg| == 6 && |regs.gpr| == 8 && moved == regs.(eip := moved.eip)
    ensures Checked(mask, moved) == Checked(mask, regs)
    ensures Trapped(moved, m, idt, gdt, absent, mask, ALIGNMENT_CHECK, Trap)
            == Trapped(regs, m, idt, gdt, absent, mask, ALIGNMENT_CHECK, Trap)
  {
  }

  /** A chain that starts from a contributory or page fault is one shorter. */
  lemma AfterFault(original: int, nested: seq<int>)
    requires Nestable(original) && forall n :: n in nested ==> Nestable(n)
    requires forall k :: 0 <= k < |nested| ==> !EndsChain(original, false, nested[..k])
    ensures original != ALIGNMENT_CHECK && ALIGNMENT_CHECK !in nested ==> |nested| <= 2
  {
    if |nested| >= 3 && original != ALIGNMENT_CHECK && ALIGNMENT_CHECK !in nested {
      assert nested[..1] == [nested[0]] && nested[..2] == [nested[0], nested[1]];
      assert nested[0] in nested && nested[1] in nested;
      TwoEscalations(original, false, nested[0], nested[1]);
    }
  }

  /** Two escalations are not always enough. They fall short of the double fault
      exactly if an alignment check comes first, or if the first fault is handled
      in its turn and so is the second: after a benign event, or a contributory
      one met by a page fault, an alignment check, or a page fault after a
      contributory fault. */
  lemma TwoEscalations(original: int, external: bool, first: int, second: int)
    requires Nestable(first) && Nestable(second)
    ensures (EndsChain(original, external, [first]) || EndsChain(original, external, [first, second])) <==>
            !(first == ALIGNMENT_CHECK
              || ((|| FaultClassOf(original, external).Benign?
                   || (FaultClassOf(original, external).Contributory? && first == PAGE_FAULT))
                  && (second == ALIGNMENT_CHECK || (first != PAGE_FAULT && second == PAGE_FAULT))))
  {
    ChainStep(original, external, [], first);
    ChainStep(original, external, [first], second);
    assert [] + [first] == [first] && [first] + [second] == [first, second];
  }

  /** #UD, then #GP, then #PF, then whatever: the double fault is the third
      escalation, not the second. */
  lemma ThirdEscalation()
    ensures Chain(6, false, [13, 14]) == 14 && Chain(6, false, [13, 14, 13]) == DOUBLE_FAULT
  {
    ChainStep(6, false, [], 13);
    ChainStep(6, false, [13], 14);
    ChainStep(6, false, [13, 14], 13);
    assert [] + [13] == [13] && [13] + [14] == [13, 14] && [13, 14] + [13] == [13, 14, 13];
  }

  lemma DplInRange(access: int)
    ensures 0 <= Dpl(access) <= 3
  {
  }

  function Wanted(kind: Kind): int { if kind.Return? then BUSY_TSS else AVAILABLE_TSS }

  /** The selector names a TSS the switch accepts: in the GDT, present, and busy
      for a task return or available for anything else. */
  ghost predicate Switchable(m: Memory, gdt: Table, selector: int, kind: Kind) {
    && !InLdt(selector) && Index(selector) != 0 && Index(selector) + 7 <= gdt.limit
    && var access := Byte(m, gdt.base + Index(selector) + 5);
    && Present(access) && SystemType(access) == Wanted(kind)
  }

  /** The switch takes the selector, and its descriptor can be read. */
  ghost predicate Accepted(m: Memory, absent: set<int>, gdt: Table, selector: int, kind: Kind) {
    && Switchable(m, gdt, selector, kind)
    && Page(gdt.base + Index(selector)) !in absent && Page(gdt.base + Index(selector) + 4) !in absent
  }

  /** A page the outgoing task is recorded on, or the one its busy bit is on, is
      absent. */
  ghost predicate Blocked(absent: set<int>, gdt: Table, tr: Segment, kind: Kind) {
    !SaveMapped(absent, tr.base, 8, 25) || (!kind.Call? && !BusyMapped(absent, gdt, tr.selector))
  }

  /** The back-link can be read and a return takes it. */
  ghost predicate LinkAccepted(m: Memory, absent: set<int>, gdt: Table, tr: Segment) {
    Page(tr.base) !in absent && Accepted(m, absent, gdt, Read16(m, tr.base), Return)
  }

  /** CS is in for a return to an outer level, and nothing else. */
  ghost predicate OuterCode(before: Registers, m: Memory, gdt: Table, seg: seq<Segment>)
    requires |before.seg| == 6
  {
    |seg| == 6 && var cs := seg[CS].selector;
    && !before.flags.vm && Rpl(cs) > before.cpl
    && seg == before.seg[CS := EntryAt(m, TableIn(gdt, before.ldtr, cs).base + Index(cs), cs)]
  }

  lemma EntrySelector(m: Memory, at: int, selector: int)
    ensures EntryAt(m, at, selector).selector == selector
  {
  }

  lemma MappedParts(absent: set<int>, base: int)
    ensures SaveMapped(absent, base, 8, 25) <==>
      && SaveMapped(absent, base, 8, 10) && SaveMapped(absent, base, 10, 18) && SaveMapped(absent, base, 18, 24)
      && Page(base + 96) !in absent
  {
    assert base + 96 == base + 4 * 24;
  }

  /** A task return leaves with NT clear. */
  function Outgoing(f: Flags, kind: Kind): Flags {
    if kind.Return? then f.(nested := false) else f
  }

  /** The nested task's back-link. */
  function Linked(m: Memory, kind: Kind, base: int, selector: int): Memory {
    if kind.Call? then Write16(m, base, selector) else m
  }

  /** The registers of a task just resumed from `image`; a call nests it. Bit 1 of
      EFLAGS is set whatever the image says. */
  ghost predicate Arrives(regs: Registers, image: TaskImage, kind: Kind) {
    var f := FlagsOf(image.flags).(one := true);
    && regs.eip == image.eip && regs.gpr == image.gpr && Selectors(regs.seg) == image.selectors
    && regs.ldtr.selector == image.ldt
    && regs.flags == if kind.Call? then f.(nested := true) else f
  }

  /** Memory along a task switch: once the outgoing task is recorded, once its TSS
      is released, once the incoming task's segments are in. */
  datatype Trail = Trail(saved: Memory, freed: Memory, loaded: Memory)

  /** What a completed task switch did. */
  ghost predicate Switched(before: Registers, m: Memory, after: Registers, m': Memory, gdt: Table, selector: int,
                           kind: Kind, trail: Trail) {
    var tss := EntryAt(m, gdt.base + Index(selector), selector);
    var leaving := before.(flags := Outgoing(before.flags, kind));
    var ldt := Table(after.ldtr.base, after.ldtr.limit);
    // The outgoing task is in its TSS, and only a call leaves that TSS busy.
    && Switchable(m, gdt, selector, kind)
    && SameOutside(m, trail.saved, before.tr.base + 32, before.tr.base + 98)
    && ImageAt(trail.saved, before.tr.base) == ImageOf(leaving)
    && trail.freed == (if kind.Call? then trail.saved else BusySet(trail.saved, gdt, before.tr.selector, false))
    // The incoming task is out of its TSS, which is busy and linked back.
    && LdtFrom(trail.freed, gdt, after.ldtr) && OnlyAccessed(trail.freed, trail.loaded, gdt, ldt)
    && (Clear(tss.base, gdt) && Clear(tss.base, ldt) ==> Arrives(after, ImageAt(trail.freed, tss.base), kind))
    && after.tr == tss.(access := WithBusy(tss.access, true)) && after.switched
    && m' == BusySet(Linked(trail.loaded, kind, tss.base, before.tr.selector), gdt, selector, true)
  }

  lemma SameOutsideItself(m: Memory, lo: int, hi: int)
    ensures SameOutside(m, m, lo, hi)
  {
  }

  lemma BusyAccess(access: int)
    requires 0 <= access < 0x100
    ensures 0 <= WithBusy(access, true) < 0x100
  {
  }

  lemma NothingAccessed(m: Memory, gdt: Table, ldt: Table)
    ensures OnlyAccessed(m, m, gdt, ldt)
  {
  }

  predicate IsLdt(access: int) { Present(access) && SystemType(access) == 0x02 }

  /** The descriptor at `at`, as a segment register would cache it. */
  function EntryAt(m: Memory, at: int, selector: int): Segment {
    Decode(selector, Read32(m, at), Read32(m, at + 4))
  }

  lemma AccessByte(m: Memory, at: int)
    ensures Access(Read32(m, at + 4)) == Byte(m, at + 5)
  {
    var v := Read32(m, at + 4);
    assert v == Byte(m, at + 4) + 0x100 * (Byte(m, at + 5) + 0x100 * Read16(m, at + 6));
    assert v / 0x100 == Byte(m, at + 5) + 0x100 * Read16(m, at + 6);
  }
}
