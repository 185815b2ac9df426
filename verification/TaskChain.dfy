/** Nested tasks over whole runs: every call through the hardware task switch, every
    return through NT and the back-link, and anything the running task does in
    between that leaves the GDT and the suspended TSSs alone. */
module TaskChain {
  import opened CpuTypes
  import opened CpuCore

  /** How the guest laid out its tables: the GDT, the base of each TSS by the index
      of its descriptor, and the local descriptor tables. */
  datatype World = World(gdt: Table, tss: map<int, int>, ldts: set<Table>)

  predicate IsEntry(gdt: Table, e: int) { e % 8 == 0 && 8 <= e && e + 7 <= gdt.limit }

  /** No TSS shares a byte with a descriptor table or another TSS, and no local
      table with the GDT. */
  ghost predicate Geometry(w: World) {
    && (forall e :: e in w.tss ==> IsEntry(w.gdt, e) && Clear(w.tss[e], w.gdt))
    && (forall e, t :: e in w.tss && t in w.ldts ==> Clear(w.tss[e], t))
    && (forall e, f :: e in w.tss && f in w.tss && e != f ==> Apart(w.tss[e], w.tss[f]))
    && (forall t, a :: t in w.ldts && InTable(t, a) ==> !InTable(w.gdt, a))
  }

  predicate Apart(a: int, b: int) { a + 104 <= b || b + 104 <= a }

  function AccessAt(w: World, m: Memory, e: int): int { Byte(m, w.gdt.base + e + 5) }

  /** The GDT still says what the layout says. */
  ghost predicate EntryOk(w: World, m: Memory, e: int) {
    var access := AccessAt(w, m, e);
    var s := EntryAt(m, w.gdt.base + e, 0);
    && (e in w.tss <==> SystemType(access) == AVAILABLE_TSS || SystemType(access) == BUSY_TSS)
    && (e in w.tss ==> s.base == w.tss[e])
    && (IsLdt(access) ==> Table(s.base, s.limit) in w.ldts)
  }

  /** The busy TSSs are exactly those of `busy`. */
  ghost predicate BusyOk(w: World, m: Memory, busy: set<int>) {
    && busy <= w.tss.Keys
    && (forall e :: e in w.tss ==> (e in busy <==> SystemType(AccessAt(w, m, e)) == BUSY_TSS))
    && (forall e :: e in busy ==> Present(AccessAt(w, m, e)))
  }

  ghost predicate MemOk(w: World, m: Memory, busy: set<int>) {
    && (forall e :: IsEntry(w.gdt, e) ==> EntryOk(w, m, e))
    && BusyOk(w, m, busy)
  }

  /** The TSS at `base` is as it was. */
  ghost predicate TssSame(m: Memory, m': Memory, base: int) {
    forall a :: base <= a < base + 104 ==> Byte(m', a) == Byte(m, a)
  }

  ghost predicate LinkSame(m: Memory, m': Memory, base: int) { Read16(m', base) == Read16(m, base) }

  lemma TssSameMeans(m: Memory, m': Memory, base: int)
    requires TssSame(m, m', base)
    ensures ImageAt(m', base) == ImageAt(m, base) && LinkSame(m, m', base)
  {
    forall a | base <= a && a + 4 <= base + 104 ensures Read32(m', a) == Read32(m, a) {
      assert Byte(m', a) == Byte(m, a) && Byte(m', a + 1) == Byte(m, a + 1);
      assert Byte(m', a + 2) == Byte(m, a + 2) && Byte(m', a + 3) == Byte(m, a + 3);
    }
    forall a | base <= a && a + 2 <= base + 104 ensures Read16(m', a) == Read16(m, a) {
      assert Byte(m', a) == Byte(m, a) && Byte(m', a + 1) == Byte(m, a + 1);
    }
    assert ImageAt(m', base).gpr == ImageAt(m, base).gpr;
    assert ImageAt(m', base).selectors == ImageAt(m, base).selectors;
  }

  // ----- The memory steps of a switch -------------------------------------------

  /** Entry `e` differs at most in its access byte. */
  ghost predicate BodySame(w: World, m: Memory, m': Memory, e: int) {
    var at := w.gdt.base + e;
    forall a :: at <= a < at + 8 && a != at + 5 ==> Byte(m', a) == Byte(m, a)
  }

  lemma BodyDecides(w: World, m: Memory, m': Memory, e: int)
    requires BodySame(w, m, m', e)
    ensures var s := EntryAt(m, w.gdt.base + e, 0); var s' := EntryAt(m', w.gdt.base + e, 0);
      s'.base == s.base && s'.limit == s.limit
  {
    var at := w.gdt.base + e;
    assert Byte(m', at) == Byte(m, at) && Byte(m', at + 1) == Byte(m, at + 1);
    assert Byte(m', at + 2) == Byte(m, at + 2) && Byte(m', at + 3) == Byte(m, at + 3);
    assert Byte(m', at + 4) == Byte(m, at + 4) && Byte(m', at + 6) == Byte(m, at + 6)
           && Byte(m', at + 7) == Byte(m, at + 7);
    assert Read32(m', at) == Read32(m, at);
    HighFields(m, at + 4);
    HighFields(m', at + 4);
  }

  /** The fields of a descriptor's high dword outside its access byte. */
  lemma HighFields(m: Memory, a: int)
    ensures var high := Read32(m, a);
      && high % 0x100 == Byte(m, a) && high / 0x100_0000 == Byte(m, a + 3)
      && high / 0x1_0000 % 0x10 == Byte(m, a + 2) % 0x10 && high / 0x80_0000 % 2 == Byte(m, a + 2) / 0x80
  {
    var b0, b1, b2, b3 := Byte(m, a), Byte(m, a + 1), Byte(m, a + 2), Byte(m, a + 3);
    var high := Read32(m, a);
    assert high == b0 + 0x100 * (b1 + 0x100 * (b2 + 0x100 * b3));
    assert high / 0x1_0000 == b2 + 0x100 * b3;
    assert high / 0x80_0000 == b2 / 0x80 + 2 * b3;
  }

  /** A step that leaves the body of every entry alone, and every access byte but
      for marks on code and data descriptors. */
  ghost predicate GdtKept(w: World, m: Memory, m': Memory) {
    forall e :: IsEntry(w.gdt, e) ==>
      && BodySame(w, m, m', e)
      && (AccessAt(w, m', e) == AccessAt(w, m, e) || (CodeOrData(AccessAt(w, m, e)) && CodeOrData(AccessAt(w, m', e))))
  }

  ghost predicate TssAccessSame(w: World, m: Memory, m': Memory) {
    forall e :: e in w.tss ==> AccessAt(w, m', e) == AccessAt(w, m, e)
  }

  lemma PlainTypes(access: int)
    requires CodeOrData(access) && 0 <= access < 0x100
    ensures SystemType(access) != AVAILABLE_TSS && SystemType(access) != BUSY_TSS && !IsLdt(access)
  {
  }

  lemma GdtKeptMemOk(w: World, m: Memory, m': Memory, busy: set<int>)
    requires Geometry(w) && MemOk(w, m, busy) && GdtKept(w, m, m')
    ensures MemOk(w, m', busy) && TssAccessSame(w, m, m')
  {
    hide EntryAt, CodeOrData, IsLdt, SystemType, BodySame, Present;
    forall e | IsEntry(w.gdt, e) ensures EntryOk(w, m', e) && (e in w.tss ==> AccessAt(w, m', e) == AccessAt(w, m, e)) {
      assert EntryOk(w, m, e);
      BodyDecides(w, m, m', e);
      if AccessAt(w, m', e) != AccessAt(w, m, e) {
        PlainTypes(AccessAt(w, m, e));
        PlainTypes(AccessAt(w, m', e));
      }
    }
  }

  /** Writes inside one TSS. */
  lemma TssWrite(w: World, m: Memory, m': Memory, e: int, lo: int, hi: int, busy: set<int>)
    requires Geometry(w) && MemOk(w, m, busy) && e in w.tss && 0 <= lo <= hi <= 104
    requires SameOutside(m, m', w.tss[e] + lo, w.tss[e] + hi)
    ensures MemOk(w, m', busy) && TssAccessSame(w, m, m')
    ensures forall f :: f in w.tss && f != e ==> TssSame(m, m', w.tss[f])
  {
    forall f | IsEntry(w.gdt, f) ensures BodySame(w, m, m', f) && AccessAt(w, m', f) == AccessAt(w, m, f) {
      forall a | w.gdt.base + f <= a < w.gdt.base + f + 8 ensures Byte(m', a) == Byte(m, a) {
        assert InTable(w.gdt, a);
      }
    }
    GdtKeptMemOk(w, m, m', busy);
    forall f | f in w.tss && f != e ensures TssSame(m, m', w.tss[f]) {
      assert Apart(w.tss[e], w.tss[f]);
    }
  }

  lemma Remainder(e: int, j: int)
    requires e % 8 == 0 && 0 <= j < 8
    ensures (e + j) % 8 == j
  {
  }

  /** Segment loads. */
  lemma AccessedStep(w: World, m: Memory, m': Memory, ldt: Table, busy: set<int>)
    requires Geometry(w) && MemOk(w, m, busy) && OnlyAccessed(m, m', w.gdt, ldt) && (ldt in w.ldts || ldt.limit < 7)
    ensures MemOk(w, m', busy) && TssAccessSame(w, m, m') && GdtKept(w, m, m')
    ensures forall f :: f in w.tss ==> TssSame(m, m', w.tss[f])
  {
    hide CodeOrData;
    forall e | IsEntry(w.gdt, e)
      ensures BodySame(w, m, m', e)
      ensures AccessAt(w, m', e) == AccessAt(w, m, e)
              || (CodeOrData(AccessAt(w, m, e)) && CodeOrData(AccessAt(w, m', e)))
    {
      var at := w.gdt.base + e;
      forall a | at <= a < at + 8
        ensures a != at + 5 ==> Byte(m', a) == Byte(m, a)
        ensures a == at + 5 ==> Byte(m', a) == Byte(m, a) || (CodeOrData(Byte(m, a)) && CodeOrData(Byte(m', a)))
      {
        assert InTable(w.gdt, a) && AccessedAt(m, m', w.gdt, ldt, a);
        Remainder(e, a - at);
      }
    }
    GdtKeptMemOk(w, m, m', busy);
    forall f, a | f in w.tss && w.tss[f] <= a < w.tss[f] + 104 ensures Byte(m', a) == Byte(m, a) {
      assert AccessedAt(m, m', w.gdt, ldt, a);
      assert Clear(w.tss[f], w.gdt);
    }
  }

  lemma BusyTypes(access: int, busy: bool)
    requires 0 <= access < 0x100 && (SystemType(access) == AVAILABLE_TSS || SystemType(access) == BUSY_TSS)
    ensures 0 <= WithBusy(access, busy) < 0x100
    ensures SystemType(WithBusy(access, busy)) == (if busy then BUSY_TSS else AVAILABLE_TSS)
    ensures Present(WithBusy(access, busy)) == Present(access) && !IsLdt(WithBusy(access, busy)) && !IsLdt(access)
  {
  }

  /** The busy bit of one TSS. */
  lemma BusyStep(w: World, m: Memory, selector: int, flag: bool, busy: set<int>)
    requires Geometry(w) && MemOk(w, m, busy) && Index(selector) in w.tss
    requires flag ==> Present(AccessAt(w, m, Index(selector)))
    ensures var e := Index(selector); MemOk(w, BusySet(m, w.gdt, selector, flag),
                                            if flag then busy + {e} else busy - {e})
    ensures forall f :: f in w.tss ==> TssSame(m, BusySet(m, w.gdt, selector, flag), w.tss[f])
  {
    hide SystemType, Present, IsLdt, WithBusy, Index, EntryAt;
    var e := Index(selector);
    assert IsEntry(w.gdt, e) && EntryOk(w, m, e);
    var m' := BusySet(m, w.gdt, selector, flag);
    var at := w.gdt.base + e + 5;
    BusyTypes(Byte(m, at), flag);
    assert Byte(m', at) == WithBusy(Byte(m, at), flag) && forall a :: a != at ==> Byte(m', a) == Byte(m, a);
    forall f | IsEntry(w.gdt, f) ensures EntryOk(w, m', f) && (f != e ==> AccessAt(w, m', f) == AccessAt(w, m, f)) {
      assert EntryOk(w, m, f);
      assert f != e ==> f + 8 <= e || e + 8 <= f;
      BodyDecides(w, m, m', f);
    }
    assert InTable(w.gdt, at);
  }

  // ----- Runs ---------------------------------------------------------------------

  /** The core with the history of its nesting: the selectors of the tasks called
      and not yet returned from, outermost first and the running one last, and the
      registers each suspended one had when it called. */
  datatype State = State(regs: Registers, mem: Memory, chain: seq<int>, callers: seq<Registers>)

  function Indexes(chain: seq<int>): (s: set<int>)
    ensures forall i :: 0 <= i < |chain| ==> Index(chain[i]) in s
  {
    set i | 0 <= i < |chain| :: Index(chain[i])
  }

  ghost predicate ChainOk(w: World, chain: seq<int>) {
    && chain != []
    && (forall i :: 0 <= i < |chain| ==> U16(chain[i]) && !InLdt(chain[i]) && Index(chain[i]) in w.tss)
    && (forall i, j :: 0 <= i < j < |chain| ==> Index(chain[i]) != Index(chain[j]))
  }

  function TssOf(w: World, selector: int): int
    requires Index(selector) in w.tss
  {
    w.tss[Index(selector)]
  }

  /** The back-links run from the current TSS down the chain, and each suspended TSS
      holds its task. */
  ghost predicate Recorded(w: World, m: Memory, chain: seq<int>, callers: seq<Registers>)
    requires ChainOk(w, chain)
  {
    && |callers| == |chain| - 1
    && (forall i :: 1 <= i < |chain| ==> Read16(m, TssOf(w, chain[i])) == chain[i - 1])
    && (forall i :: 0 <= i < |callers| ==> ImageAt(m, TssOf(w,
                                                            chain[i])) == ImageOf(callers[i]) && callers[i].flags.Wf())
  }

  ghost predicate Inv(w: World, s: State) {
    && Geometry(w) && ChainOk(w, s.chain)
    && MemOk(w, s.mem, Indexes(s.chain))
    && s.regs.flags.Wf() && s.regs.tr.selector == s.chain[|s.chain| - 1]
    && s.regs.tr.base == TssOf(w, s.regs.tr.selector)
    && Recorded(w, s.mem, s.chain, s.callers)
  }

  /** A task on the chain cannot be called again. */
  lemma NoReentry(w: World, s: State, i: int, selector: int)
    requires Inv(w, s) && 0 <= i < |s.chain| && Index(selector) == Index(s.chain[i])
    ensures !Switchable(s.mem, w.gdt, selector, Call) && !Switchable(s.mem, w.gdt, selector, Jump)
  {
    hide SystemType, Index, EntryOk, Recorded, Geometry, Present, InLdt, Indexes;
    assert Index(s.chain[i]) in Indexes(s.chain);
  }

  /** The back-link of a nested task always names a task a return accepts. */
  lemma CanReturn(w: World, s: State)
    requires Inv(w, s) && |s.chain| >= 2
    ensures Read16(s.mem, s.regs.tr.base) == s.chain[|s.chain| - 2]
    ensures Switchable(s.mem, w.gdt, s.chain[|s.chain| - 2], Return)
  {
    hide SystemType, Index, Read16;
    var selector := s.chain[|s.chain| - 2];
    assert Index(selector) in Indexes(s.chain) && IsEntry(w.gdt, Index(selector));
  }

  lemma IndexAligned(selector: int)
    requires U16(selector)
    ensures Index(selector) % 8 == 0 && 0 <= Index(selector)
  {
  }

  /** An accepted call names a TSS off the chain. */
  lemma CallIsFresh(w: World, s: State, selector: int)
    requires Inv(w, s) && U16(selector) && Switchable(s.mem, w.gdt, selector, Call)
    ensures Index(selector) in w.tss && Index(selector) !in Indexes(s.chain)
            && Present(AccessAt(w, s.mem, Index(selector)))
    ensures EntryAt(s.mem, w.gdt.base + Index(selector), selector).base == TssOf(w, selector)
  {
    hide SystemType, Index, IsLdt, Present, Recorded, Geometry, Indexes, Read32;
    IndexAligned(selector);
    assert EntryOk(w, s.mem, Index(selector));
  }

  lemma LdtKnown(w: World, m: Memory, ldtr: Segment, busy: set<int>)
    requires MemOk(w, m, busy) && LdtFrom(m, w.gdt, ldtr) && U16(ldtr.selector)
    ensures var ldt := Table(ldtr.base, ldtr.limit); ldt in w.ldts || ldt.limit < 7
  {
    hide SystemType, Index, IsLdt;
    var e := Index(ldtr.selector);
    IndexAligned(ldtr.selector);
    if ldtr != Unusable(ldtr.selector) {
      assert IsEntry(w.gdt, e) && EntryOk(w, m, e);
    }
  }

  lemma Unlisted(base: int, t: Table)
    requires t.limit < 7
    ensures Clear(base, t)
  {
  }

  /** What the steps of a call do to memory, TSS by TSS. */
  lemma CallMemory(w: World, s: State, after: Registers, m': Memory, selector: int, trail: Trail)
    requires Inv(w, s) && U16(selector) && U16(after.ldtr.selector)
    requires Switched(s.regs, s.mem, after, m', w.gdt, selector, Call, trail)
    ensures Index(selector) in w.tss && Index(selector) !in Indexes(s.chain)
    ensures MemOk(w, m', Indexes(s.chain) + {Index(selector)})
    ensures forall f :: f in w.tss && f != Index(selector) && f != Index(s.regs.tr.selector) ==>
      TssSame(s.mem, m', w.tss[f])
    ensures ImageAt(m', s.regs.tr.base) == ImageOf(s.regs) && LinkSame(s.mem, m', s.regs.tr.base)
    ensures Read16(m', TssOf(w, selector)) == s.regs.tr.selector
  {
    hide Index, EntryOk, BusyOk, BusySet, ImageAt, ImageOf, Clear, LdtFrom, OnlyAccessed, EntryAt, Arrives, Read16,
      Write16, Present, SameOutside, AccessAt;
    var busy, e, o := Indexes(s.chain), Index(selector), Index(s.regs.tr.selector);
    CallIsFresh(w, s, selector);
    assert o in busy && o in w.tss;
    TssWrite(w, s.mem, trail.saved, o, 32, 98, busy);
    LdtKnown(w, trail.saved, after.ldtr, busy);
    AccessedStep(w, trail.saved, trail.loaded, Table(after.ldtr.base, after.ldtr.limit), busy);
    var linked := Write16(trail.loaded, w.tss[e], s.regs.tr.selector);
    Written16(trail.loaded, w.tss[e], s.regs.tr.selector);
    TssWrite(w, trail.loaded, linked, e, 0, 2, busy);
    BusyStep(w, linked, selector, true, busy);
    TssChain4(s.mem, trail.saved, trail.loaded, linked, m', w, e, o);
    Kept16(s.mem, trail.saved, w.tss[o] + 32, w.tss[o] + 98, w.tss[o]);
    TssSameMeans(trail.saved, trail.loaded, w.tss[o]);
    TssSameMeans(trail.loaded, linked, w.tss[o]);
    TssSameMeans(linked, m', w.tss[o]);
    TssSameMeans(linked, m', w.tss[e]);
  }

  lemma TssChain4(a: Memory, b: Memory, c: Memory, d: Memory, z: Memory, w: World, e: int, o: int)
    requires forall f :: f in w.tss && f != o ==> TssSame(a, b, w.tss[f])
    requires forall f :: f in w.tss ==> TssSame(b, c, w.tss[f])
    requires forall f :: f in w.tss && f != e ==> TssSame(c, d, w.tss[f])
    requires forall f :: f in w.tss ==> TssSame(d, z, w.tss[f])
    ensures forall f :: f in w.tss && f != e && f != o ==> TssSame(a, z, w.tss[f])
  {
  }

  /** Extending the chain by one. */
  lemma Extended(w: World, chain: seq<int>, selector: int)
    requires ChainOk(w, chain) && U16(selector) && !InLdt(selector) && Index(selector) in w.tss
             && Index(selector) !in Indexes(chain)
    ensures ChainOk(w, chain + [selector]) && Indexes(chain + [selector]) == Indexes(chain) + {Index(selector)}
  {
    hide Index, InLdt;
    var more := chain + [selector];
    assert forall i :: 0 <= i < |chain| ==> more[i] == chain[i];
    assert more[|chain|] == selector;
    forall x | x in Indexes(chain) + {Index(selector)} ensures x in Indexes(more) {
      if x != Index(selector) {
        var i :| 0 <= i < |chain| && Index(chain[i]) == x;
        assert Index(more[i]) == x;
      } else {
        assert Index(more[|chain|]) == x;
      }
    }
  }

  /** A call nests: the caller joins the suspended tasks as it was, and the callee
      starts from its TSS with NT set. */
  lemma CallKept(w: World, s: State, after: Registers, m': Memory, selector: int, trail: Trail)
    requires Inv(w, s) && U16(selector) && U16(after.ldtr.selector)
    requires Switched(s.regs, s.mem, after, m', w.gdt, selector, Call, trail) && after.flags.Wf()
    ensures Inv(w, State(after, m', s.chain + [selector], s.callers + [s.regs]))
    ensures Index(selector) !in Indexes(s.chain)
    ensures Arrives(after, ImageAt(s.mem, TssOf(w, selector)), Call)
  {
    hide MemOk, Geometry, Indexes, Index, Read16, ImageAt, ImageOf, Clear, LdtFrom, OnlyAccessed, BusySet, Linked,
      Arrives, Present, InLdt, SystemType, LinkSame, EntryAt;
    CallMemory(w, s, after, m', selector, trail);
    CallIsFresh(w, s, selector);
    Extended(w, s.chain, selector);
    CallArrives(w, s, after, m', selector, trail);
    CallRecorded(w, s, m', selector);
    BaseOf(s.mem, w.gdt.base + Index(selector), selector);
  }

  lemma BaseOf(m: Memory, at: int, selector: int)
    ensures EntryAt(m, at, selector).selector == selector
  {
  }

  lemma CallRecorded(w: World, s: State, m': Memory, selector: int)
    requires Inv(w, s) && Index(selector) in w.tss && ChainOk(w, s.chain + [selector])
    requires forall f :: f in w.tss && f != Index(selector) && f != Index(s.regs.tr.selector) ==>
      TssSame(s.mem, m', w.tss[f])
    requires ImageAt(m', s.regs.tr.base) == ImageOf(s.regs) && LinkSame(s.mem, m', s.regs.tr.base)
    requires Read16(m', TssOf(w, selector)) == s.regs.tr.selector
    ensures Recorded(w, m', s.chain + [selector], s.callers + [s.regs])
  {
    hide MemOk, Geometry, Indexes, Index, Read16, ImageAt, ImageOf, InLdt, TssSame;
    var chain, n := s.chain + [selector], |s.chain|;
    assert chain[n] == selector && forall i :: 0 <= i < n ==> chain[i] == s.chain[i];
    forall i | 0 <= i < n - 1
      ensures ImageAt(m', TssOf(w, chain[i])) == ImageAt(s.mem, TssOf(w, chain[i]))
              && LinkSame(s.mem, m', TssOf(w, chain[i]))
    {
      assert Index(chain[i]) != Index(chain[n]) && Index(chain[i]) != Index(chain[n - 1]);
      TssSameMeans(s.mem, m', TssOf(w, chain[i]));
    }
    forall i | 1 <= i < |chain| ensures Read16(m', TssOf(w, chain[i])) == chain[i - 1] {
      if i < n { assert LinkSame(s.mem, m', TssOf(w, chain[i])); }
    }
  }

  /** The callee's TSS was not touched before it was loaded. */
  lemma CallArrives(w: World, s: State, after: Registers, m': Memory, selector: int, trail: Trail)
    requires Inv(w, s) && U16(selector) && U16(after.ldtr.selector) && Index(selector) in w.tss
             && Index(selector) !in Indexes(s.chain)
    requires Switched(s.regs, s.mem, after, m', w.gdt, selector, Call, trail)
    ensures Arrives(after, ImageAt(s.mem, TssOf(w, selector)), Call)
  {
    hide Index, EntryOk, BusyOk, BusySet, ImageAt, ImageOf, LdtFrom, OnlyAccessed, EntryAt, Arrives, Read16, Write16,
      Present, SameOutside, AccessAt, Clear, Indexes, InLdt, SystemType, Recorded, Linked;
    var busy, e, o := Indexes(s.chain), Index(selector), Index(s.regs.tr.selector);
    CallIsFresh(w, s, selector);
    TssWrite(w, s.mem, trail.saved, o, 32, 98, busy);
    LdtKnown(w, trail.saved, after.ldtr, busy);
    var ldt := Table(after.ldtr.base, after.ldtr.limit);
    if ldt.limit < 7 { Unlisted(w.tss[e], ldt); }
    TssSameMeans(s.mem, trail.saved, w.tss[e]);
  }

  /** What the steps of a return do to memory. */
  lemma ReturnMemory(w: World, s: State, after: Registers, m': Memory, trail: Trail)
    requires Inv(w, s) && |s.chain| >= 2 && U16(after.ldtr.selector)
    requires Switched(s.regs, s.mem, after, m', w.gdt, s.chain[|s.chain| - 2], Return, trail)
    ensures MemOk(w, m', Indexes(s.chain[..|s.chain| - 1]))
    ensures forall f :: f in w.tss && f != Index(s.regs.tr.selector) ==> TssSame(s.mem, m', w.tss[f])
    ensures Arrives(after, ImageAt(s.mem, TssOf(w, s.chain[|s.chain| - 2])), Return)
  {
    hide Index, EntryOk, BusyOk, BusySet, ImageAt, ImageOf, Clear, LdtFrom, OnlyAccessed, EntryAt, Arrives, Read16,
      Present, SameOutside, AccessAt, Recorded, SystemType, Indexes;
    var selector := s.chain[|s.chain| - 2];
    var busy, e, o := Indexes(s.chain), Index(selector), Index(s.regs.tr.selector);
    ReturnTarget(w, s);
    TssWrite(w, s.mem, trail.saved, o, 32, 98, busy);
    BusyStep(w, trail.saved, s.regs.tr.selector, false, busy);
    LdtKnown(w, trail.freed, after.ldtr, busy - {o});
    var ldt := Table(after.ldtr.base, after.ldtr.limit);
    if ldt.limit < 7 { Unlisted(w.tss[e], ldt); }
    AccessedStep(w, trail.freed, trail.loaded, ldt, busy - {o});
    StillPresent(w, trail.loaded, busy - {o}, e);
    BusyStep(w, trail.loaded, selector, true, busy - {o});
    Shortened(w, s.chain);
    assert busy - {o} + {e} == busy - {o};
    TssChain4(s.mem, trail.saved, trail.freed, trail.loaded, m', w, o, o);
    TssSameMeans(s.mem, trail.saved, w.tss[e]);
    TssSameMeans(trail.saved, trail.freed, w.tss[e]);
  }

  lemma StillPresent(w: World, m: Memory, busy: set<int>, e: int)
    requires MemOk(w, m, busy) && e in busy
    ensures Present(AccessAt(w, m, e))
  {
  }

  lemma ReturnTarget(w: World, s: State)
    requires Inv(w, s) && |s.chain| >= 2
    ensures var selector := s.chain[|s.chain| - 2]; var e := Index(selector); var o := Index(s.regs.tr.selector);
      && e != o && e in w.tss && o in w.tss && e in Indexes(s.chain) && o in Indexes(s.chain)
      && EntryAt(s.mem, w.gdt.base + e, selector).base == w.tss[e]
  {
    hide Index, Read32, IsLdt, SystemType, Recorded, Indexes;
    var e := Index(s.chain[|s.chain| - 2]);
    assert IsEntry(w.gdt, e) && EntryOk(w, s.mem, e);
  }

  lemma Shortened(w: World, chain: seq<int>)
    requires ChainOk(w, chain) && |chain| >= 2
    ensures ChainOk(w, chain[..|chain| - 1])
    ensures Indexes(chain[..|chain| - 1]) == Indexes(chain) - {Index(chain[|chain| - 1])}
  {
    hide Index, InLdt;
    var n := |chain| - 1;
    var less := chain[..n];
    forall x | x in Indexes(chain) && x != Index(chain[n]) ensures x in Indexes(less) {
      var i :| 0 <= i < |chain| && Index(chain[i]) == x;
      assert less[i] == chain[i];
    }
  }

  /** A return resumes the caller as it was, and nothing else moves. */
  lemma ReturnKept(w: World, s: State, after: Registers, m': Memory, trail: Trail)
    requires Inv(w, s) && |s.chain| >= 2 && U16(after.ldtr.selector) && after.flags.Wf()
    requires Switched(s.regs, s.mem, after, m', w.gdt, s.chain[|s.chain| - 2], Return, trail)
    ensures Inv(w, State(after, m', s.chain[..|s.chain| - 1], s.callers[..|s.callers| - 1]))
    ensures Resumes(s.callers[|s.callers| - 1], after)
  {
    hide MemOk, Geometry, Indexes, Index, Read16, ImageAt, ImageOf, Clear, LdtFrom, OnlyAccessed, BusySet, Linked,
      Arrives, Present, InLdt, SystemType, LinkSame, EntryAt, Resumes;
    var n := |s.chain|;
    ReturnMemory(w, s, after, m', trail);
    ReturnTarget(w, s);
    Shortened(w, s.chain);
    BaseOf(s.mem, w.gdt.base + Index(s.chain[n - 2]), s.chain[n - 2]);
    ReturnRecorded(w, s, m');
    Restored(s.callers[n - 2], after);
  }

  lemma ReturnRecorded(w: World, s: State, m': Memory)
    requires Inv(w, s) && |s.chain| >= 2 && ChainOk(w, s.chain[..|s.chain| - 1])
    requires forall f :: f in w.tss && f != Index(s.regs.tr.selector) ==> TssSame(s.mem, m', w.tss[f])
    ensures Recorded(w, m', s.chain[..|s.chain| - 1], s.callers[..|s.callers| - 1])
  {
    hide MemOk, Geometry, Indexes, Index, Read16, ImageAt, ImageOf, InLdt, TssSame;
    var n := |s.chain| - 1;
    forall i | 0 <= i < n
      ensures ImageAt(m', TssOf(w, s.chain[i])) == ImageAt(s.mem, TssOf(w, s.chain[i]))
      ensures LinkSame(s.mem, m', TssOf(w, s.chain[i]))
    {
      assert Index(s.chain[i]) != Index(s.chain[n]);
      TssSameMeans(s.mem, m', TssOf(w, s.chain[i]));
    }
    var less := s.chain[..n];
    forall i | 1 <= i < n ensures Read16(m', TssOf(w, less[i])) == less[i - 1] {
      assert less[i] == s.chain[i] && LinkSame(s.mem, m', TssOf(w, s.chain[i]));
    }
  }

  /** `after` is the task that called with registers `caller`: instruction pointer,
      flags, general registers, selectors and LDT. Bit 1 of EFLAGS reads as set. */
  ghost predicate Resumes(caller: Registers, after: Registers) {
    && after.eip == caller.eip && after.flags == caller.flags.(one := true) && after.gpr == caller.gpr
    && Selectors(after.seg) == Selectors(caller.seg) && after.ldtr.selector == caller.ldtr.selector
  }

  lemma Restored(caller: Registers, after: Registers)
    requires caller.flags.Wf() && Arrives(after, ImageOf(caller), Return)
    ensures Resumes(caller, after)
  {
    hide Flags.Image, FlagsOf, Selectors;
    FlagsRoundTrip(caller.flags);
  }

  /** Whatever the running task does, if it changes nothing in the GDT but Accessed
      bits of code and data descriptors, leaves the suspended TSSs and its own
      back-link alone and stays the running task. A segment load is one such step,
      a switch that faults before it commits another. */
  ghost predicate LeavesAlone(w: World, s: State, after: Registers, m': Memory)
    requires ChainOk(w, s.chain)
  {
    && after.tr == s.regs.tr && after.flags.Wf()
    && GdtKept(w, s.mem, m')
    && LinkSame(s.mem, m', TssOf(w, s.chain[|s.chain| - 1]))
    && forall i :: 0 <= i < |s.chain| - 1 ==> TssSame(s.mem, m', TssOf(w, s.chain[i]))
  }

  lemma GuestKept(w: World, s: State, after: Registers, m': Memory)
    requires Inv(w, s) && LeavesAlone(w, s, after, m')
    ensures Inv(w, State(after, m', s.chain, s.callers))
  {
    hide Index, Read16, ImageAt, ImageOf, InLdt, SystemType, Indexes, MemOk, GdtKept;
    GdtKeptMemOk(w, s.mem, m', Indexes(s.chain));
    forall i | 0 <= i < |s.chain| - 1
      ensures ImageAt(m', TssOf(w, s.chain[i])) == ImageAt(s.mem, TssOf(w, s.chain[i]))
      ensures LinkSame(s.mem, m', TssOf(w, s.chain[i]))
    {
      TssSameMeans(s.mem, m', TssOf(w, s.chain[i]));
    }
    forall i | 1 <= i < |s.chain| ensures Read16(m', TssOf(w, s.chain[i])) == s.chain[i - 1] {
      assert LinkSame(s.mem, m', TssOf(w, s.chain[i]));
    }
  }

  /** A switch that faults before it commits leaves alone what the chain rests on. */
  lemma FaultLeavesAlone(w: World, s: State, after: Registers, m': Memory)
    requires Inv(w, s) && after.tr == s.regs.tr && after.flags.Wf()
    requires SameOutside(s.mem, m', s.regs.tr.base + 32, s.regs.tr.base + 98)
    ensures LeavesAlone(w, s, after, m')
  {
    hide Index, InLdt, MemOk, Recorded, Indexes, Read16;
    var o := Index(s.regs.tr.selector);
    assert Clear(w.tss[o], w.gdt);
    Kept16(s.mem, m', w.tss[o] + 32, w.tss[o] + 98, w.tss[o]);
    forall e | IsEntry(w.gdt, e) ensures BodySame(w, s.mem, m', e) && AccessAt(w, m', e) == AccessAt(w, s.mem, e) {
      forall a | w.gdt.base + e <= a < w.gdt.base + e + 8 ensures Byte(m', a) == Byte(s.mem, a) {
        assert InTable(w.gdt, a);
      }
    }
    forall i | 0 <= i < |s.chain| - 1 ensures TssSame(s.mem, m', TssOf(w, s.chain[i])) {
      assert Index(s.chain[i]) != Index(s.chain[|s.chain| - 1]);
      assert Apart(w.tss[Index(s.chain[i])], w.tss[o]);
    }
  }

  /** So does whatever sets Accessed bits only, as every segment load does. */
  lemma LoadLeavesAlone(w: World, s: State, after: Registers, m': Memory, ldt: Table)
    requires Inv(w, s) && after.tr == s.regs.tr && after.flags.Wf()
    requires OnlyAccessed(s.mem, m', w.gdt, ldt) && (ldt in w.ldts || ldt.limit < 7)
    ensures LeavesAlone(w, s, after, m')
  {
    hide Index, InLdt, MemOk, Recorded, Indexes, Read16, TssSame, GdtKept, OnlyAccessed;
    AccessedStep(w, s.mem, m', ldt, Indexes(s.chain));
    TssSameMeans(s.mem, m', TssOf(w, s.chain[|s.chain| - 1]));
  }

  datatype Step = CallTo(selector: int, trail: Trail) | BackTo(trail: Trail) | Guest

  ghost predicate Next(w: World, s: State, step: Step, s': State) {
    match step
    case CallTo(selector, trail) =>
      && U16(selector) && U16(s'.regs.ldtr.selector) && s'.regs.flags.Wf()
      && Switched(s.regs, s.mem, s'.regs, s'.mem, w.gdt, selector, Call, trail)
      && s'.chain == s.chain + [selector] && s'.callers == s.callers + [s.regs]
    case BackTo(trail) =>
      && |s.chain| >= 2 && |s.callers| >= 1 && U16(s'.regs.ldtr.selector) && s'.regs.flags.Wf()
      && Switched(s.regs, s.mem, s'.regs, s'.mem, w.gdt, Read16(s.mem, s.regs.tr.base), Return, trail)
      && s'.chain == s.chain[..|s.chain| - 1] && s'.callers == s.callers[..|s.callers| - 1]
    case Guest =>
      ChainOk(w, s.chain) && LeavesAlone(w, s, s'.regs, s'.mem) && s'.chain == s.chain && s'.callers == s.callers
  }

  lemma NextKept(w: World, s: State, step: Step, s': State)
    requires Inv(w, s) && Next(w, s, step, s')
    ensures Inv(w, s')
    ensures step.BackTo? ==> Resumes(s.callers[|s.callers| - 1], s'.regs)
    ensures step.CallTo? ==> Index(step.selector) !in Indexes(s.chain)
  {
    hide Inv, Switched, LeavesAlone, ChainOk, Resumes, Index;
    match step
    case CallTo(selector, trail) => CallKept(w, s, s'.regs, s'.mem, selector, trail);
    case BackTo(trail) =>
      CanReturn(w, s);
      ReturnKept(w, s, s'.regs, s'.mem, trail);
    case Guest => GuestKept(w, s, s'.regs, s'.mem);
  }

  /** A run from a single running task. */
  ghost predicate Run(w: World, states: seq<State>, steps: seq<Step>) {
    && |states| == |steps| + 1
    && Inv(w, states[0]) && |states[0].chain| == 1
    && forall k :: 0 <= k < |steps| ==> Next(w, states[k], steps[k], states[k + 1])
  }

  lemma {:induction false} RunInv(w: World, states: seq<State>, steps: seq<Step>, k: nat)
    requires Run(w, states, steps) && k < |states|
    ensures Inv(w, states[k])
    decreases k
  {
    hide Inv, Next;
    if k > 0 {
      RunInv(w, states, steps, k - 1);
      NextKept(w, states[k - 1], steps[k - 1], states[k]);
    }
  }

  /** In every state of every run the busy TSSs are exactly the back-link chain from
      TR, so no task on it can be entered again. */
  lemma RunKept(w: World, states: seq<State>, steps: seq<Step>, k: nat)
    requires Run(w, states, steps) && k < |states|
    ensures Inv(w, states[k])
    ensures forall selector: int :: Index(selector) in Indexes(states[k].chain) ==>
      !Switchable(states[k].mem, w.gdt, selector, Call)
  {
    hide Switchable, Index, Inv, Next, Run;
    RunInv(w, states, steps, k);
    forall selector: int | Index(selector) in Indexes(states[k].chain)
      ensures !Switchable(states[k].mem, w.gdt, selector, Call)
    {
      var i :| 0 <= i < |states[k].chain| && Index(states[k].chain[i]) == Index(selector);
      NoReentry(w, states[k], i, selector);
    }
  }

  /** Over every run the busy TSSs are exactly those the back-links lead to from
      the task register. */
  lemma BusyIsChain(w: World, states: seq<State>, steps: seq<Step>, k: nat)
    requires Run(w, states, steps) && k < |states|
    ensures var s := states[k];
      && ChainOk(w, s.chain) && s.regs.tr.selector == s.chain[|s.chain| - 1]
      && (forall i :: 1 <= i < |s.chain| ==> Read16(s.mem, TssOf(w, s.chain[i])) == s.chain[i - 1])
      && (forall e :: e in w.tss ==>
            (SystemType(AccessAt(w, s.mem, e)) == BUSY_TSS <==>
              exists i :: 0 <= i < |s.chain| && Index(s.chain[i]) == e))
  {
    hide Next, Run, Read16, SystemType, Index, Geometry, EntryOk;
    RunInv(w, states, steps, k);
    var s := states[k];
    forall e | e in w.tss
      ensures SystemType(AccessAt(w, s.mem, e)) == BUSY_TSS <==>
        exists i :: 0 <= i < |s.chain| && Index(s.chain[i]) == e
    {
      assert e in Indexes(s.chain) <==> exists i :: 0 <= i < |s.chain| && Index(s.chain[i]) == e;
    }
  }

  /** While a call has not been returned from, its caller's registers stay in the
      history at its depth. */
  lemma {:induction false} CallerStays(w: World, states: seq<State>, steps: seq<Step>, i: nat, k: nat)
    requires Run(w, states, steps) && i < k < |states| && steps[i].CallTo?
    requires forall j :: i < j <= k ==> |states[j].chain| > |states[i].chain|
    ensures |states[i].callers| < |states[k].callers| && states[k].callers[|states[i].callers|] == states[i].regs
    decreases k
  {
    hide Switched, LeavesAlone, Index, Inv, ChainOk;
    assert Next(w, states[k - 1], steps[k - 1], states[k]);
    RunInv(w, states, steps, k - 1);
    RunInv(w, states, steps, k);
    RunInv(w, states, steps, i);
    Depth(w, states[k - 1]);
    Depth(w, states[k]);
    Depth(w, states[i]);
    if k > i + 1 {
      CallerStays(w, states, steps, i, k - 1);
    }
  }

  lemma Depth(w: World, s: State)
    requires Inv(w, s)
    ensures |s.callers| == |s.chain| - 1
  {
  }

  /** A return resumes the task that made the matching call, however much nested in
      between. */
  lemma ReturnMatchesCall(w: World, states: seq<State>, steps: seq<Step>, i: nat, j: nat)
    requires Run(w, states, steps) && i < j < |steps| && steps[i].CallTo? && steps[j].BackTo?
    requires forall k :: i < k <= j ==> |states[k].chain| > |states[i].chain|
    requires |states[j + 1].chain| == |states[i].chain|
    ensures Resumes(states[i].regs, states[j + 1].regs)
    ensures states[j + 1].regs.tr.selector == states[i].regs.tr.selector
  {
    hide Switched, MemOk, Geometry, LeavesAlone, Index, Resumes;
    CallerStays(w, states, steps, i, j);
    RunInv(w, states, steps, j);
    RunInv(w, states, steps, j + 1);
    RunInv(w, states, steps, i);
    assert Next(w, states[j], steps[j], states[j + 1]);
    NextKept(w, states[j], steps[j], states[j + 1]);
    ChainStays(w, states, steps, i, j);
  }

  lemma {:induction false} ChainStays(w: World, states: seq<State>, steps: seq<Step>, i: nat, k: nat)
    requires Run(w, states, steps) && i < k < |states| && steps[i].CallTo?
    requires forall j :: i < j <= k ==> |states[j].chain| > |states[i].chain|
    ensures |states[k].chain| > |states[i].chain| && states[k].chain[..|states[i].chain|] == states[i].chain
    decreases k
  {
    hide Switched, MemOk, Geometry, LeavesAlone, Index, Inv;
    assert Next(w, states[k - 1], steps[k - 1], states[k]);
    if k > i + 1 {
      ChainStays(w, states, steps, i, k - 1);
    }
  }

  // ----- The core takes these steps ---------------------------------------------

  /** A call to a task, from any state of a run: it is refused, it faults and
      changes nothing the chain rests on, or it is a step of the run. */
  method CallTask(cpu: Cpu, selector: int, ghost w: World, ghost s: State) returns (r: Outcome, ghost trail: Trail)
    requires cpu.Valid() && Inv(w, s) && s.regs == cpu.Regs() && s.mem == cpu.mem && w.gdt == cpu.gdtr && U16(selector)
    modifies cpu
    ensures cpu.Valid()
    ensures Index(selector) in Indexes(s.chain) ==>
      r.Raised? && r.fault.Exception? && r.fault.vector in {GENERAL_PROTECTION,
                                                            PAGE_FAULT} && cpu.Regs() == s.regs && cpu.mem == s.mem
    ensures r.Raised? && r.fault.Exception? ==> Next(w, s, Guest, State(cpu.Regs(), cpu.mem, s.chain, s.callers))
    ensures r.Done? ==>
      Next(w, s, CallTo(selector, trail), State(cpu.Regs(), cpu.mem, s.chain + [selector], s.callers + [s.regs]))
  {
    hide Switched, Switchable, Index, MemOk, Geometry, SameOutside, Recorded, ChainOk, LeavesAlone;
    if Index(selector) in Indexes(s.chain) {
      ghost var i :| 0 <= i < |s.chain| && Index(s.chain[i]) == Index(selector);
      NoReentry(w, s, i, selector);
    }
    SameOutsideItself(cpu.mem, cpu.tr.base + 32, cpu.tr.base + 98);
    r, trail := cpu.TaskSwitch(selector, Call);
    if r.Raised? && r.fault.Exception? {
      FaultLeavesAlone(w, s, cpu.Regs(), cpu.mem);
    }
  }

  /** An IRET with NT set, from any nested state of a run: it faults on a page and
      changes nothing the chain rests on, or it is the return to the caller. */
  method ReturnTask(cpu: Cpu, ghost w: World, ghost s: State) returns (r: Outcome, ghost trail: Trail)
    requires cpu.Valid() && Inv(w, s) && s.regs == cpu.Regs() && s.mem == cpu.mem && w.gdt == cpu.gdtr
    requires |s.chain| >= 2 && cpu.TaskReturn()
    modifies cpu
    ensures cpu.Valid()
    ensures r.Raised? && r.fault.Exception? ==> r.fault.vector == PAGE_FAULT
    ensures r.Raised? && r.fault.Exception? ==> Next(w, s, Guest, State(cpu.Regs(), cpu.mem, s.chain, s.callers))
    ensures r.Done? ==>
      Next(w, s, BackTo(trail), State(cpu.Regs(), cpu.mem, s.chain[..|s.chain| - 1], s.callers[..|s.callers| - 1]))
    ensures r.Done? ==> Resumes(s.callers[|s.callers| - 1], cpu.Regs())
  {
    hide Switched, Switchable, Index, MemOk, Geometry, SameOutside, LeavesAlone, Read16, Resumes, Shows, FlagsOf, Low,
      LoadFlags, Rpl;
    CanReturn(w, s);
    ShowsNothing(cpu.mem, cpu.absent, cpu.seg[SS], cpu.gpr[ESP], Dword);
    r, trail := cpu.Iret(Dword, []);
    if r.Raised? && r.fault.Exception? {
      FaultLeavesAlone(w, s, cpu.Regs(), cpu.mem);
    } else if r.Done? {
      NextKept(w, s, BackTo(trail), State(cpu.Regs(), cpu.mem, s.chain[..|s.chain| - 1], s.callers[..|s.callers| - 1]));
    }
  }
}
