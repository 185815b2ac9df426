/** The two-slot translation cache: one direct-mapped table shared by two page
    directories, flushed in constant time by giving a slot a generation nothing in
    the table carries. */
module TlbModel {
  import opened Wrappers

  const TLB_ENTRIES := 1024
  const WRAP := 0x1_0000_0000

  datatype Entry = Entry(tag: int, phys: int, generation: int, writable: bool, user: bool, dirty: bool)

  /** Generation 0 marks an empty entry and is never minted. */
  const EMPTY := Entry(0, 0, 0, false, false, false)

  function SlotOf(page: int): int { page % TLB_ENTRIES }

  /** The cache as a value. */
  datatype State = State(entries: seq<Entry>, generation: int, generations: seq<int>, live: int, next: int)

  predicate Shaped(s: State) {
    |s.entries| == TLB_ENTRIES && |s.generations| == 2 && 0 <= s.live < 2 && 0 <= s.next < WRAP
    && s.generation == s.generations[s.live]
  }

  function Blank(): seq<Entry> { seq(TLB_ENTRIES, _ => EMPTY) }

  function PowerUp(): State { State(Blank(), 1, [1, 2], 0, 3) }

  function Lookup(s: State, page: int): Option<Entry>
    requires Shaped(s)
  {
    var e := s.entries[SlotOf(page)];
    if e.generation == s.generation && e.tag == page then Some(e) else None
  }

  /** A fresh generation. When the counter has come round the table is cleared. */
  function Minted(s: State): int { if s.next == 0 then 1 else s.next }

  function AfterMint(s: State): State {
    s.(entries := if s.next == 0 then Blank() else s.entries, next := (Minted(s) + 1) % WRAP)
  }

  function Insert(s: State, page: int, e: Entry): State
    requires Shaped(s)
  {
    s.(entries := s.entries[SlotOf(page) := e.(tag := page, generation := s.generation)])
  }

  function Invalidate(s: State, page: int): State
    requires Shaped(s)
  {
    if Lookup(s, page).Some? then s.(entries := s.entries[SlotOf(page) := EMPTY]) else s
  }

  function Select(s: State, slot: int): State
    requires Shaped(s) && 0 <= slot < 2
  {
    s.(live := slot, generation := s.generations[slot])
  }

  /** `slot` takes a fresh generation; the selection is unchanged. */
  function Remint(s: State, slot: int): State
    requires Shaped(s) && 0 <= slot < 2
  {
    var t := AfterMint(s).(generations := s.generations[slot := Minted(s)]);
    t.(generation := t.generations[t.live])
  }

  function Allocate(s: State, slot: int): State
    requires Shaped(s) && 0 <= slot < 2
  {
    Select(Remint(s, slot), slot)
  }

  function FlushLive(s: State): State
    requires Shaped(s)
  {
    Remint(s, s.live)
  }

  function RetireDormant(s: State): State
    requires Shaped(s)
  {
    Remint(s, 1 - s.live)
  }

  function RetireAll(s: State): State
    requires Shaped(s)
  {
    Select(Remint(Remint(s, 0), 1), 0)
  }

  class Tlb {
    const entries: array<Entry>
    var generation: int
    var generations: seq<int>
    var live: int
    var next: int

    ghost predicate Valid()
      reads this, entries
    {
      entries.Length == TLB_ENTRIES && Shaped(View())
    }

    ghost function View(): State
      reads this, entries
    {
      State(entries[..], generation, generations, live, next)
    }

    constructor ()
      ensures Valid() && View() == PowerUp() && fresh(entries)
    {
      entries := new Entry[TLB_ENTRIES](_ => EMPTY);
      generation, generations, live, next := 1, [1, 2], 0, 3;
    }

    method LookupPage(page: int) returns (found: Option<Entry>)
      requires Valid()
      ensures found == Lookup(View(), page)
    {
      var e := entries[SlotOf(page)];
      return if e.generation == generation && e.tag == page then Some(e) else None;
    }

    /** The entry pushed out, of either slot, unless there was none. */
    method InsertPage(page: int, phys: int, writable: bool, user: bool, dirty: bool) returns (displaced: Option<Entry>)
      requires Valid()
      modifies entries
      ensures Valid() && View() == Insert(old(View()), page, Entry(page, phys, 0, writable, user, dirty))
      ensures displaced == if old(entries[SlotOf(page)].generation) != 0 then Some(old(entries[SlotOf(page)])) else None
    {
      var previous := entries[SlotOf(page)];
      entries[SlotOf(page)] := Entry(page, phys, generation, writable, user, dirty);
      return if previous.generation != 0 then Some(previous) else None;
    }

    method InvalidatePage(page: int)
      requires Valid()
      modifies entries
      ensures Valid() && View() == Invalidate(old(View()), page)
    {
      var e := entries[SlotOf(page)];
      if e.generation == generation && e.tag == page {
        entries[SlotOf(page)] := EMPTY;
      }
    }

    method MintGeneration() returns (g: int)
      requires Valid()
      modifies `next, entries
      ensures entries.Length == TLB_ENTRIES && g == Minted(old(View())) && View() == AfterMint(old(View()))
    {
      if next == 0 {
        for i := 0 to TLB_ENTRIES
          invariant forall k :: 0 <= k < i ==> entries[k] == EMPTY
        {
          entries[i] := EMPTY;
        }
        assert entries[..] == Blank();
        next := 1;
      }
      g := next;
      next := (next + 1) % WRAP;
    }

    method SelectGeneration(slot: int)
      requires Valid() && 0 <= slot < 2
      modifies `live, `generation
      ensures Valid() && View() == Select(old(View()), slot)
    {
      live := slot;
      generation := generations[slot];
    }

    method AllocateGeneration(slot: int)
      requires Valid() && 0 <= slot < 2
      modifies this, entries
      ensures Valid() && View() == Allocate(old(View()), slot)
    {
      var g := MintGeneration();
      generations := generations[slot := g];
      live := slot;
      generation := g;
    }

    method FlushLiveSlot()
      requires Valid()
      modifies this, entries
      ensures Valid() && View() == FlushLive(old(View()))
    {
      var g := MintGeneration();
      generations := generations[live := g];
      generation := g;
    }

    method RetireAllSlots()
      requires Valid()
      modifies this, entries
      ensures Valid() && View() == RetireAll(old(View()))
    {
      ghost var start := View();
      var g := MintGeneration();
      generations := generations[0 := g];
      generation := generations[live];
      ghost var middle := View();
      assert middle == Remint(start, 0);
      g := MintGeneration();
      generations := generations[1 := g];
      live := 0;
      generation := generations[0];
    }

    method RetireDormantSlot()
      requires Valid()
      modifies this, entries
      ensures Valid() && View() == RetireDormant(old(View()))
    {
      var g := MintGeneration();
      generations := generations[1 - live := g];
    }
  }

  // ----- Two maps, one per page directory -----------------------------------------

  /** What each slot caches, by page. */
  datatype Maps = Maps(held: seq<map<int, Entry>>, live: int)

  predicate MapsShaped(r: Maps) { |r.held| == 2 && 0 <= r.live < 2 }

  function Without(held: map<int, Entry>, page: int): map<int, Entry> {
    map p | p in held && SlotOf(p) != SlotOf(page) :: held[p]
  }

  function RefLookup(r: Maps, page: int): Option<Entry>
    requires MapsShaped(r)
  {
    if page in r.held[r.live] then Some(r.held[r.live][page]) else None
  }

  /** An insert puts out whatever page shared its place, in both maps. */
  function RefInsert(r: Maps, page: int, e: Entry): Maps
    requires MapsShaped(r)
  {
    var cut := [Without(r.held[0], page), Without(r.held[1], page)];
    r.(held := cut[r.live := cut[r.live][page := e]])
  }

  function RefInvalidate(r: Maps, page: int): Maps
    requires MapsShaped(r)
  {
    r.(held := r.held[r.live := r.held[r.live] - {page}])
  }

  function RefEmpty(r: Maps, slot: int): Maps
    requires MapsShaped(r) && 0 <= slot < 2
  {
    r.(held := r.held[slot := map[]])
  }

  /** Entry `e` without its generation, as the maps keep it. */
  function Bare(e: Entry): Entry { e.(generation := 0) }

  /** `slot` caches exactly the entries of the table that carry its generation. */
  ghost predicate SlotHolds(s: State, held: map<int, Entry>, slot: int)
    requires Shaped(s) && 0 <= slot < 2
  {
    && (forall p :: p in held ==> EntryFor(s, slot, p) && held[p] == Bare(s.entries[SlotOf(p)]))
    && (forall p :: EntryFor(s, slot, p) ==> p in held)
  }

  predicate EntryFor(s: State, slot: int, page: int)
    requires Shaped(s) && 0 <= slot < 2
  {
    var e := s.entries[SlotOf(page)];
    e.generation == s.generations[slot] && e.tag == page
  }

  ghost predicate Represents(s: State, r: Maps) {
    Shaped(s) && MapsShaped(r) && r.live == s.live && SlotHolds(s, r.held[0], 0) && SlotHolds(s, r.held[1], 1)
  }

  /** The two slots can be told apart from each other and from an empty entry. */
  predicate Distinct(s: State)
    requires Shaped(s)
  {
    s.generations[0] != s.generations[1] && s.generations[0] != 0 && s.generations[1] != 0
  }

  /** `lookup` answers for the selected directory's map. */
  lemma LookupIsMap(s: State, r: Maps, page: int)
    requires Represents(s, r)
    ensures match Lookup(s, page)
      case Some(e) => RefLookup(r, page) == Some(Bare(e))
      case None => RefLookup(r, page) == None
  {
    assert EntryFor(s, s.live, page) <==> page in r.held[r.live];
  }

  lemma InsertIsMap(s: State, r: Maps, page: int, e: Entry)
    requires Represents(s, r) && Distinct(s)
    ensures Represents(Insert(s, page, e), RefInsert(r, page, Bare(e.(tag := page))))
  {
    var s' := Insert(s, page, e);
    forall slot, p | 0 <= slot < 2
      ensures EntryFor(s', slot, p) <==>
        (if SlotOf(p) == SlotOf(page) then slot == s.live && p == page else EntryFor(s, slot, p))
    {
    }
  }

  lemma InvalidateIsMap(s: State, r: Maps, page: int)
    requires Represents(s, r) && Distinct(s)
    ensures Represents(Invalidate(s, page), RefInvalidate(r, page))
  {
    var s' := Invalidate(s, page);
    forall slot, p | 0 <= slot < 2
      ensures EntryFor(s', slot, p) <==> (EntryFor(s, slot, p) && !(slot == s.live && p == page))
    {
      if EntryFor(s, slot, p) && SlotOf(p) == SlotOf(page) && p != page { assert s.entries[SlotOf(p)].tag == p; }
    }
  }

  lemma SelectIsMap(s: State, r: Maps, slot: int)
    requires Represents(s, r) && 0 <= slot < 2
    ensures Represents(Select(s, slot), r.(live := slot))
  {
  }

  /** Nothing carries the generation the next mint will hand out. */
  ghost predicate FreshNext(s: State)
    requires Shaped(s)
  {
    && s.next != 0
    && (forall k :: 0 <= k < TLB_ENTRIES ==> s.entries[k].generation < s.next)
    && s.generations[0] < s.next && s.generations[1] < s.next
  }

  lemma RemintIsMap(s: State, r: Maps, slot: int)
    requires Represents(s, r) && Distinct(s) && FreshNext(s) && 0 <= slot < 2
    ensures Represents(Remint(s, slot), RefEmpty(r, slot)) && Distinct(Remint(s, slot))
  {
    var s' := Remint(s, slot);
    forall k, p | 0 <= k < 2 ensures EntryFor(s', k, p) <==> k != slot && EntryFor(s, k, p) {
    }
  }

  // ----- Runs ------------------------------------------------------------------------

  datatype Op = InsertOp(page: int, entry: Entry) | InvalidateOp(page: int) | SelectOp(slot: int)
              | AllocateOp(slot: int) | FlushOp | RetireAllOp | RetireDormantOp
  {
    predicate Legal() { (SelectOp? || AllocateOp?) ==> 0 <= slot < 2 }
    function Mints(): nat { if AllocateOp? || FlushOp? || RetireDormantOp? then 1 else if RetireAllOp? then 2 else 0 }
  }

  function Do(s: State, op: Op): (s': State)
    requires Shaped(s) && op.Legal()
    ensures Shaped(s')
  {
    match op
    case InsertOp(page, entry) => Insert(s, page, entry)
    case InvalidateOp(page) => Invalidate(s, page)
    case SelectOp(slot) => Select(s, slot)
    case AllocateOp(slot) => Allocate(s, slot)
    case FlushOp => FlushLive(s)
    case RetireAllOp => RetireAll(s)
    case RetireDormantOp => RetireDormant(s)
  }

  function RefDo(r: Maps, op: Op): (r': Maps)
    requires MapsShaped(r) && op.Legal()
    ensures MapsShaped(r')
  {
    match op
    case InsertOp(page, entry) => RefInsert(r, page, Bare(entry.(tag := page)))
    case InvalidateOp(page) => RefInvalidate(r, page)
    case SelectOp(slot) => r.(live := slot)
    case AllocateOp(slot) => RefEmpty(r, slot).(live := slot)
    case FlushOp => RefEmpty(r, r.live)
    case RetireAllOp => Maps([map[], map[]], 0)
    case RetireDormantOp => RefEmpty(r, 1 - r.live)
  }

  predicate AllLegal(ops: seq<Op>) { forall k :: 0 <= k < |ops| ==> ops[k].Legal() }

  function Run(ops: seq<Op>): (s: State)
    requires AllLegal(ops)
    ensures Shaped(s)
    decreases |ops|
  {
    if ops == [] then PowerUp() else Do(Run(ops[..|ops| - 1]), ops[|ops| - 1])
  }

  function RefRun(ops: seq<Op>): (r: Maps)
    requires AllLegal(ops)
    ensures MapsShaped(r)
    decreases |ops|
  {
    if ops == [] then Maps([map[], map[]], 0) else RefDo(RefRun(ops[..|ops| - 1]), ops[|ops| - 1])
  }

  function MintCount(ops: seq<Op>): nat
    decreases |ops|
  {
    if ops == [] then 0 else MintCount(ops[..|ops| - 1]) + ops[|ops| - 1].Mints()
  }

  /** Every generation in use is below `bound`, the next to be minted. */
  ghost predicate Below(s: State, bound: int)
    requires Shaped(s)
  {
    && s.next == bound % WRAP && 3 <= bound <= WRAP
    && (forall k :: 0 <= k < TLB_ENTRIES ==> s.entries[k].generation < bound)
    && s.generations[0] < bound && s.generations[1] < bound
  }

  lemma BelowIsFresh(s: State, bound: int)
    requires Shaped(s) && Below(s, bound) && bound < WRAP
    ensures FreshNext(s) && s.next == bound
    ensures forall slot :: 0 <= slot < 2 ==> Below(Remint(s, slot), bound + 1)
  {
  }

  /** One step that mints within the counter's range keeps the two maps. */
  lemma DoIsMap(s: State, r: Maps, op: Op, bound: int)
    requires Represents(s, r) && Distinct(s) && Below(s, bound) && op.Legal() && bound + op.Mints() <= WRAP
    ensures Represents(Do(s, op), RefDo(r, op)) && Distinct(Do(s, op)) && Below(Do(s, op), bound + op.Mints())
  {
    hide Represents, Remint, Below;
    assert Shaped(s) && r.live == s.live by { RepresentsMeans(s, r); }
    RepresentsMeans(s, r);
    match op
    case InsertOp(page, entry) => InsertIsMap(s, r, page, entry); BelowKept(s, op, bound);
    case InvalidateOp(page) => InvalidateIsMap(s, r, page); BelowKept(s, op, bound);
    case SelectOp(slot) => SelectIsMap(s, r, slot); BelowKept(s, op, bound);
    case AllocateOp(slot) =>
      RemintStep(s, r, slot, bound);
      SelectIsMap(Remint(s, slot), RefEmpty(r, slot), slot);
      BelowKept(Remint(s, slot), SelectOp(slot), bound + 1);
    case FlushOp => RemintStep(s, r, s.live, bound);
    case RetireDormantOp => RemintStep(s, r, 1 - s.live, bound);
    case RetireAllOp =>
      RemintStep(s, r, 0, bound);
      RemintStep(Remint(s, 0), RefEmpty(r, 0), 1, bound + 1);
      var emptied := RefEmpty(RefEmpty(r, 0), 1);
      SelectIsMap(Remint(Remint(s, 0), 1), emptied, 0);
      BelowKept(Remint(Remint(s, 0), 1), SelectOp(0), bound + 2);
      assert emptied.held == [map[], map[]];
  }

  lemma RepresentsMeans(s: State, r: Maps)
    requires Represents(s, r)
    ensures Shaped(s) && MapsShaped(r) && r.live == s.live
  {
  }

  lemma BelowKept(s: State, op: Op, bound: int)
    requires Shaped(s) && Below(s, bound) && op.Legal() && op.Mints() == 0
    ensures Below(Do(s, op), bound)
  {
  }

  lemma RemintStep(s: State, r: Maps, slot: int, bound: int)
    requires Represents(s, r) && Distinct(s) && Below(s, bound) && bound < WRAP && 0 <= slot < 2
    ensures Represents(Remint(s, slot), RefEmpty(r, slot)) && Distinct(Remint(s, slot))
            && Below(Remint(s, slot), bound + 1)
    ensures Remint(s, slot).live == s.live
  {
    BelowIsFresh(s, bound);
    RemintIsMap(s, r, slot);
  }

  /** While the counter has not come round, the shared table is two maps, one per
      directory: `lookup` returns what the selected directory's map holds, and
      selecting a slot again revives exactly what was not put out meanwhile. */
  lemma {:induction false} NoWrapRun(ops: seq<Op>)
    requires AllLegal(ops) && 3 + MintCount(ops) <= WRAP
    ensures Represents(Run(ops), RefRun(ops)) && Distinct(Run(ops)) && Below(Run(ops), 3 + MintCount(ops))
    ensures forall page :: match Lookup(Run(ops), page)
      case Some(e) => RefLookup(RefRun(ops), page) == Some(Bare(e)) case None => RefLookup(RefRun(ops), page) == None
    decreases |ops|
  {
    hide Do, RefDo, Represents, Below, Lookup, RefLookup;
    if ops == [] {
      PowerUpHolds();
    } else {
      NoWrapRun(ops[..|ops| - 1]);
      DoIsMap(Run(ops[..|ops| - 1]), RefRun(ops[..|ops| - 1]), ops[|ops| - 1], 3 + MintCount(ops[..|ops| - 1]));
    }
    forall page ensures match Lookup(Run(ops), page)
      case Some(e) => RefLookup(RefRun(ops), page) == Some(Bare(e)) case None => RefLookup(RefRun(ops), page) == None
    {
      LookupIsMap(Run(ops), RefRun(ops), page);
    }
  }

  lemma PowerUpHolds()
    ensures Represents(PowerUp(), Maps([map[], map[]], 0)) && Distinct(PowerUp()) && Below(PowerUp(), 3)
  {
  }

  // ----- What the maps mean --------------------------------------------------------------

  /** This step, taken while `live` is selected, puts `page` out of `slot`. */
  predicate PutsOut(op: Op, live: int, slot: int, page: int) {
    match op
    case InsertOp(other, _) => SlotOf(other) == SlotOf(page) && !(other == page && live == slot)
    case InvalidateOp(other) => other == page && live == slot
    case SelectOp(_) => false
    case AllocateOp(taken) => taken == slot
    case FlushOp => live == slot
    case RetireAllOp => true
    case RetireDormantOp => live != slot
  }

  /** The last insert of `page` under `slot` with nothing to put it out since. */
  predicate StandsSince(ops: seq<Op>, i: int, slot: int, page: int)
    requires AllLegal(ops) && 0 <= i < |ops|
  {
    && ops[i].InsertOp? && ops[i].page == page && RefRun(ops[..i]).live == slot
    && forall j :: i < j < |ops| ==>
         && !PutsOut(ops[j], RefRun(ops[..j]).live, slot, page)
         && !(ops[j].InsertOp? && ops[j].page == page && RefRun(ops[..j]).live == slot)
  }

  /** A slot holds a page if and only if the page's last insert under it stands, and
      then what it holds is what that insert put there. */
  lemma {:induction false} HeldIsLastInsert(ops: seq<Op>, slot: int, page: int)
    requires AllLegal(ops) && 0 <= slot < 2
    ensures page in RefRun(ops).held[slot] <==> exists i :: 0 <= i < |ops| && StandsSince(ops, i, slot, page)
    ensures forall i :: 0 <= i < |ops| && StandsSince(ops, i, slot, page) ==>
      page in RefRun(ops).held[slot] && RefRun(ops).held[slot][page] == Bare(ops[i].entry.(tag := page))
    decreases |ops|
  {
    hide PutsOut, StandsSince, RefDo;
    if ops != [] {
      var front, last := ops[..|ops| - 1], ops[|ops| - 1];
      assert ops == front + [last];
      HeldIsLastInsert(front, slot, page);
      LastStep(RefRun(front), last, slot, page);
      forall i | 0 <= i < |front|
        ensures StandsSince(ops, i, slot, page) <==>
          && StandsSince(front, i, slot, page) && !PutsOut(last, RefRun(front).live, slot, page)
          && !(last.InsertOp? && last.page == page && RefRun(front).live == slot)
      {
        StandsMore(front, last, i, slot, page);
      }
      StandsLast(front, last, slot, page);
    }
  }

  lemma LastStep(r: Maps, op: Op, slot: int, page: int)
    requires MapsShaped(r) && op.Legal() && 0 <= slot < 2
    ensures var here := op.InsertOp? && op.page == page && r.live == slot;
      page in RefDo(r, op).held[slot] <==> here || (page in r.held[slot] && !PutsOut(op, r.live, slot, page))
    ensures var here := op.InsertOp? && op.page == page && r.live == slot;
      page in RefDo(r, op).held[slot] ==>
        RefDo(r, op).held[slot][page] == if here then Bare(op.entry.(tag := page)) else r.held[slot][page]
  {
  }

  lemma StandsMore(front: seq<Op>, last: Op, i: int, slot: int, page: int)
    requires AllLegal(front) && last.Legal() && 0 <= i < |front|
    ensures AllLegal(front + [last])
    ensures StandsSince(front + [last], i, slot, page) <==>
      && StandsSince(front, i, slot, page) && !PutsOut(last, RefRun(front).live, slot, page)
      && !(last.InsertOp? && last.page == page && RefRun(front).live == slot)
  {
    hide PutsOut, RefRun;
    var ops := front + [last];
    assert ops[..|front|] == front && ops[..i] == front[..i];
    assert forall j :: 0 <= j <= |front| ==> ops[..j] == front[..j];
    assert forall j :: 0 <= j < |front| ==> ops[j] == front[j];
  }

  lemma StandsLast(front: seq<Op>, last: Op, slot: int, page: int)
    requires AllLegal(front) && last.Legal()
    ensures AllLegal(front + [last])
    ensures StandsSince(front + [last], |front|, slot, page) <==>
      last.InsertOp? && last.page == page && RefRun(front).live == slot
  {
    assert (front + [last])[..|front|] == front;
  }

  /** INVLPG: clearing the live entry and retiring the dormant slot leaves the page
      in neither. */
  lemma InvlpgRemoves(r: Maps, page: int)
    requires MapsShaped(r)
    ensures var r' := RefDo(RefDo(r, InvalidateOp(page)), RetireDormantOp); page !in r'.held[0] && page !in r'.held[1]
  {
  }

  /** An insert reports whatever it puts out, live or dormant: any other page's
      entry, or the other directory's for this page, was in a non-empty place. */
  lemma DisplacedIsReported(s: State, r: Maps, page: int, entry: Entry, slot: int, p: int)
    requires Represents(s, r) && Distinct(s) && 0 <= slot < 2 && p in r.held[slot]
    requires p !in RefInsert(r, page, entry).held[slot]
    ensures s.entries[SlotOf(page)].generation != 0 && Bare(s.entries[SlotOf(page)]) == r.held[slot][p]
  {
    assert EntryFor(s, slot, p);
  }

  // ----- When the counter comes round ------------------------------------------------------

  /** An entry of the table, past the clearing a wrap brings, already carries the
      generation about to be minted. */
  ghost predicate Carried(s: State)
    requires Shaped(s)
  {
    && s.next != 0
    && exists k :: 0 <= k < TLB_ENTRIES && s.entries[k].generation == Minted(s) && SlotOf(s.entries[k].tag) == k
  }

  /** A mint does its work, an empty slot that can be told from the other, if and
      only if neither the other slot nor an entry still carries the generation. The
      first wrap clears the table but leaves the other slot's generation alone, so
      only inside the counter's range is this sure. */
  lemma MintWorks(s: State, slot: int)
    requires Shaped(s) && Distinct(s) && 0 <= slot < 2
    ensures Distinct(Remint(s, slot)) && SlotHolds(Remint(s, slot), map[], slot) <==>
            s.generations[1 - slot] != Minted(s) && !Carried(s)
  {
    var s' := Remint(s, slot);
    if Carried(s) {
      var k :| 0 <= k < TLB_ENTRIES && s.entries[k].generation == Minted(s) && SlotOf(s.entries[k].tag) == k;
      assert EntryFor(s', slot, s.entries[k].tag);
    }
    forall p | EntryFor(s', slot, p) ensures Carried(s) {
      assert s'.entries[SlotOf(p)].tag == p;
    }
  }

  /** And telling them apart is what it takes: a page inserted for one directory is
      invisible to the other if and only if their generations differ. */
  lemma ApartOrWrong(s: State)
    requires Shaped(s)
    ensures (forall page: int, e: Entry :: Lookup(Select(Insert(s, page, e), 1 - s.live), page) == None)
            <==> s.generations[0] != s.generations[1]
  {
    if s.generations[0] == s.generations[1] {
      assert Lookup(Select(Insert(s, 0, EMPTY), 1 - s.live), 0).Some?;
    }
  }

  /** A cache whose live slot is flushed over and over. */
  function Flushed(n: nat): (s: State)
    ensures Shaped(s)
  {
    if n == 0 then PowerUp() else FlushLive(Flushed(n - 1))
  }

  lemma {:induction false} FlushedTo(n: nat)
    requires n <= WRAP - 3
    ensures Flushed(n).live == 0 && Flushed(n).next == (n + 3) % WRAP
    ensures Flushed(n).generations == [if n == 0 then 1 else n + 2, 2]
    decreases n
  {
    if n > 0 { FlushedTo(n - 1); }
  }

  /** So the two slots do meet: after 2^32 - 1 flushes of the live slot both hold
      generation 2, and each directory sees the other's pages. */
  lemma FlushesAlias(n: nat)
    requires n == WRAP - 1
    ensures Flushed(n).generations == [2, 2] && !Distinct(Flushed(n))
  {
    FlushedTo(n - 2);
    assert Flushed(n - 1).generations == [1, 2] && Flushed(n - 1).next == 2;
  }
}
