/** The architectural vocabulary of the protected-mode core: bytes in flat memory,
    flag fields, segment registers, stack offsets. Words and dwords are integers
    in their unsigned range; bit fields are taken apart with `/` and `%`. */
module CpuTypes {
  // ----- Memory ----------------------------------------------------------------

  type Memory = map<int, int>

  function Byte(m: Memory, a: int): (b: int)
    ensures 0 <= b < 0x100
  {
    if a in m then m[a] % 0x100 else 0
  }

  function Read16(m: Memory, a: int): (v: int)
    ensures 0 <= v < 0x1_0000
  {
    Byte(m, a) + 0x100 * Byte(m, a + 1)
  }

  function Read32(m: Memory, a: int): (v: int)
    ensures 0 <= v < 0x1_0000_0000
  {
    Read16(m, a) + 0x1_0000 * Read16(m, a + 2)
  }

  function Write8(m: Memory, a: int, v: int): Memory {
    m[a := v % 0x100]
  }

  function Write16(m: Memory, a: int, v: int): Memory {
    Write8(Write8(m, a, v), a + 1, v / 0x100)
  }

  function Write32(m: Memory, a: int, v: int): Memory {
    Write16(Write16(m, a, v), a + 2, v / 0x1_0000)
  }

  /** `m'` agrees with `m` outside the addresses `lo` up to `hi`. */
  ghost predicate SameOutside(m: Memory, m': Memory, lo: int, hi: int) {
    forall a :: a < lo || hi <= a ==> Byte(m', a) == Byte(m, a)
  }

  lemma Written16(m: Memory, a: int, v: int)
    requires 0 <= v < 0x1_0000
    ensures Read16(Write16(m, a, v), a) == v
    ensures SameOutside(m, Write16(m, a, v), a, a + 2)
  {
  }

  lemma Written32(m: Memory, a: int, v: int)
    requires 0 <= v < 0x1_0000_0000
    ensures Read32(Write32(m, a, v), a) == v
    ensures SameOutside(m, Write32(m, a, v), a, a + 4)
  {
    var low, high := v % 0x1_0000, v / 0x1_0000;
    LowHalf(m, a, v);
    Written16(m, a, low);
    Written16(Write16(m, a, low), a + 2, high);
    Kept16(Write16(m, a, low), Write32(m, a, v), a + 2, a + 4, a);
  }

  lemma LowHalf(m: Memory, a: int, v: int)
    requires 0 <= v
    ensures Write16(m, a, v) == Write16(m, a, v % 0x1_0000)
  {
    assert v / 0x100 % 0x100 == v % 0x1_0000 / 0x100 && v % 0x100 == v % 0x1_0000 % 0x100;
  }

  lemma Kept16(m: Memory, m': Memory, lo: int, hi: int, a: int)
    requires SameOutside(m, m', lo, hi) && (a + 2 <= lo || hi <= a)
    ensures Read16(m', a) == Read16(m, a)
  {
  }

  lemma Kept32(m: Memory, m': Memory, lo: int, hi: int, a: int)
    requires SameOutside(m, m', lo, hi) && (a + 4 <= lo || hi <= a)
    ensures Read32(m', a) == Read32(m, a)
  {
  }

  // ----- EFLAGS ----------------------------------------------------------------

  /** EFLAGS by field: `one` is the fixed bit 1, the `r` fields are the bits no
      rule here looks at (0, 2-7, 10-11, 15, 16, 19-20, 22-31). */
  datatype Flags = Flags(
    r0: int, one: bool, r2: int, trap: bool, interrupts: bool, r10: int, iopl: int, nested: bool,
    r15: int, r16: int, vm: bool, alignment: bool, r19: int, id: bool, r22: int)
  {
    predicate Wf() {
      && 0 <= r0 < 2 && 0 <= r2 < 0x40 && 0 <= r10 < 4 && 0 <= iopl < 4 && 0 <= r15 < 2 && 0 <= r16 < 2
      && 0 <= r19 < 4 && 0 <= r22 < 0x400
    }

    // The dword, assembled from the top field down: each step shifts left by one
    // field's width and adds the field.
    function Top(): int { r22 * 2 + Bit(id) }
    function Upper(): int { ((Top() * 4 + r19) * 2 + Bit(alignment)) * 2 + Bit(vm) }
    function Middle(): int { (((Upper() * 2 + r16) * 2 + r15) * 2 + Bit(nested)) * 4 + iopl }
    function Lower(): int { ((Middle() * 4 + r10) * 2 + Bit(interrupts)) * 2 + Bit(trap) }
    function Image(): int { ((Lower() * 0x40 + r2) * 2 + Bit(one)) * 2 + r0 }
  }

  function Bit(b: bool): int { if b then 1 else 0 }

  /** The fields of an EFLAGS image, peeled off from the bottom up. */
  function FlagsOf(image: int): Flags {
    var lower := image / 2 / 2 / 0x40;
    var middle := lower / 2 / 2 / 4;
    var upper := middle / 4 / 2 / 2 / 2;
    var top := upper / 2 / 2 / 4;
    Flags(image % 2, image / 2 % 2 == 1, image / 2 / 2 % 0x40,
          lower % 2 == 1, lower / 2 % 2 == 1, lower / 2 / 2 % 4,
          middle % 4, middle / 4 % 2 == 1, middle / 4 / 2 % 2, middle / 4 / 2 / 2 % 2,
          upper % 2 == 1, upper / 2 % 2 == 1, upper / 2 / 2 % 4, top % 2 == 1, top / 2)
  }

  lemma Peel2(q: int, d: int)
    requires 0 <= d < 2
    ensures (q * 2 + d) / 2 == q && (q * 2 + d) % 2 == d
  {
  }

  lemma Peel4(q: int, d: int)
    requires 0 <= d < 4
    ensures (q * 4 + d) / 4 == q && (q * 4 + d) % 4 == d
  {
  }

  lemma Peel64(q: int, d: int)
    requires 0 <= d < 0x40
    ensures (q * 0x40 + d) / 0x40 == q && (q * 0x40 + d) % 0x40 == d
  {
  }

  lemma PeelBottom(x: int, lower: int, r2: int, one: bool, r0: int)
    requires 0 <= r2 < 0x40 && 0 <= r0 < 2 && x == ((lower * 0x40 + r2) * 2 + Bit(one)) * 2 + r0
    ensures x % 2 == r0 && x / 2 % 2 == Bit(one) && x / 2 / 2 % 0x40 == r2 && x / 2 / 2 / 0x40 == lower
  {
    Peel2((lower * 0x40 + r2) * 2 + Bit(one), r0);
    Peel2(lower * 0x40 + r2, Bit(one));
    Peel64(lower, r2);
  }

  lemma PeelLower(x: int, middle: int, r10: int, interrupts: bool, trap: bool)
    requires 0 <= r10 < 4 && x == ((middle * 4 + r10) * 2 + Bit(interrupts)) * 2 + Bit(trap)
    ensures x % 2 == Bit(trap) && x / 2 % 2 == Bit(interrupts) && x / 2 / 2 % 4 == r10 && x / 2 / 2 / 4 == middle
  {
    Peel2((middle * 4 + r10) * 2 + Bit(interrupts), Bit(trap));
    Peel2(middle * 4 + r10, Bit(interrupts));
    Peel4(middle, r10);
  }

  lemma PeelMiddle(x: int, upper: int, r16: int, r15: int, nested: bool, iopl: int)
    requires 0 <= r16 < 2 && 0 <= r15 < 2 && 0 <= iopl < 4
    requires x == (((upper * 2 + r16) * 2 + r15) * 2 + Bit(nested)) * 4 + iopl
    ensures x % 4 == iopl && x / 4 % 2 == Bit(nested) && x / 4 / 2 % 2 == r15
    ensures x / 4 / 2 / 2 % 2 == r16 && x / 4 / 2 / 2 / 2 == upper
  {
    Peel4(((upper * 2 + r16) * 2 + r15) * 2 + Bit(nested), iopl);
    Peel2((upper * 2 + r16) * 2 + r15, Bit(nested));
    Peel2(upper * 2 + r16, r15);
    Peel2(upper, r16);
  }

  lemma PeelTop(x: int, r22: int, id: bool)
    requires x == r22 * 2 + Bit(id)
    ensures x % 2 == Bit(id) && x / 2 == r22
  {
    Peel2(r22, Bit(id));
  }

  /** The image of a flags value reads back as that value. */
  lemma FlagsRoundTrip(f: Flags)
    requires f.Wf()
    ensures FlagsOf(f.Image()) == f
  {
    Assembled(f, f.Image(), f.Lower(), f.Middle(), f.Upper(), f.Top());
  }

  lemma Assembled(f: Flags, image: int, lower: int, middle: int, upper: int, top: int)
    requires f.Wf()
    requires image == ((lower * 0x40 + f.r2) * 2 + Bit(f.one)) * 2 + f.r0
    requires lower == ((middle * 4 + f.r10) * 2 + Bit(f.interrupts)) * 2 + Bit(f.trap)
    requires middle == (((upper * 2 + f.r16) * 2 + f.r15) * 2 + Bit(f.nested)) * 4 + f.iopl
    requires upper == ((top * 4 + f.r19) * 2 + Bit(f.alignment)) * 2 + Bit(f.vm)
    requires top == f.r22 * 2 + Bit(f.id)
    ensures FlagsOf(image) == f
  {
    hide FlagsOf, Bit;
    PeelBottom(image, lower, f.r2, f.one, f.r0);
    PeelLower(lower, middle, f.r10, f.interrupts, f.trap);
    PeelMiddle(middle, upper, f.r16, f.r15, f.nested, f.iopl);
    PeelLower(upper, top, f.r19, f.alignment, f.vm);
    PeelTop(top, f.r22, f.id);
    Fields(f, image, lower, middle, upper, top);
  }

  lemma Fields(f: Flags, image: int, lower: int, middle: int, upper: int, top: int)
    requires lower == image / 2 / 2 / 0x40 && middle == lower / 2 / 2 / 4
    requires upper == middle / 4 / 2 / 2 / 2 && top == upper / 2 / 2 / 4
    requires image % 2 == f.r0 && image / 2 % 2 == Bit(f.one) && image / 2 / 2 % 0x40 == f.r2
    requires lower % 2 == Bit(f.trap) && lower / 2 % 2 == Bit(f.interrupts) && lower / 2 / 2 % 4 == f.r10
    requires middle % 4 == f.iopl && middle / 4 % 2 == Bit(f.nested) && middle / 4 / 2 % 2 == f.r15
             && middle / 4 / 2 / 2 % 2 == f.r16
    requires upper % 2 == Bit(f.vm) && upper / 2 % 2 == Bit(f.alignment) && upper / 2 / 2 % 4 == f.r19
    requires top % 2 == Bit(f.id) && top / 2 == f.r22
    ensures FlagsOf(image) == f
  {
  }

  lemma ImageInRange(f: Flags)
    requires f.Wf()
    ensures 0 <= f.Image() < 0x1_0000_0000
  {
    assert 0 <= f.Top() < 0x800;
    assert 0 <= f.Upper() < 0x8000;
    assert 0 <= f.Middle() < 0x10_0000;
    assert 0 <= f.Lower() < 0x100_0000;
  }

  lemma FlagsOfWf(image: int)
    requires 0 <= image < 0x1_0000_0000
    ensures FlagsOf(image).Wf()
  {
    var lower := image / 2 / 2 / 0x40;
    var middle := lower / 2 / 2 / 4;
    var upper := middle / 4 / 2 / 2 / 2;
    var top := upper / 2 / 2 / 4;
    assert 0 <= lower < 0x100_0000;
    assert 0 <= middle < 0x10_0000;
    assert 0 <= upper < 0x8000;
    assert 0 <= top < 0x800;
  }

  datatype Persona = I386 | I486 | I586
  datatype Size = Word | Dword {
    function Bytes(): int { if Word? then 2 else 4 }
  }

  /** What POPF and every IRET form do to EFLAGS: IOPL moves only at level 0, IF
      only at a level no greater than IOPL, VM only on the return into V86, and
      the flags a persona lacks keep their live value. */
  function LoadFlags(live: Flags, value: Flags, size: Size, cpl: int, allowVm: bool, persona: Persona): Flags {
    var iopl := if cpl != 0 then live.iopl else value.iopl;
    var high := if size.Word? then live else value;
    Flags(value.r0, true, value.r2, value.trap,
          if cpl > iopl then live.interrupts else value.interrupts,
          value.r10, iopl, value.nested, value.r15,
          high.r16, if allowVm then high.vm else live.vm,
          if persona.I386? then live.alignment else high.alignment,
          high.r19, if persona.I586? then high.id else live.id, high.r22)
  }

  /** What entering a handler leaves of the flags. */
  function HandlerFlags(f: Flags, interruptGate: bool): Flags {
    f.(vm := false, nested := false, trap := false, one := true, interrupts := f.interrupts && !interruptGate)
  }

  // ----- Segments --------------------------------------------------------------

  const ES := 0
  const CS := 1
  const SS := 2
  const DS := 3
  const FS := 4
  const GS := 5

  datatype Segment = Segment(selector: int, base: int, limit: int, access: int, big: bool)

  /** The 8086-style segment a selector names. */
  function Real(selector: int): Segment {
    Segment(selector, selector * 16, 0xffff, 0x93, false)
  }

  function Unusable(selector: int): Segment {
    Segment(selector, 0, 0, 0, false)
  }

  datatype Table = Table(base: int, limit: int)

  function Rpl(selector: int): int { selector % 4 }
  predicate InLdt(selector: int) { selector / 4 % 2 == 1 }
  function Index(selector: int): int { selector / 8 * 8 }
  predicate NullSelector(selector: int) { selector / 4 == 0 }

  /** An exception's error code. */
  type ErrorCode = x: int | 0 <= x < 0x1_0000_0000

  /** The error code a bad selector carries: its index and table. */
  function SelectorCode(selector: int): ErrorCode
    requires 0 <= selector < 0x1_0000
  {
    Index(selector) + if InLdt(selector) then 4 else 0
  }

  // Access byte of a descriptor's high dword, and its fields.
  function Access(high: int): int { high / 0x100 % 0x100 }
  predicate Present(access: int) { access / 0x80 % 2 == 1 }
  function Dpl(access: int): int { access / 0x20 % 4 }
  predicate CodeOrData(access: int) { access / 0x10 % 2 == 1 }
  predicate Code(access: int) { CodeOrData(access) && access / 0x8 % 2 == 1 }
  predicate Conforming(access: int) { Code(access) && access / 0x4 % 2 == 1 }
  predicate ReadWrite(access: int) { access / 0x2 % 2 == 1 }
  predicate Accessed(access: int) { access % 2 == 1 }
  function SystemType(access: int): int { access % 0x20 }

  const AVAILABLE_TSS := 0x09
  const BUSY_TSS := 0x0b

  function Decode(selector: int, low: int, high: int): Segment {
    var base := low / 0x1_0000 + high % 0x100 * 0x1_0000 + high / 0x100_0000 * 0x100_0000;
    var raw := low % 0x1_0000 + high / 0x1_0000 % 0x10 * 0x1_0000;
    var limit := if high / 0x80_0000 % 2 == 1 then raw * 0x1000 + 0xfff else raw;
    Segment(selector, base, limit, Access(high), high / 0x40_0000 % 2 == 1)
  }

  /** The kinds of descriptor each segment register can hold. */
  predicate TypeLegal(which: int, access: int) {
    if which == CS then Code(access)
    else if which == SS then CodeOrData(access) && !Code(access) && ReadWrite(access)
    else CodeOrData(access) && (!Code(access) || ReadWrite(access))
  }

  // ----- Stack offsets ---------------------------------------------------------

  /** The offset `delta` bytes above the top of stack: SS.B picks the width. */
  function Offset(ss: Segment, esp: int, delta: int): (o: int)
    ensures 0 <= o < 0x1_0000_0000
  {
    if ss.big then (esp + delta) % 0x1_0000_0000 else (esp % 0x1_0000 + delta) % 0x1_0000
  }

  /** ESP moved by `delta`: a 16-bit stack keeps the high word. */
  function Moved(ss: Segment, esp: int, delta: int): int {
    if ss.big then (esp + delta) % 0x1_0000_0000
    else esp / 0x1_0000 * 0x1_0000 + (esp % 0x1_0000 + delta) % 0x1_0000
  }

  /** The stack pointer is a multiple of the size of what goes through it. */
  predicate InLine(ss: Segment, esp: int, size: Size) {
    Offset(ss, esp, 0) % size.Bytes() == 0
  }

  /** A push is aligned exactly if the stack is in line, and leaves it as it was. */
  lemma LineKept(ss: Segment, esp: int, size: Size)
    requires 0 <= esp < 0x1_0000_0000
    ensures Offset(ss, esp, -size.Bytes()) % size.Bytes() == 0 <==> InLine(ss, esp, size)
    ensures InLine(ss, Moved(ss, esp, -size.Bytes()), size) <==> InLine(ss, esp, size)
  {
    hide Offset, Moved, Size.Bytes;
    MovedOffset(ss, esp, -size.Bytes(), 0);
    OffsetResidue(ss, esp, 0, size);
    OffsetResidue(ss, esp, -size.Bytes(), size);
    OneLess(if ss.big then esp else esp % 0x1_0000, size);
  }

  lemma OffsetResidue(ss: Segment, esp: int, d: int, size: Size)
    ensures Offset(ss, esp, d) % size.Bytes() == ((if ss.big then esp else esp % 0x1_0000) + d) % size.Bytes()
  {
    hide Size.Bytes;
    if ss.big { Residue32(esp + d, size); } else { Residue16(esp % 0x1_0000 + d, size); }
  }

  lemma OneLess(x: int, size: Size)
    ensures (x - size.Bytes()) % size.Bytes() == x % size.Bytes() == (x + 0) % size.Bytes()
  {
    if size.Word? { Multiple2(x, -1); } else { Multiple4(x, -1); }
  }

  lemma Residue16(x: int, size: Size)
    ensures x % 0x1_0000 % size.Bytes() == x % size.Bytes()
  {
    var q := x / 0x1_0000;
    if size.Word? { Multiple2(x % 0x1_0000, 0x8000 * q); } else { Multiple4(x % 0x1_0000, 0x4000 * q); }
  }

  lemma Residue32(x: int, size: Size)
    ensures x % 0x1_0000_0000 % size.Bytes() == x % size.Bytes()
  {
    var q := x / 0x1_0000_0000;
    if size.Word? {
      Multiple2(x % 0x1_0000_0000, 0x8000_0000 * q);
    } else {
      Multiple4(x % 0x1_0000_0000, 0x4000_0000 * q);
    }
  }

  lemma Multiple2(x: int, k: int)
    ensures (x + 2 * k) % 2 == x % 2
  {
  }

  lemma Multiple4(x: int, k: int)
    ensures (x + 4 * k) % 4 == x % 4
  {
  }

  lemma DwordLine(ss: Segment, esp: int)
    requires InLine(ss, esp, Dword)
    ensures InLine(ss, esp, Word)
  {
    hide Offset;
    Multiple2(0, 2 * (Offset(ss, esp, 0) / 4));
  }

  function Linear(ss: Segment, offset: int): int {
    (ss.base + offset) % 0x1_0000_0000
  }

  /** The limit check of a protected-mode access of `width` bytes. */
  predicate InLimit(ss: Segment, offset: int, width: int) {
    var last := if offset + width - 1 > 0xffff_ffff then 0xffff_ffff else offset + width - 1;
    if ss.base == 0 && ss.limit == 0xffff_ffff then true
    else if ss.access / 0x8 % 4 == 2 && ss.access / 0x4 % 2 == 1
    then offset > ss.limit && last <= (if ss.big then 0xffff_ffff else 0xffff)
    else offset <= ss.limit && last <= ss.limit
  }

  /** A data segment that may be written may be read. */
  predicate Writable(access: int) { access / 0x8 % 2 == 0 && ReadWrite(access) }
  predicate Readable(access: int) { access / 0x8 % 2 == 0 || ReadWrite(access) }

  function Page(a: int): int { a / 0x1000 }

  /** Both ends of an access fall on present pages. */
  predicate Mapped(absent: set<int>, a: int, width: int) {
    Page(a) !in absent && Page(a + width - 1) !in absent
  }

  function ReadAt(m: Memory, size: Size, a: int): (v: int)
    ensures 0 <= v < 0x1_0000_0000 && (size.Word? ==> v < 0x1_0000)
  {
    if size.Word? then Read16(m, a) else Read32(m, a)
  }

  function WriteAt(m: Memory, size: Size, a: int, v: int): Memory {
    if size.Word? then Write16(m, a, v) else Write32(m, a, v)
  }

  /** What a slot of this width keeps of a value. */
  function Cut(v: int, size: Size): int {
    if size.Word? then v % 0x1_0000 else v
  }

  lemma WrittenAt(m: Memory, size: Size, a: int, v: int)
    requires 0 <= v < 0x1_0000_0000
    ensures ReadAt(WriteAt(m, size, a, v), size, a) == Cut(v, size)
    ensures SameOutside(m, WriteAt(m, size, a, v), a, a + size.Bytes())
  {
    if size.Word? {
      LowHalf(m, a, v);
      Written16(m, a, v % 0x1_0000);
    } else {
      Written32(m, a, v);
    }
  }

  lemma KeptAt(m: Memory, m': Memory, lo: int, hi: int, size: Size, a: int)
    requires SameOutside(m, m', lo, hi) && (a + size.Bytes() <= lo || hi <= a)
    ensures ReadAt(m', size, a) == ReadAt(m, size, a)
  {
    if size.Word? { Kept16(m, m', lo, hi, a); } else { Kept32(m, m', lo, hi, a); }
  }

  /** The values a stack shows above its top, first popped first. */
  predicate Shows(m: Memory, absent: set<int>, ss: Segment, esp: int, size: Size, values: seq<int>) {
    forall k :: 0 <= k < |values| ==> Slot(m, absent, ss, esp, size, k, values[k])
  }

  predicate Slot(m: Memory, absent: set<int>, ss: Segment, esp: int, size: Size, k: nat, value: int) {
    var o := Offset(ss, esp, size.Bytes() * k);
    && InLimit(ss, o, size.Bytes()) && Mapped(absent, Linear(ss, o), size.Bytes())
    && ReadAt(m, size, Linear(ss, o)) == value
  }

  lemma Step16(x: int, d: int)
    requires 0 <= d <= 128
    ensures var gap := (x + d) % 0x1_0000 - x % 0x1_0000 - d; gap == 0 || gap == -0x1_0000
  {
  }

  lemma Step32(x: int, d: int)
    requires 0 <= d <= 128
    ensures var gap := (x + d) % 0x1_0000_0000 - x % 0x1_0000_0000 - d; gap == 0 || gap == -0x1_0000_0000
  {
  }

  lemma OffsetGap(ss: Segment, esp: int, d: int, e: int)
    requires -64 <= d < e <= 64
    ensures var gap := Offset(ss, esp, e) - Offset(ss, esp, d) - (e - d);
      gap == 0 || gap == -0x1_0000 || gap == -0x1_0000_0000
  {
    if ss.big {
      Step32(esp + d, e - d);
    } else {
      Step16(esp % 0x1_0000 + d, e - d);
    }
  }

  lemma LinearGap(ss: Segment, x: int, y: int)
    ensures var gap := Linear(ss, y) - Linear(ss, x) - (y - x); gap % 0x1_0000_0000 == 0
  {
  }

  /** Distinct slots of one stack never share a byte. */
  lemma SlotsApart(ss: Segment, esp: int, d: int, e: int, width: int)
    requires -64 <= d && d + width <= e <= 64 && 0 < width <= 4
    ensures var a := Linear(ss, Offset(ss, esp, d)); var b := Linear(ss, Offset(ss, esp, e));
      a + width <= b || b + width <= a
  {
    OffsetGap(ss, esp, d, e);
    LinearGap(ss, Offset(ss, esp, d), Offset(ss, esp, e));
  }

  lemma MovedOffset(ss: Segment, esp: int, d: int, e: int)
    requires 0 <= esp < 0x1_0000_0000
    ensures Offset(ss, Moved(ss, esp, d), e) == Offset(ss, esp, d + e)
    ensures Moved(ss, Moved(ss, esp, d), e) == Moved(ss, esp, d + e)
    ensures 0 <= Moved(ss, esp, d) < 0x1_0000_0000
  {
    if ss.big {
      Twice32(esp + d, e);
    } else {
      var low := (esp % 0x1_0000 + d) % 0x1_0000;
      assert Moved(ss, esp, d) % 0x1_0000 == low && Moved(ss, esp, d) / 0x1_0000 == esp / 0x1_0000;
      Twice16(esp % 0x1_0000 + d, e);
    }
  }

  lemma Twice16(x: int, e: int)
    ensures (x % 0x1_0000 + e) % 0x1_0000 == (x + e) % 0x1_0000
  {
  }

  lemma Twice32(x: int, e: int)
    ensures (x % 0x1_0000_0000 + e) % 0x1_0000_0000 == (x + e) % 0x1_0000_0000
  {
  }

  lemma MovedBack(ss: Segment, esp: int)
    requires 0 <= esp < 0x1_0000_0000
    ensures Moved(ss, esp, 0) == esp
  {
  }

  /** Pushing a value shows it on top of what was shown. */
  lemma PushShows(m: Memory, absent: set<int>, ss: Segment, esp: int, size: Size, values: seq<int>, v: int)
    requires 0 <= esp < 0x1_0000_0000 && 0 <= v < 0x1_0000_0000
    requires |values| <= 12 && Shows(m, absent, ss, esp, size, values)
    requires var o := Offset(ss, esp, -size.Bytes());
      InLimit(ss, o, size.Bytes()) && Mapped(absent, Linear(ss, o), size.Bytes())
    ensures var m' := WriteAt(m, size, Linear(ss, Offset(ss, esp, -size.Bytes())), v);
      Shows(m', absent, ss, Moved(ss, esp, -size.Bytes()), size, [Cut(v, size)] + values)
  {
    hide ReadAt, WriteAt, Offset, Moved, Linear, InLimit, SameOutside;
    var w := size.Bytes();
    var at := Linear(ss, Offset(ss, esp, -w));
    var m' := WriteAt(m, size, at, v);
    var all := [Cut(v, size)] + values;
    WrittenAt(m, size, at, v);
    forall k | 0 <= k < |all|
      ensures Slot(m', absent, ss, Moved(ss, esp, -w), size, k, all[k])
    {
      MovedOffset(ss, esp, -w, w * k);
      if k > 0 {
        assert Slot(m, absent, ss, esp, size, k - 1, values[k - 1]);
        SlotsApart(ss, esp, -w, w * (k - 1), w);
        KeptAt(m, m', at, at + w, size, Linear(ss, Offset(ss, esp, w * (k - 1))));
      }
    }
  }

  /** Popping a value leaves the rest on show. */
  lemma PopShows(m: Memory, absent: set<int>, ss: Segment, esp: int, size: Size, values: seq<int>)
    requires 0 <= esp < 0x1_0000_0000 && values != [] && Shows(m, absent, ss, esp, size, values)
    ensures Shows(m, absent, ss, Moved(ss, esp, size.Bytes()), size, values[1..])
    ensures Slot(m, absent, ss, esp, size, 0, values[0])
  {
    hide ReadAt, Offset, Moved, Linear, InLimit;
    var w := size.Bytes();
    forall k | 0 <= k < |values| - 1
      ensures Slot(m, absent, ss, Moved(ss, esp, w), size, k, values[1..][k])
    {
      MovedOffset(ss, esp, w, w * k);
      assert Slot(m, absent, ss, esp, size, k + 1, values[k + 1]);
    }
  }
}
