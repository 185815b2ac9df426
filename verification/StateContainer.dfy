/** The canonical state container: a header, then sections in strictly increasing
    order, each with its length in front. The writer appends into one byte vector
    and takes a failed section back out; the parser accepts exactly what a writer
    can produce, up to the minor version. */
module StateContainer {
  import opened Wrappers
  import opened LittleEndian

  datatype Result<T> = Ok(value: T) | Err(error: Error)

  const MAGIC: seq<Byte> := [0x49, 0x5a, 0x43, 0x53, 0x54, 0x41, 0x54, 0x45]
  const HEADER_LEN := 20
  const SECTION_HEADER_LEN := 16

  /** The longest byte vector there can be, and the largest index. */
  const MAX_LEN := 0x7fff_ffff_ffff_ffff
  const MAX_INDEX := 0xffff_ffff_ffff_ffff

  datatype Error =
    | AllocationFailed | LengthOverflow | SectionCountOverflow
    | SectionOutOfOrder(previous: int, next: int)
    | TruncatedHeader | InvalidMagic | UnsupportedMajorVersion(major: int) | UnsupportedHeaderFlags(flags: int)
    | TruncatedSectionHeader(index: int) | ReservedSectionId | ReservedSectionVersion(id: int)
    | UnsupportedSectionFlags(section: int, found: int)
    | TruncatedSectionPayload(truncated: int, declared: int, remaining: int)
    | TrailingBytes(count: int)

  // ----- The format ---------------------------------------------------------------

  datatype Section = Section(id: nat, version: nat, optional: bool, payload: seq<Byte>)
  datatype View = View(minor: nat, sections: seq<Section>)

  predicate SectionOk(s: Section) { 0 < s.id < 0x1_0000_0000 && 0 < s.version < 0x1_0000 && |s.payload| <= MAX_LEN }

  /** Well-formed sections in strictly increasing order, all above `last`. */
  ghost predicate Ordered(sections: seq<Section>, last: int)
    decreases |sections|
  {
    sections == [] || (SectionOk(sections[0]) && sections[0].id > last && Ordered(sections[1..], sections[0].id))
  }

  function SectionHead(s: Section): (b: seq<Byte>)
    ensures |b| == SECTION_HEADER_LEN
  {
    Le(s.id, 4) + Le(s.version, 2) + Le(if s.optional then 1 else 0, 2) + Le(|s.payload|, 8)
  }

  function SectionBytes(s: Section): seq<Byte> { SectionHead(s) + s.payload }

  function Body(sections: seq<Section>): seq<Byte> {
    if sections == [] then [] else SectionBytes(sections[0]) + Body(sections[1..])
  }

  function Header(minor: nat, count: nat): (b: seq<Byte>)
    ensures |b| == HEADER_LEN
  {
    MAGIC + Le(1, 2) + Le(minor, 2) + Le(0, 4) + Le(count, 4)
  }

  function Serialize(v: View): seq<Byte> { Header(v.minor, |v.sections|) + Body(v.sections) }

  ghost predicate ViewOk(v: View) {
    v.minor < 0x1_0000 && |v.sections| < 0x1_0000_0000 && Ordered(v.sections, 0) && |Serialize(v)| <= MAX_LEN
  }

  // ----- The parser ---------------------------------------------------------------

  function Field(b: seq<Byte>, at: nat, n: nat): (v: nat)
    requires at + n <= |b|
    ensures v < Size(n)
  {
    FromLe(b[at..at + n])
  }

  /** The section at `cursor`, or what is wrong with it. `last` is 0 before the
      first. */
  function ParseOne(b: seq<Byte>, cursor: nat, index: nat, last: nat): (r: Result<Section>)
    requires cursor <= |b| <= MAX_LEN
    ensures r.Ok? ==> cursor + SECTION_HEADER_LEN + |r.value.payload| <= |b|
  {
    if cursor + SECTION_HEADER_LEN > |b| then Err(TruncatedSectionHeader(index)) else
    var id := Field(b, cursor, 4);
    var version := Field(b, cursor + 4, 2);
    var flags := Field(b, cursor + 6, 2);
    var declared := Field(b, cursor + 8, 8);
    var start := cursor + SECTION_HEADER_LEN;
    if id == 0 then Err(ReservedSectionId)
    else if last != 0 && id <= last then Err(SectionOutOfOrder(last, id))
    else if version == 0 then Err(ReservedSectionVersion(id))
    else if flags > 1 then Err(UnsupportedSectionFlags(id, flags))
    else if start + declared > MAX_INDEX then Err(LengthOverflow)
    else if start + declared > |b| then Err(TruncatedSectionPayload(id, declared, |b| - start))
    else Ok(Section(id, version, flags == 1, b[start..start + declared]))
  }

  function ParseAt(b: seq<Byte>, cursor: nat, index: nat, count: nat, last: nat): Result<seq<Section>>
    requires cursor <= |b| <= MAX_LEN && index <= count
    decreases count - index
  {
    if index == count then
      if cursor != |b| then Err(TrailingBytes(|b| - cursor)) else Ok([])
    else
      var one := ParseOne(b, cursor, index, last);
      if one.Err? then Err(one.error) else
      var rest := ParseAt(b, cursor + SECTION_HEADER_LEN + |one.value.payload|, index + 1, count, one.value.id);
      if rest.Err? then rest else Ok([one.value] + rest.value)
  }

  function Parsed(b: seq<Byte>): Result<View>
    requires |b| <= MAX_LEN
  {
    if |b| < HEADER_LEN then Err(TruncatedHeader)
    else if b[..8] != MAGIC then Err(InvalidMagic)
    else if Field(b, 8, 2) != 1 then Err(UnsupportedMajorVersion(Field(b, 8, 2)))
    else if Field(b, 12, 4) != 0 then Err(UnsupportedHeaderFlags(Field(b, 12, 4)))
    else
      var sections := ParseAt(b, HEADER_LEN, 0, Field(b, 16, 4), 0);
      if sections.Err? then Err(sections.error) else Ok(View(Field(b, 10, 2), sections.value))
  }

  /** The parse loop, with its moving cursor. */
  method Parse(b: seq<Byte>) returns (r: Result<View>)
    requires |b| <= MAX_LEN
    ensures r == Parsed(b)
  {
    hide Field, ParseAt, ParseOne, After;
    if |b| < HEADER_LEN {
      return Err(TruncatedHeader);
    }
    if b[..8] != MAGIC {
      return Err(InvalidMagic);
    }
    if Field(b, 8, 2) != 1 {
      return Err(UnsupportedMajorVersion(Field(b, 8, 2)));
    }
    var minor := Field(b, 10, 2);
    if Field(b, 12, 4) != 0 {
      return Err(UnsupportedHeaderFlags(Field(b, 12, 4)));
    }
    var count := Field(b, 16, 4);
    var cursor, sections, last := HEADER_LEN, [], 0;
    AfterNone(ParseAt(b, HEADER_LEN, 0, count, 0));
    for index := 0 to count
      invariant HEADER_LEN <= cursor <= |b|
      invariant ParseAt(b, HEADER_LEN, 0, count, 0) == After(sections, ParseAt(b, cursor, index, count, last))
    {
      var one := ParseOne(b, cursor, index, last);
      ParseStep(b, cursor, index, count, last);
      if one.Err? {
        AfterError(sections, one.error);
        return Err(one.error);
      }
      AfterOne(sections, one.value, ParseAt(b, cursor + SECTION_HEADER_LEN + |one.value.payload|, index + 1, count,
                                            one.value.id));
      sections := sections + [one.value];
      cursor := cursor + SECTION_HEADER_LEN + |one.value.payload|;
      last := one.value.id;
    }
    ParseEnd(b, cursor, count, last);
    if cursor != |b| {
      AfterError(sections, TrailingBytes(|b| - cursor));
      return Err(TrailingBytes(|b| - cursor));
    }
    AfterEnd(sections);
    return Ok(View(minor, sections));
  }

  /** The sections read so far in front of what is still to come. */
  function After(sections: seq<Section>, rest: Result<seq<Section>>): Result<seq<Section>> {
    if rest.Err? then rest else Ok(sections + rest.value)
  }

  lemma ParseStep(b: seq<Byte>, cursor: nat, index: nat, count: nat, last: nat)
    requires cursor <= |b| <= MAX_LEN && index < count
    ensures var one := ParseOne(b, cursor, index, last);
      ParseAt(b, cursor, index, count, last) ==
      if one.Err? then Err(one.error) else
      var rest := ParseAt(b, cursor + SECTION_HEADER_LEN + |one.value.payload|, index + 1, count, one.value.id);
      if rest.Err? then rest else Ok([one.value] + rest.value)
  {
    hide ParseOne;
  }

  lemma ParseEnd(b: seq<Byte>, cursor: nat, count: nat, last: nat)
    requires cursor <= |b| <= MAX_LEN
    ensures ParseAt(b, cursor, count, count, last) == if cursor != |b| then Err(TrailingBytes(|b| - cursor)) else Ok([])
  {
  }

  lemma AfterError(sections: seq<Section>, e: Error)
    ensures After(sections, Err(e)) == Err(e)
  {
  }

  lemma AfterEnd(sections: seq<Section>)
    ensures After(sections, Ok([])) == Ok(sections)
  {
    assert sections + [] == sections;
  }

  lemma AfterNone(rest: Result<seq<Section>>)
    ensures After([], rest) == rest
  {
    if rest.Ok? { assert [] + rest.value == rest.value; }
  }

  lemma AfterOne(sections: seq<Section>, one: Section, rest: Result<seq<Section>>)
    ensures After(sections + [one], rest) == After(sections, if rest.Err? then rest else Ok([one] + rest.value))
  {
    if rest.Ok? { assert sections + [one] + rest.value == sections + ([one] + rest.value); }
  }

  // ----- Parsing and serialization are inverse ------------------------------------

  lemma HeadFields(s: Section)
    requires SectionOk(s)
    ensures var h := SectionHead(s);
      && FromLe(h[0..4]) == s.id && FromLe(h[4..6]) == s.version && FromLe(h[6..8]) == (if s.optional then 1 else 0)
      && FromLe(h[8..16]) == |s.payload|
  {
    hide Le, FromLe;
    Sizes();
    var h := SectionHead(s);
    assert h[0..4] == Le(s.id, 4) && h[4..6] == Le(s.version, 2);
    assert h[6..8] == Le(if s.optional then 1 else 0, 2) && h[8..16] == Le(|s.payload|, 8);
    LeReads(s.id, 4);
    LeReads(s.version, 2);
    LeReads(if s.optional then 1 else 0, 2);
    LeReads(|s.payload|, 8);
  }

  lemma FieldOf(b: seq<Byte>, at: nat, h: seq<Byte>, from: nat, n: nat)
    requires at + |h| <= |b| && b[at..at + |h|] == h && from + n <= |h|
    ensures Field(b, at + from, n) == FromLe(h[from..from + n])
  {
    assert forall k :: at <= k < at + |h| ==> b[k] == b[at..at + |h|][k - at] == h[k - at];
    assert b[at + from..at + from + n] == h[from..from + n];
  }

  lemma OneReads(b: seq<Byte>, cursor: nat, index: nat, last: nat, s: Section, rest: seq<Byte>)
    requires cursor <= |b| <= MAX_LEN && b[cursor..] == SectionBytes(s) + rest && SectionOk(s) && s.id > last
    ensures ParseOne(b, cursor, index, last) == Ok(s)
    ensures b[cursor + SECTION_HEADER_LEN + |s.payload|..] == rest
  {
    hide SectionHead, FromLe;
    var h := SectionHead(s);
    var start := cursor + SECTION_HEADER_LEN;
    assert |b| - cursor == |SectionBytes(s)| + |rest|;
    assert b[cursor..cursor + |h|] == h by { assert b[cursor..][..|h|] == h; }
    assert b[start..start + |s.payload|] == s.payload by { assert b[cursor..][|h|..|h| + |s.payload|] == s.payload; }
    assert b[start + |s.payload|..] == b[cursor..][|h| + |s.payload|..];
    HeadFields(s);
    FieldOf(b, cursor, h, 0, 4);
    FieldOf(b, cursor, h, 4, 2);
    FieldOf(b, cursor, h, 6, 2);
    FieldOf(b, cursor, h, 8, 8);
  }

  /** What is written is read back. */
  lemma {:induction false} BodyReads(b: seq<Byte>, cursor: nat, index: nat, count: nat, last: nat,
                                     sections: seq<Section>)
    requires cursor <= |b| <= MAX_LEN && index <= count && |sections| == count - index
    requires b[cursor..] == Body(sections) && Ordered(sections, last)
    ensures ParseAt(b, cursor, index, count, last) == Ok(sections)
    decreases |sections|
  {
    hide ParseOne, SectionBytes;
    if sections != [] {
      OneReads(b, cursor, index, last, sections[0], Body(sections[1..]));
      BodyReads(b, cursor + SECTION_HEADER_LEN + |sections[0].payload|, index + 1, count, sections[0].id,
                sections[1..]);
      assert sections == [sections[0]] + sections[1..];
    }
  }

  lemma OneWrites(b: seq<Byte>, cursor: nat, index: nat, last: nat)
    requires cursor <= |b| <= MAX_LEN && ParseOne(b, cursor, index, last).Ok?
    ensures var s := ParseOne(b, cursor, index, last).value;
      SectionOk(s) && s.id > last && b[cursor..] == SectionBytes(s) + b[cursor + SECTION_HEADER_LEN + |s.payload|..]
  {
    Sizes();
    var s := ParseOne(b, cursor, index, last).value;
    LeWrites(b[cursor..cursor + 4]);
    LeWrites(b[cursor + 4..cursor + 6]);
    LeWrites(b[cursor + 6..cursor + 8]);
    LeWrites(b[cursor + 8..cursor + 16]);
    assert b[cursor..cursor + 16] ==
      b[cursor..cursor + 4] + b[cursor + 4..cursor + 6] + b[cursor + 6..cursor + 8] + b[cursor + 8..cursor + 16];
    assert SectionHead(s) == b[cursor..cursor + 16];
    var start := cursor + 16;
    assert b[cursor..] == b[cursor..start] + b[start..start + |s.payload|] + b[start + |s.payload|..];
  }

  /** What is read was written: an accepted body is the one encoding of its
      sections. */
  lemma {:induction false} BodyWrites(b: seq<Byte>, cursor: nat, index: nat, count: nat, last: nat)
    requires cursor <= |b| <= MAX_LEN && index <= count && ParseAt(b, cursor, index, count, last).Ok?
    ensures var sections := ParseAt(b, cursor, index, count, last).value;
      |sections| == count - index && Ordered(sections, last) && b[cursor..] == Body(sections)
    decreases count - index
  {
    hide ParseOne, SectionBytes;
    if index < count {
      OneWrites(b, cursor, index, last);
      var s := ParseOne(b, cursor, index, last).value;
      BodyWrites(b, cursor + SECTION_HEADER_LEN + |s.payload|, index + 1, count, s.id);
      var sections := ParseAt(b, cursor, index, count, last).value;
      assert sections[1..] == ParseAt(b, cursor + SECTION_HEADER_LEN + |s.payload|, index + 1, count, s.id).value;
    }
  }

  lemma HeaderFields(minor: nat, count: nat)
    requires minor < 0x1_0000 && count < 0x1_0000_0000
    ensures var h := Header(minor, count);
      && h[0..8] == MAGIC && FromLe(h[8..10]) == 1 && FromLe(h[10..12]) == minor && FromLe(h[12..16]) == 0
      && FromLe(h[16..20]) == count
  {
    hide Le, FromLe;
    Sizes();
    var h := Header(minor, count);
    assert h[8..10] == Le(1, 2) && h[10..12] == Le(minor, 2) && h[12..16] == Le(0, 4) && h[16..20] == Le(count, 4);
    LeReads(1, 2);
    LeReads(minor, 2);
    LeReads(0, 4);
    LeReads(count, 4);
  }

  /** Parsing a finished container yields exactly the sections written. */
  lemma RoundTrip(v: View)
    requires ViewOk(v)
    ensures Parsed(Serialize(v)) == Ok(v)
  {
    hide Header, ParseAt, Body;
    var b, h := Serialize(v), Header(v.minor, |v.sections|);
    assert b[0..|h|] == h;
    HeaderFields(v.minor, |v.sections|);
    FieldOf(b, 0, h, 8, 2);
    FieldOf(b, 0, h, 10, 2);
    FieldOf(b, 0, h, 12, 4);
    FieldOf(b, 0, h, 16, 4);
    assert b[..8] == h[0..8] && b[HEADER_LEN..] == Body(v.sections);
    BodyReads(b, HEADER_LEN, 0, |v.sections|, 0, v.sections);
  }

  /** Any accepted byte string is the serialization of what it parsed to. */
  lemma UniqueEncoding(b: seq<Byte>)
    requires |b| <= MAX_LEN && Parsed(b).Ok?
    ensures ViewOk(Parsed(b).value) && Serialize(Parsed(b).value) == b
  {
    hide ParseAt, Body;
    Sizes();
    var v := Parsed(b).value;
    BodyWrites(b, HEADER_LEN, 0, Field(b, 16, 4), 0);
    LeWrites(b[8..10]);
    LeWrites(b[10..12]);
    LeWrites(b[12..16]);
    LeWrites(b[16..20]);
    assert b[..HEADER_LEN] == b[..8] + b[8..10] + b[10..12] + b[12..16] + b[16..20];
    assert b[..HEADER_LEN] == Header(v.minor, |v.sections|);
    assert b == b[..HEADER_LEN] + b[HEADER_LEN..];
  }

  /** So a byte string is accepted if and only if some view serializes to it, and
      then for one view only. */
  lemma AcceptsExactly(b: seq<Byte>)
    requires |b| <= MAX_LEN
    ensures Parsed(b).Ok? <==> exists v :: ViewOk(v) && Serialize(v) == b
    ensures forall v, w :: ViewOk(v) && ViewOk(w) && Serialize(v) == b && Serialize(w) == b ==> v == w
  {
    hide Serialize, Parsed, ViewOk;
    if Parsed(b).Ok? { UniqueEncoding(b); }
    forall v | ViewOk(v) && Serialize(v) == b ensures Parsed(b) == Ok(v) {
      RoundTrip(v);
    }
  }

  // ----- The writer ---------------------------------------------------------------

  /** How a section's callback ended: the payload it wrote, or what it had written
      when it failed and the error it returned. */
  datatype Callback = Wrote(payload: seq<Byte>) | Failed(partial: seq<Byte>, error: Error)

  /** What stops a section, if anything: its place, room for its header, its callback,
      room for its payload, the first that fails first. The count cannot overflow
      before the identifiers run out. */
  function AddError(last: Option<int>, length: nat, id: int, write: Callback): Option<Error> {
    if last.Some? && id <= last.value then Some(SectionOutOfOrder(last.value, id))
    else if length + SECTION_HEADER_LEN > MAX_LEN then Some(AllocationFailed)
    else match write
      case Failed(_, error) => Some(error)
      case Wrote(payload) => if length + SECTION_HEADER_LEN + |payload| > MAX_LEN then Some(AllocationFailed) else None
  }

  class CanonicalStateWriter {
    var bytes: seq<Byte>
    var count: nat
    var last: Option<int>
    ghost var sections: seq<Section>

    ghost predicate Valid()
      reads this
    {
      && bytes == Header(0, 0) + Body(sections) && |bytes| <= MAX_LEN
      && count == |sections| && Ordered(sections, 0) && last == LastId(sections)
    }

    constructor ()
      ensures Valid() && sections == []
    {
      bytes, count, last, sections := Header(0, 0), 0, None, [];
      new;
      assert Header(0, 0) + Body([]) == Header(0, 0);
    }

    /** Append a section, or leave the writer as it was. */
    method AddSection(id: int, version: int, optional: bool, write: Callback) returns (r: Option<Error>)
      requires Valid() && 0 < id < 0x1_0000_0000 && 0 < version < 0x1_0000
      modifies this
      ensures Valid()
      ensures r == AddError(old(last), |old(bytes)|, id, write)
      ensures r.None? ==> write.Wrote? && sections == old(sections) + [Section(id, version, optional, write.payload)]
      ensures r.Some? ==> bytes == old(bytes) && count == old(count) && last == old(last) && sections == old(sections)
    {
      hide Header, Body, SectionHead, Le, Ordered, SectionBytes, SectionOk;
      if last.Some? && id <= last.value {
        return Some(SectionOutOfOrder(last.value, id));
      }
      CountBounded(sections, 0);
      if count + 1 > 0xffff_ffff {
        LastBound(sections);
        return Some(SectionCountOverflow);
      }
      var start := |bytes|;
      if start + SECTION_HEADER_LEN > MAX_LEN {
        return Some(AllocationFailed);
      }
      ghost var before := bytes;
      bytes := bytes + Le(id, 4) + Le(version, 2) + Le(if optional then 1 else 0, 2);
      var lengthAt := |bytes|;
      bytes := bytes + Le(0, 8);
      match write
      case Failed(partial, error) =>
        bytes := bytes + partial;
        bytes := bytes[..start];
        return Some(error);
      case Wrote(payload) =>
        if |bytes| + |payload| > MAX_LEN {
          bytes := bytes[..start];
          return Some(AllocationFailed);
        }
        bytes := bytes + payload;
        bytes := bytes[..lengthAt] + Le(|payload|, 8) + bytes[lengthAt + 8..];
        ghost var s := Section(id, version, optional, payload);
        assert bytes == before + SectionBytes(s) by { Patched(before, bytes, s); }
        BodyMore(sections, s);
        OrderedMore(sections, 0, s);
        assert bytes == Header(0, 0) + Body(sections + [s]);
        sections := sections + [s];
        count := count + 1;
        last := Some(id);
        return None;
    }

    /** Patch in the count and check the result with the parser. */
    method Finish() returns (r: Result<seq<Byte>>)
      requires Valid()
      modifies `bytes
      ensures r == Ok(Serialize(View(0, sections)))
      ensures Parsed(r.value) == Ok(View(0, sections))
    {
      hide Body, Header, Parsed, Serialize;
      CountBounded(sections, 0);
      LastBound(sections);
      Recounted(sections);
      bytes := bytes[..16] + Le(count, 4) + bytes[20..];
      FinishedOk(bytes, sections);
      var v := Parse(bytes);
      return Ok(bytes);
    }
  }

  function LastId(sections: seq<Section>): Option<int> {
    if sections == [] then None else Some(sections[|sections| - 1].id)
  }

  lemma {:induction false} CountBounded(sections: seq<Section>, last: nat)
    requires Ordered(sections, last)
    ensures sections != [] ==> last + |sections| <= sections[|sections| - 1].id < 0x1_0000_0000
    decreases |sections|
  {
    if sections != [] {
      CountBounded(sections[1..], sections[0].id);
      assert |sections| > 1 ==> sections[1..][|sections| - 2] == sections[|sections| - 1];
    }
  }

  lemma LastBound(sections: seq<Section>)
    requires Ordered(sections, 0)
    ensures |sections| < 0x1_0000_0000
  {
    CountBounded(sections, 0);
  }

  lemma {:induction false} BodyMore(sections: seq<Section>, s: Section)
    ensures Body(sections + [s]) == Body(sections) + SectionBytes(s)
    decreases |sections|
  {
    hide SectionBytes;
    if sections == [] {
      assert sections + [s] == [s] && [s][1..] == [];
    } else {
      BodyMore(sections[1..], s);
      assert (sections + [s])[1..] == sections[1..] + [s];
    }
  }

  lemma {:induction false} OrderedMore(sections: seq<Section>, last: int, s: Section)
    requires Ordered(sections, last) && SectionOk(s)
             && s.id > (if sections == [] then last else sections[|sections| - 1].id)
    ensures Ordered(sections + [s], last)
    decreases |sections|
  {
    if sections == [] {
      assert [s][1..] == [];
    } else {
      OrderedMore(sections[1..], sections[0].id, s);
      assert (sections + [s])[1..] == sections[1..] + [s];
    }
  }

  /** The length patched in over the zero that held its place. */
  lemma Patched(before: seq<Byte>, bytes: seq<Byte>, s: Section)
    requires var front := before + Le(s.id, 4) + Le(s.version, 2) + Le(if s.optional then 1 else 0, 2);
      bytes == front + Le(|s.payload|, 8) + s.payload
    ensures bytes == before + SectionBytes(s)
  {
  }

  lemma Recounted(sections: seq<Section>)
    requires |sections| < 0x1_0000_0000
    ensures var b := Header(0, 0) + Body(sections);
      b[..16] + Le(|sections|, 4) + b[20..] == Serialize(View(0, sections))
  {
    hide Body;
    var b := Header(0, 0) + Body(sections);
    assert b[..16] == MAGIC + Le(1, 2) + Le(0, 2) + Le(0, 4) && b[20..] == Body(sections);
  }

  lemma FinishedOk(b: seq<Byte>, sections: seq<Section>)
    requires b == Serialize(View(0, sections)) && Ordered(sections, 0) && |b| <= MAX_LEN
    ensures Parsed(b) == Ok(View(0, sections))
  {
    LastBound(sections);
    RoundTrip(View(0, sections));
  }
}
