/** The DMA side of the Sound Blaster DSP: a block counter that raises the block
    interrupt, stereo pairing that survives a starved source, and the prediction of
    the next interrupt. The source is the list of answers its fetches get: a unit,
    or nothing yet. */
module SbDspModel {
  import opened Wrappers
  import opened Arithmetic

  /** Raised interrupts are counted; 16-bit transfers fetch words, 8-bit ones bytes. */
  datatype Dsp = Dsp(
    blockSize: nat, remaining: nat, autoInit: bool, playing: bool, irqs: nat,
    dma16: bool, stereo: bool, sbproStereo: bool, signed: bool, pendingLeft: Option<int>, directDac: Option<int>)
  {
    predicate Stereo() { if dma16 then stereo else stereo || sbproStereo }
    predicate Reloads() { autoInit && blockSize > 0 }
  }

  /** One DMA unit as a 16-bit sample. */
  function Sample(d: Dsp, unit: int): int {
    if d.dma16 then (if d.signed then (if unit >= 0x8000 then unit - 0x1_0000 else unit) else unit - 0x8000)
    else if d.signed then (if unit >= 0x80 then unit - 0x100 else unit) * 256
    else (unit - 128) * 256
  }

  // ----- The block counter ----------------------------------------------------------

  /** The end of a block: an interrupt, then the next block or a stop. */
  function BlockEnd(d: Dsp): Dsp {
    if d.Reloads() then d.(irqs := d.irqs + 1, remaining := d.blockSize) else d.(irqs := d.irqs + 1, playing := false)
  }

  /** One unit: the simple form of the counter. */
  function Unit(d: Dsp): Dsp {
    if !d.playing then d else
    var a := if d.remaining == 0 then BlockEnd(d) else d;
    if !a.playing || a.remaining == 0 then a else
    var b := a.(remaining := a.remaining - 1);
    if b.remaining == 0 then BlockEnd(b) else b
  }

  function Units(d: Dsp, n: nat): Dsp { if n == 0 then d else Unit(Units(d, n - 1)) }

  lemma {:induction false} UnitsSplit(d: Dsp, a: nat, b: nat)
    ensures Units(d, a + b) == Units(Units(d, a), b)
    decreases b
  {
    hide Unit;
    if b > 0 { UnitsSplit(d, a, b - 1); }
  }

  lemma {:induction false} UnitsStopped(d: Dsp, n: nat)
    requires !d.playing
    ensures Units(d, n) == d
    decreases n
  {
    if n > 0 { UnitsStopped(d, n - 1); }
  }

  lemma {:induction false} UnitsWithin(d: Dsp, n: nat)
    requires d.playing && n < d.remaining
    ensures Units(d, n) == d.(remaining := d.remaining - n)
    decreases n
  {
    if n > 0 { UnitsWithin(d, n - 1); }
  }

  /** A whole block at once. */
  lemma UnitsToEnd(d: Dsp)
    requires d.playing && d.remaining > 0
    ensures Units(d, d.remaining) == BlockEnd(d.(remaining := 0))
  {
    UnitsWithin(d, d.remaining - 1);
  }

  // ----- The DSP --------------------------------------------------------------------

  class SbDsp {
    var d: Dsp
    ghost var fetched: seq<int>
    ghost var frames: seq<(int, int)>

    constructor (d: Dsp)
      ensures this.d == d && fetched == [] && frames == []
    {
      this.d, fetched, frames := d, [], [];
    }

    /** Program a transfer from its first unit. */
    method Arm(blockSize: nat, autoInit: bool, dma16: bool, stereo: bool, signed: bool)
      modifies this
      ensures d == old(d).(blockSize := blockSize, remaining := blockSize, autoInit := autoInit, playing := true,
                           dma16 := dma16, stereo := stereo, signed := signed, pendingLeft := None)
      ensures fetched == [] && frames == [] && Paired(d, fetched, frames)
    {
      d := d.(blockSize := blockSize, remaining := blockSize, autoInit := autoInit, playing := true,
              dma16 := dma16, stereo := stereo, signed := signed, pendingLeft := None);
      fetched, frames := [], [];
    }

    /** Count units, whole stretches of a block at a time. */
    method AdvanceBlock(consumed: nat)
      modifies `d
      ensures d == Units(old(d), consumed)
    {
      hide Units;
      var left := consumed;
      UnitsNone(d);
      while left > 0 && d.playing
        invariant 0 <= left <= consumed && d == Units(old(d), consumed - left)
        decreases left
      {
        ghost var before := d;
        if d.remaining == 0 {
          d := BlockEnd(d);
          if !d.playing {
            StopAtOnce(before, left);
            UnitsSplit(old(d), consumed - left, left);
            break;
          }
        }
        ghost var ready := d;
        var step := if left <= d.remaining then left else d.remaining;
        d := d.(remaining := d.remaining - step);
        if d.remaining == 0 {
          UnitsToEnd(ready);
          d := BlockEnd(d);
        } else {
          UnitsWithin(ready, step);
        }
        UnitsAlike(before, ready, step);
        UnitsSplit(old(d), consumed - left, step);
        left := left - step;
      }
      if left > 0 {
        UnitsStopped(d, left);
        UnitsSplit(old(d), consumed - left, left);
      }
    }

    /** One output frame, from a source that may have nothing to give yet. */
    method RenderFrame(feed: seq<Option<int>>) returns (frame: Option<(int, int)>, rest: seq<Option<int>>)
      modifies this
      ensures Rendered(d, rest, frame) == Render(old(d), feed)
      ensures fetched == old(fetched) + Got(feed, rest)
      ensures frames == old(frames) + if frame.Some? && old(d.playing) then [frame.value] else []
    {
      hide Units;
      rest := feed;
      if !d.playing {
        assert fetched + Got(feed, rest) == fetched;
        if d.dma16 || d.directDac.None? {
          return None, rest;
        }
        var s := (d.directDac.value - 128) * 256;
        return Some((s, s)), rest;
      }
      if !d.Stereo() {
        var unit;
        unit, rest := Fetch(rest);
        GotOne(feed);
        fetched := fetched + Got(feed, rest);
        if unit.None? {
          return None, rest;
        }
        var s := Sample(d, unit.value);
        AdvanceBlock(1);
        frames := frames + [(s, s)];
        return Some((s, s)), rest;
      }
      var left;
      if d.pendingLeft.Some? {
        left := d.pendingLeft.value;
        d := d.(pendingLeft := None);
        assert Got(feed, rest) == [];
      } else {
        var unit;
        unit, rest := Fetch(rest);
        GotOne(feed);
        if unit.None? {
          fetched := fetched + Got(feed, rest);
          return None, rest;
        }
        left := Sample(d, unit.value);
        AdvanceBlock(1);
        if !d.playing {
          fetched := fetched + Got(feed, rest);
          return None, rest;
        }
      }
      ghost var middle := rest;
      var unit;
      unit, rest := Fetch(rest);
      GotTwo(feed, middle, rest);
      fetched := fetched + Got(feed, rest);
      if unit.None? {
        d := d.(pendingLeft := Some(left));
        return None, rest;
      }
      var right := Sample(d, unit.value);
      AdvanceBlock(1);
      frames := frames + [(left, right)];
      return Some((left, right)), rest;
    }

    method Fetch(feed: seq<Option<int>>) returns (unit: Option<int>, rest: seq<Option<int>>)
      ensures (unit, rest) == Next(feed)
    {
      if feed == [] { return None, []; }
      return feed[0], feed[1..];
    }
  }

  /** What a fetch answers. */
  function Next(feed: seq<Option<int>>): (Option<int>, seq<Option<int>>) {
    if feed == [] then (None, []) else (feed[0], feed[1..])
  }

  datatype Rendered = Rendered(d: Dsp, rest: seq<Option<int>>, frame: Option<(int, int)>)

  /** A render call as a value. */
  function Render(d: Dsp, feed: seq<Option<int>>): Rendered {
    if !d.playing then
      Rendered(d, feed, if d.dma16 || d.directDac.None? then None
                        else Some(((d.directDac.value - 128) * 256, (d.directDac.value - 128) * 256)))
    else if !d.Stereo() then
      var (unit, rest) := Next(feed);
      if unit.None? then Rendered(d, rest, None)
      else Rendered(Units(d, 1), rest, Some((Sample(d, unit.value), Sample(d, unit.value))))
    else if d.pendingLeft.Some? then RenderRight(d.(pendingLeft := None), feed, d.pendingLeft.value)
    else
      var (unit, rest) := Next(feed);
      if unit.None? then Rendered(d, rest, None)
      else if !Units(d, 1).playing then Rendered(Units(d, 1), rest, None)
      else RenderRight(Units(d, 1), rest, Sample(d, unit.value))
  }

  function RenderRight(d: Dsp, feed: seq<Option<int>>, left: int): Rendered {
    var (unit, rest) := Next(feed);
    if unit.None? then Rendered(d.(pendingLeft := Some(left)), rest, None)
    else Rendered(Units(d, 1), rest, Some((left, Sample(d, unit.value))))
  }

  /** The units among the answers between `feed` and what is left of it. */
  ghost function Got(feed: seq<Option<int>>, rest: seq<Option<int>>): seq<int> {
    if |rest| >= |feed| then [] else (if feed[0].Some? then [feed[0].value] else []) + Got(feed[1..], rest)
  }

  lemma GotOne(feed: seq<Option<int>>)
    ensures Got(feed, Next(feed).1) == if Next(feed).0.Some? then [Next(feed).0.value] else []
  {
  }

  lemma GotTwo(feed: seq<Option<int>>, middle: seq<Option<int>>, rest: seq<Option<int>>)
    requires middle == feed || middle == Next(feed).1
    requires rest == Next(middle).1
    ensures Got(feed, rest) == Got(feed, middle) + Got(middle, rest)
    ensures Got(middle, rest) == if Next(middle).0.Some? then [Next(middle).0.value] else []
  {
    GotOne(middle);
    if middle != feed && middle != [] {
      assert Got(feed[1..], rest) == Got(middle, rest);
    }
  }

  lemma UnitsNone(d: Dsp)
    ensures Units(d, 0) == d
  {
  }

  lemma StopAtOnce(d: Dsp, n: nat)
    requires d.playing && d.remaining == 0 && !d.Reloads() && n > 0
    ensures Units(d, n) == BlockEnd(d)
  {
    UnitsSplit(d, 1, n - 1);
    assert Units(d, 1) == Unit(Units(d, 0)) == Unit(d);
    UnitsStopped(BlockEnd(d), n - 1);
  }

  /** A counter at zero and the same counter reloaded go on alike. */
  lemma UnitsAlike(d: Dsp, ready: Dsp, n: nat)
    requires n > 0 && d.playing && (ready == d || (d.remaining == 0 && d.Reloads() && ready == BlockEnd(d)))
    ensures Units(d, n) == Units(ready, n)
  {
    UnitsSplit(d, 1, n - 1);
    UnitsSplit(ready, 1, n - 1);
    assert Units(d, 1) == Unit(Units(d, 0)) == Unit(d) && Units(ready, 1) == Unit(Units(ready, 0)) == Unit(ready);
  }

  // ----- Stereo pairing ---------------------------------------------------------------

  /** The frames so far are the fetched units two by two, left first; an odd unit
      waits as the pending left sample. */
  ghost predicate Paired(d: Dsp, fetched: seq<int>, frames: seq<(int, int)>) {
    && |fetched| == 2 * |frames| + (if d.pendingLeft.Some? then 1 else 0)
    && (forall k :: 0 <= k < |frames| ==> frames[k] == (Sample(d, fetched[2 * k]), Sample(d, fetched[2 * k + 1])))
    && (d.pendingLeft.Some? ==> d.pendingLeft.value == Sample(d, fetched[|fetched| - 1]))
  }

  /** A transfer that runs on by itself in stereo. */
  predicate Streaming(d: Dsp) { d.playing && d.Reloads() && d.Stereo() }

  lemma OneUnit(d: Dsp)
    ensures Units(d, 1) == Unit(d)
  {
    assert Units(d, 1) == Unit(Units(d, 0));
  }

  /** Counting a unit touches nothing but the counter. */
  lemma UnitKeeps(d: Dsp)
    ensures Unit(d) == d.(remaining := Unit(d).remaining, irqs := Unit(d).irqs, playing := Unit(d).playing)
    ensures Streaming(d) ==> Streaming(Unit(d))
  {
    hide BlockEnd;
    BlockEndKeeps(d);
    var a := if d.remaining == 0 then BlockEnd(d) else d;
    if a.remaining > 0 { BlockEndKeeps(a.(remaining := a.remaining - 1)); }
  }

  lemma BlockEndKeeps(d: Dsp)
    ensures var e := BlockEnd(d); e == d.(remaining := e.remaining, irqs := e.irqs, playing := e.playing)
    ensures d.playing && d.Reloads() ==> BlockEnd(d).playing
  {
  }

  lemma SameFormat(d: Dsp, e: Dsp, fetched: seq<int>, frames: seq<(int, int)>)
    requires Paired(d, fetched, frames) && e == d.(remaining := e.remaining, irqs := e.irqs, playing := e.playing)
    ensures Paired(e, fetched, frames)
  {
  }

  lemma Nothing(fetched: seq<int>, frames: seq<(int, int)>)
    ensures fetched + [] == fetched && frames + [] == frames
  {
  }

  lemma PairCompleted(d: Dsp, right: int, fetched: seq<int>, frames: seq<(int, int)>)
    requires d.pendingLeft.Some? && Paired(d, fetched, frames)
    ensures Paired(d.(pendingLeft := None), fetched + [right], frames + [(d.pendingLeft.value, Sample(d, right))])
  {
  }

  lemma PairBegun(d: Dsp, left: int, fetched: seq<int>, frames: seq<(int, int)>)
    requires d.pendingLeft.None? && Paired(d, fetched, frames)
    ensures Paired(d.(pendingLeft := Some(Sample(d, left))), fetched + [left], frames)
  {
  }

  /** The second half of a call, with the left sample in hand. */
  lemma RightKept(d: Dsp, feed: seq<Option<int>>, left: int, fetched: seq<int>, frames: seq<(int, int)>)
    requires Streaming(d) && d.pendingLeft.None? && Paired(d.(pendingLeft := Some(left)), fetched, frames)
    ensures var r := RenderRight(d, feed, left);
      && Streaming(r.d)
      && Paired(r.d, fetched + Got(feed, r.rest), frames + if r.frame.Some? then [r.frame.value] else [])
  {
    hide Unit, Units, Paired, Got, Sample;
    GotOne(feed);
    Nothing(fetched, frames);
    OneUnit(d);
    UnitKeeps(d);
    if Next(feed).0.Some? {
      var unit := Next(feed).0.value;
      PairCompleted(d.(pendingLeft := Some(left)), unit, fetched, frames);
      SampleFormat(d.(pendingLeft := Some(left)), d, unit);
      assert d.(pendingLeft := Some(left)).(pendingLeft := None) == d;
      SameFormat(d, Unit(d), fetched + [unit], frames + [(left, Sample(d, unit))]);
    }
  }

  lemma SampleFormat(d: Dsp, e: Dsp, unit: int)
    requires d.dma16 == e.dma16 && d.signed == e.signed
    ensures Sample(d, unit) == Sample(e, unit)
  {
  }

  /** A render call keeps the pairing, whether the source delivers or stalls at
      either of its two fetches. */
  lemma PairingKept(d: Dsp, feed: seq<Option<int>>, fetched: seq<int>, frames: seq<(int, int)>)
    requires Streaming(d) && Paired(d, fetched, frames)
    ensures var r := Render(d, feed);
      && Streaming(r.d)
      && Paired(r.d, fetched + Got(feed, r.rest), frames + if r.frame.Some? then [r.frame.value] else [])
  {
    hide Unit, Units, Paired, Got, Sample, RenderRight;
    OneUnit(d);
    UnitKeeps(d);
    GotOne(feed);
    Nothing(fetched, frames);
    if d.pendingLeft.Some? {
      assert d.(pendingLeft := None).(pendingLeft := d.pendingLeft) == d;
      RightKept(d.(pendingLeft := None), feed, d.pendingLeft.value, fetched, frames);
    } else if Next(feed).0.Some? {
      var unit, middle, e := Next(feed).0.value, Next(feed).1, Unit(d);
      PairBegun(d, unit, fetched, frames);
      var left := Sample(d, unit);
      SameFormat(d.(pendingLeft := Some(left)), e.(pendingLeft := Some(left)), fetched + [unit], frames);
      RightKept(e, middle, left, fetched + [unit], frames);
      RightConsumes(e, middle, left);
      GotTwo(feed, middle, Next(middle).1);
      assert fetched + [unit] + Got(middle, Next(middle).1) == fetched + ([unit] + Got(middle, Next(middle).1));
    }
  }

  lemma RightConsumes(d: Dsp, feed: seq<Option<int>>, left: int)
    ensures RenderRight(d, feed, left).rest == Next(feed).1
  {
  }

  /** From a freshly armed auto-init stereo transfer, any number of render calls over
      any pattern of stalls: the frames are the units two by two, none lost, none
      repeated, none swapped. */
  method Play(dsp: SbDsp, calls: nat, feed: seq<Option<int>>) returns (rest: seq<Option<int>>)
    requires Streaming(dsp.d) && Paired(dsp.d, dsp.fetched, dsp.frames)
    modifies dsp
    ensures Streaming(dsp.d) && Paired(dsp.d, dsp.fetched, dsp.frames)
    ensures |rest| <= |feed| && rest == feed[|feed| - |rest|..]
    ensures dsp.fetched == old(dsp.fetched) + Got(feed, rest)
  {
    hide Render, Paired, Got;
    rest := feed;
    GotNone(feed);
    assert dsp.fetched + [] == dsp.fetched;
    for i := 0 to calls
      invariant Streaming(dsp.d) && Paired(dsp.d, dsp.fetched, dsp.frames)
      invariant |rest| <= |feed| && rest == feed[|feed| - |rest|..]
      invariant dsp.fetched == old(dsp.fetched) + Got(feed, rest)
    {
      PairingKept(dsp.d, rest, dsp.fetched, dsp.frames);
      RenderConsumes(dsp.d, rest);
      ghost var before := rest;
      var frame;
      frame, rest := dsp.RenderFrame(rest);
      GotJoins(feed, before, rest);
      ghost var start, first, second := old(dsp.fetched), Got(feed, before), Got(before, rest);
      assert start + first + second == start + (first + second);
    }
  }

  lemma GotNone(feed: seq<Option<int>>)
    ensures Got(feed, feed) == []
  {
  }

  lemma NextSuffix(feed: seq<Option<int>>)
    ensures var one := Next(feed).1; |one| <= |feed| && one == feed[|feed| - |one|..]
    ensures var two := Next(Next(feed).1).1; |two| <= |feed| && two == feed[|feed| - |two|..]
  {
    if |feed| >= 2 { assert feed[1..][1..] == feed[2..]; }
  }

  lemma RenderConsumes(d: Dsp, feed: seq<Option<int>>)
    ensures var rest := Render(d, feed).rest; |rest| <= |feed| && rest == feed[|feed| - |rest|..]
  {
    hide Units, Sample, Next;
    NextSuffix(feed);
    assert feed[0..] == feed;
  }

  lemma {:induction false} GotJoins(feed: seq<Option<int>>, middle: seq<Option<int>>, rest: seq<Option<int>>)
    requires |middle| <= |feed| && middle == feed[|feed| - |middle|..]
    requires |rest| <= |middle| && rest == middle[|middle| - |rest|..]
    ensures Got(feed, rest) == Got(feed, middle) + Got(middle, rest) && rest == feed[|feed| - |rest|..]
    decreases |feed|
  {
    if |middle| == |feed| {
      assert middle == feed;
      assert [] + Got(middle, rest) == Got(middle, rest);
    } else {
      assert middle == feed[1..][|feed| - 1 - |middle|..];
      GotJoins(feed[1..], middle, rest);
    }
  }

  // ----- Blocks -------------------------------------------------------------------------

  /** The counter after `n` units of an auto-init transfer, without a division. */
  lemma {:induction false} UnitsCount(d: Dsp, n: nat)
    requires d.playing && d.Reloads() && 0 < d.remaining <= d.blockSize
    ensures var e := Units(d, n);
      && e == d.(remaining := e.remaining, irqs := e.irqs) && 0 < e.remaining <= d.blockSize && e.irqs >= d.irqs
      && (e.irqs - d.irqs) * d.blockSize + (d.blockSize - e.remaining) == d.blockSize - d.remaining + n
    decreases n
  {
    if n > 0 {
      UnitsCount(d, n - 1);
      var e := Units(d, n - 1);
      OneMore(e.irqs - d.irqs, d.blockSize);
    }
  }

  lemma OneMore(q: nat, b: nat)
    ensures (q + 1) * b == q * b + b
  {
  }

  /** From a full block, `n` units cross exactly `n / blockSize` block boundaries. */
  lemma BlocksCrossed(d: Dsp, n: nat)
    requires d.playing && d.Reloads() && d.remaining == d.blockSize
    ensures Units(d, n).irqs == d.irqs + n / d.blockSize
    ensures Units(d, n).remaining == d.blockSize - n % d.blockSize
  {
    hide Units;
    UnitsCount(d, n);
    var e := Units(d, n);
    Quotient(e.irqs - d.irqs, d.blockSize, d.blockSize - e.remaining, n);
  }

  // ----- The interrupt prediction ---------------------------------------------------------

  /** Render calls until the block interrupt. */
  function FramesUntilIrq(d: Dsp): Option<nat> {
    if !d.playing then None else
    var units := if d.remaining < 1 then 1 else d.remaining;
    if d.Stereo() then Some((units + (if d.pendingLeft.Some? then 1 else 0) + 1) / 2) else Some(units)
  }

  /** Units the next call takes if none is missing. */
  function Need(d: Dsp): nat { if !d.Stereo() || d.pendingLeft.Some? then 1 else 2 }

  predicate Delivers(feed: seq<Option<int>>) { forall k :: 0 <= k < |feed| ==> feed[k].Some? }

  /** The DSP after `n` calls on one source. */
  function Calls(d: Dsp, feed: seq<Option<int>>, n: nat): Dsp
    decreases n
  {
    if n == 0 then d else Calls(Render(d, feed).d, Render(d, feed).rest, n - 1)
  }

  lemma UnitInside(d: Dsp)
    requires d.playing && d.remaining > 1
    ensures Unit(d) == d.(remaining := d.remaining - 1)
  {
  }

  lemma BlockEndRaises(d: Dsp)
    ensures BlockEnd(d).irqs == d.irqs + 1
  {
  }

  lemma UnitAtEnd(d: Dsp)
    ensures Unit(d).irqs >= d.irqs && (d.playing && d.remaining <= 1 ==> Unit(d).irqs > d.irqs)
  {
    hide BlockEnd;
    BlockEndRaises(d);
    var a := if d.remaining == 0 then BlockEnd(d) else d;
    if a.remaining > 0 { BlockEndRaises(a.(remaining := a.remaining - 1)); }
  }

  /** A call that stays inside the block raises nothing. */
  lemma QuietCall(d: Dsp, feed: seq<Option<int>>)
    requires d.playing && Delivers(feed) && |feed| >= 2 && Need(d) < d.remaining
    requires d.Stereo() || d.pendingLeft.None?
    ensures Render(d, feed).d == d.(remaining := d.remaining - Need(d), pendingLeft := None)
    ensures Render(d, feed).rest == feed[Need(d)..]
  {
    hide Unit, Units, Sample;
    OneUnit(d);
    UnitInside(d);
    OneUnit(d.(pendingLeft := None));
    UnitInside(d.(pendingLeft := None));
    if Need(d) == 2 {
      OneUnit(Unit(d));
      UnitInside(Unit(d));
      assert feed[1..][1..] == feed[2..] && feed[1..][0] == feed[1];
    }
  }

  /** A call that reaches the end of the block raises the interrupt, and so does any
      call once nothing is left of it. */
  lemma LastCall(d: Dsp, feed: seq<Option<int>>)
    requires d.playing && Delivers(feed) && |feed| >= 2 && Need(d) >= d.remaining
    ensures Render(d, feed).d.irqs > d.irqs
  {
    hide Unit, Units, Sample;
    OneUnit(d);
    UnitAtEnd(d);
    OneUnit(d.(pendingLeft := None));
    UnitAtEnd(d.(pendingLeft := None));
    OneUnit(Unit(d));
    UnitAtEnd(Unit(d));
    if d.remaining == 2 { UnitInside(d); }
    assert feed[1..][0] == feed[1];
  }

  /** The prediction is exact: with a source that does not run dry the interrupt
      comes in that call and in none before it. */
  lemma {:induction false} IrqOnTime(d: Dsp, feed: seq<Option<int>>)
    requires d.playing && Delivers(feed) && |feed| >= 2 * FramesUntilIrq(d).value
    requires d.Stereo() || d.pendingLeft.None?
    ensures var f := FramesUntilIrq(d).value;
      && f >= 1 && Calls(d, feed, f).irqs > d.irqs
      && forall n :: 0 <= n < f ==> Calls(d, feed, n).irqs == d.irqs
    decreases d.remaining
  {
    hide Render;
    var f := FramesUntilIrq(d).value;
    if Need(d) < d.remaining {
      QuietCall(d, feed);
      var e, rest := Render(d, feed).d, Render(d, feed).rest;
      assert FramesUntilIrq(e).value == f - 1;
      IrqOnTime(e, rest);
      forall n | 0 <= n < f ensures Calls(d, feed, n).irqs == d.irqs {
        if n > 0 { assert Calls(d, feed, n) == Calls(e, rest, n - 1); }
      }
    } else {
      LastCall(d, feed);
      assert f == 1 && Calls(d, feed, 1) == Calls(Render(d, feed).d, Render(d, feed).rest, 0);
    }
  }
}
