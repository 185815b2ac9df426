/** The streaming resampler's index arithmetic. Positions are real numbers; the
    polyphase weights are a function of the window and the fraction, whatever it
    is. The history is trimmed between calls, and yet what comes out depends only
    on what went in. */
module Resampling {
  import opened Wrappers

  const TAPS := 64
  const HALF := 32

  type Frame = (int, int)
  type Kernel = (seq<Frame>, real) -> Frame

  /** The input as the filter sees it: silence in front for the first outputs. */
  function Padded(input: seq<Frame>): (s: seq<Frame>)
    ensures |s| == HALF + |input|
  {
    seq(HALF, _ => (0, 0)) + input
  }

  // ----- What the output is -------------------------------------------------------

  /** Where output `k` falls, in input frames. */
  function Position(step: real, k: nat): real { 32.0 + (k as real) * step }

  function Base(step: real, k: nat): int { Position(step, k).Floor }

  /** Enough input has arrived for output `k`. */
  predicate Ready(step: real, k: nat, length: nat) { Base(step, k) + HALF < length }

  /** Output `k` of the stream `s`: 64 frames around its position. */
  function OutputAt(kernel: Kernel, step: real, s: seq<Frame>, k: nat): Frame
    requires step > 0.0 && Ready(step, k, |s|)
  {
    BaseGrows(step, 0, k);
    kernel(s[Base(step, k) - (HALF - 1)..Base(step, k) + HALF + 1], Position(step, k) - Base(step, k) as real)
  }

  lemma Scale(a: nat, b: nat, step: real)
    requires step > 0.0 && a <= b
    ensures (a as real) * step <= (b as real) * step
  {
  }

  lemma BaseGrows(step: real, a: nat, b: nat)
    requires step > 0.0 && a <= b
    ensures HALF <= Base(step, a) <= Base(step, b) && Position(step, a) <= Position(step, b)
  {
    Scale(a, b, step);
    Scale(0, a, step);
  }

  /** `out` is the whole output that `s` allows: every output that is ready and no
      other. */
  ghost predicate Complete(kernel: Kernel, step: real, s: seq<Frame>, out: seq<Frame>)
    requires step > 0.0
  {
    && !Ready(step, |out|, |s|)
    && forall k :: 0 <= k < |out| ==> Ready(step, k, |s|) && out[k] == OutputAt(kernel, step, s, k)
  }

  /** There is only one whole output, so it cannot matter how the input was cut. */
  lemma OnlyOne(kernel: Kernel, step: real, s: seq<Frame>, a: seq<Frame>, b: seq<Frame>)
    requires step > 0.0 && Complete(kernel, step, s, a) && Complete(kernel, step, s, b)
    ensures a == b
  {
    hide Ready, OutputAt;
  }

  lemma OutputIs(kernel: Kernel, step: real, s: seq<Frame>, k: nat)
    requires step > 0.0 && Ready(step, k, |s|)
    ensures var base := Position(step, k).Floor;
      && HALF <= base && base + HALF < |s|
      && OutputAt(kernel, step, s, k) == kernel(s[base - (HALF - 1)..base + HALF + 1], Position(step, k) - base as real)
  {
    BaseGrows(step, 0, k);
  }

  /** An output depends on no input after its window. */
  lemma Settled(kernel: Kernel, step: real, s: seq<Frame>, more: seq<Frame>, k: nat)
    requires step > 0.0 && Ready(step, k, |s|)
    ensures Ready(step, k, |s + more|) && OutputAt(kernel, step, s + more, k) == OutputAt(kernel, step, s, k)
  {
    BaseGrows(step, 0, k);
    var lo, hi := Base(step, k) - (HALF - 1), Base(step, k) + HALF + 1;
    assert (s + more)[lo..hi] == s[lo..hi];
  }

  // ----- The resampler ---------------------------------------------------------------

  class Resampler {
    const step: real
    const kernel: Kernel
    var next: real
    var consumed: nat
    var history: seq<Frame>
    ghost var fed: seq<Frame>
    ghost var produced: seq<Frame>

    /** `next` is the position of the output after those produced, and the history
        is the input from `consumed` on, never trimmed past the next window. */
    ghost predicate Valid()
      reads this
    {
      && step > 0.0 && next == Position(step, |produced|)
      && consumed + |history| == |Padded(fed)| && history == Padded(fed)[consumed..]
      && consumed <= next.Floor - (HALF - 1) <= consumed + |history|
      && Complete(kernel, step, Padded(fed), produced)
    }

    constructor (inputHz: nat, outputHz: nat, kernel: Kernel)
      requires inputHz > 0 && outputHz > 0
      ensures Valid() && fed == [] && produced == []
      ensures step == inputHz as real / outputHz as real && this.kernel == kernel
    {
      step := inputHz as real / outputHz as real;
      this.kernel := kernel;
      next, consumed, history, fed, produced := 32.0, 0, seq(HALF, _ => (0, 0)), [], [];
      new;
      Ratio(inputHz, outputHz);
      assert Padded([]) == seq(HALF, _ => (0, 0));
      assert Padded([])[0..] == history;
    }

    /** Feed a chunk. The output is the next stretch of the whole output, and the
        drain stays inside the history unless the step is longer than the window;
        `None` is a drain past its end. */
    method Process(input: seq<Frame>) returns (out: Option<seq<Frame>>)
      requires Valid()
      modifies this
      ensures step <= 64.0 ==> out.Some?
      ensures out.Some? ==> Valid() && fed == old(fed) + input && produced == old(produced) + out.value
      ensures out.None? <==> exists k: nat :: Overruns(step, |old(produced)|, |Padded(old(fed) + input)|, k)
    {
      hide Position, Ready, OutputAt, Padded, Complete;
      ghost var s := Padded(old(fed) + input);
      FedMore(old(fed), input);
      history := history + input;
      Kept(kernel, step, old(fed), input, produced);
      PositionFacts(step, |produced|);
      var frames := Produce(s);
      ghost var k := |produced| + |frames|;
      PositionFacts(step, k);
      var keepFrom := next.Floor - (HALF - 1);
      if keepFrom - consumed > |history| {
        assert Overruns(step, |old(produced)|, |s|, k - 1);
        ShortSteps(step, |old(produced)|, |s|, k - 1);
        return None;
      }
      NoOverrun(step, |old(produced)|, |s|, k);
      Completed(kernel, step, s, produced + frames);
      if keepFrom > consumed {
        history := history[keepFrom - consumed..];
        consumed := keepFrom;
      }
      fed, produced := old(fed) + input, old(produced) + frames;
      return Some(frames);
    }

    /** Every output the history has become long enough for. */
    method Produce(ghost s: seq<Frame>) returns (frames: seq<Frame>)
      requires step > 0.0 && next == Position(step, |produced|)
      requires consumed + |history| == |s| && history == s[consumed..] && consumed <= next.Floor - (HALF - 1)
      requires forall i :: 0 <= i < |produced| ==> Ready(step, i, |s|) && produced[i] == OutputAt(kernel, step, s, i)
      modifies `next
      ensures var k := |produced| + |frames|;
        && next == Position(step, k) && !Ready(step, k, |s|) && consumed <= next.Floor - (HALF - 1)
        && (forall i :: 0 <= i < k ==> Ready(step, i, |s|) && (produced + frames)[i] == OutputAt(kernel, step, s, i))
        && (frames == [] ==> next == old(next))
    {
      hide Position, Ready, OutputAt;
      var available := consumed + |history|;
      frames := [];
      ghost var k := |produced|;
      assert produced + frames == produced;
      PositionFacts(step, k);
      while next.Floor + HALF < available
        invariant k == |produced| + |frames| && next == Position(step, k) && consumed <= next.Floor - (HALF - 1)
        invariant forall i :: 0 <= i < k ==> Ready(step, i, |s|)
        invariant forall i :: 0 <= i < k ==> (produced + frames)[i] == OutputAt(kernel, step, s, i)
        invariant frames == [] ==> next == old(next)
        decreases ((available as real - next) / step).Floor
      {
        PositionFacts(step, k);
        Countdown(available as real, next, step);
        var frame := Interpolate(s);
        OutputIs(kernel, step, s, k);
        assert produced + (frames + [frame]) == (produced + frames) + [frame];
        frames := frames + [frame];
        next := next + step;
        k := k + 1;
        PositionFacts(step, k);
      }
      PositionFacts(step, k);
    }

    /** One output frame. Every tap is inside the history. */
    method Interpolate(ghost s: seq<Frame>) returns (frame: Frame)
      requires consumed <= next.Floor - (HALF - 1) && next.Floor + HALF < consumed + |history|
      requires consumed <= |s| && history == s[consumed..]
      ensures var base := next.Floor; frame == kernel(s[base - (HALF - 1)..base + HALF + 1], next - base as real)
    {
      var base := next.Floor;
      var window: seq<Frame> := [];
      for j := 0 to TAPS
        invariant |window| == j && forall i :: 0 <= i < j ==> window[i] == s[base - (HALF - 1) + i]
      {
        window := window + [history[base + 1 + j - HALF - consumed]];
      }
      assert window == s[base - (HALF - 1)..base + HALF + 1];
      return kernel(window, next - base as real);
    }
  }

  /** What was put out before stays put out. */
  lemma Kept(kernel: Kernel, step: real, fed: seq<Frame>, input: seq<Frame>, produced: seq<Frame>)
    requires step > 0.0 && Complete(kernel, step, Padded(fed), produced)
    ensures forall i :: 0 <= i < |produced| ==>
      Ready(step, i, |Padded(fed + input)|) && produced[i] == OutputAt(kernel, step, Padded(fed + input), i)
  {
    hide Ready, OutputAt;
    FedMore(fed, input);
    forall i | 0 <= i < |produced|
      ensures Ready(step, i, |Padded(fed + input)|) && produced[i] == OutputAt(kernel, step, Padded(fed + input), i)
    {
      Settled(kernel, step, Padded(fed), input, i);
    }
  }

  lemma Completed(kernel: Kernel, step: real, s: seq<Frame>, out: seq<Frame>)
    requires step > 0.0 && !Ready(step, |out|, |s|)
    requires forall k :: 0 <= k < |out| ==> Ready(step, k, |s|) && out[k] == OutputAt(kernel, step, s, k)
    ensures Complete(kernel, step, s, out)
  {
  }

  lemma Ratio(a: nat, b: nat)
    requires a > 0 && b > 0
    ensures a as real / b as real > 0.0
  {
  }

  lemma FedMore(fed: seq<Frame>, input: seq<Frame>)
    ensures Padded(fed + input) == Padded(fed) + input
  {
    assert seq(HALF, _ => (0, 0)) + (fed + input) == seq(HALF, _ => (0, 0)) + fed + input;
  }

  lemma PositionFacts(step: real, k: nat)
    requires step > 0.0
    ensures Position(step, k + 1) == Position(step, k) + step
    ensures Base(step, k) == Position(step, k).Floor >= HALF
    ensures forall length: nat :: Ready(step, k, length) <==> Base(step, k) + HALF < length
  {
    BaseGrows(step, 0, k);
    assert ((k + 1) as real) * step == (k as real) * step + step;
  }

  lemma Divided(x: real, step: real)
    requires step > 0.0
    ensures x / step * step == x && (x > 0.0 ==> x / step > 0.0)
  {
  }

  function Quotient(x: real, step: real): (q: real)
    requires step > 0.0
    ensures q == x / step && q * step == x && (x > 0.0 ==> q > 0.0)
  {
    Divided(x, step);
    x / step
  }

  lemma OneFewer(q: real, p: real, x: real, step: real)
    requires step > 0.0 && q * step == x && p * step == x - step
    ensures p == q - 1.0
  {
    var z := p - q + 1.0;
    assert z * step == 0.0;
    if z > 0.0 { Positive(z, step); }
    if z < 0.0 { Positive(-z, step); }
  }

  lemma Positive(z: real, step: real)
    requires z > 0.0 && step > 0.0
    ensures z * step > 0.0
  {
  }

  lemma Countdown(available: real, next: real, step: real)
    requires step > 0.0 && next < available
    ensures ((available - (next + step)) / step).Floor == ((available - next) / step).Floor - 1
    ensures ((available - next) / step).Floor >= 0
  {
    var x := available - next;
    var q, p := Quotient(x, step), Quotient(x - step, step);
    OneFewer(q, p, x, step);
    assert x - step == available - (next + step);
  }

  // ----- Which steps are safe --------------------------------------------------------

  /** Output `k` is the last the input allows, and the window of the one after it
      starts past the end of the input. */
  ghost predicate Overruns(step: real, from: nat, length: nat, k: nat) {
    from <= k && Ready(step, k, length) && !Ready(step, k + 1, length) && Base(step, k + 1) - (HALF - 1) > length
  }

  /** No input makes a fresh resampler overrun its history. */
  ghost predicate Safe(step: real) { forall length: nat, k: nat :: !Overruns(step, 0, length, k) }

  lemma NoOverrun(step: real, from: nat, length: nat, end: nat)
    requires step > 0.0 && from <= end && !Ready(step, end, length) && Base(step, end) - (HALF - 1) <= length
    requires forall i :: 0 <= i < end ==> Ready(step, i, length)
    ensures forall k: nat :: !Overruns(step, from, length, k)
  {
    forall k: nat ensures !Overruns(step, from, length, k) {
      if k >= end { BaseGrows(step, end, k); }
      assert k + 1 < end ==> Ready(step, k + 1, length);
    }
  }

  /** A step no longer than the window never overruns. */
  lemma ShortSteps(step: real, from: nat, length: nat, k: nat)
    requires 0.0 < step && Overruns(step, from, length, k)
    ensures step > 64.0
  {
    PositionFacts(step, k);
  }

  lemma {:induction false} Drift(step: real, n: nat)
    requires step > 64.0 && forall k :: 0 <= k < n ==> Base(step, k + 1) <= Base(step, k) + 64
    ensures Base(step, n) <= HALF + 64 * n
    decreases n
  {
    hide Base;
    if n == 0 {
      FirstBase(step);
    } else {
      Drift(step, n - 1);
      assert Base(step, (n - 1) + 1) <= Base(step, n - 1) + 64;
    }
  }

  lemma FirstBase(step: real)
    ensures Base(step, 0) == HALF
  {
  }

  /** A longer step gains a frame on the window sooner or later. */
  lemma Gains(step: real) returns (n: nat)
    requires step > 64.0
    ensures Base(step, n) > HALF + 64 * n
  {
    Divided(1.0, step - 64.0);
    n := (1.0 / (step - 64.0)).Floor + 1;
    Reciprocal(step - 64.0, n);
    assert Position(step, n) == 32.0 + 64.0 * n as real + n as real * (step - 64.0);
  }

  lemma Reciprocal(x: real, n: nat)
    requires x > 0.0 && n == (1.0 / x).Floor + 1
    ensures n as real * x >= 1.0
  {
    assert n as real >= 1.0 / x;
    assert n as real * x >= 1.0 / x * x;
  }

  /** So the drain of a fresh resampler is in bounds for every input if and only if
      the step is at most the window, 64 input frames for each output. */
  lemma SafeExactly(step: real)
    requires step > 0.0
    ensures Safe(step) <==> step <= 64.0
  {
    if step > 64.0 {
      var n := Gains(step);
      if forall k :: 0 <= k < n ==> Base(step, k + 1) <= Base(step, k) + 64 {
        Drift(step, n);
      } else {
        var k :| 0 <= k < n && Base(step, k + 1) > Base(step, k) + 64;
        BaseGrows(step, 0, k);
        assert Overruns(step, 0, Base(step, k) + HALF + 1, k);
      }
    } else {
      forall length: nat, k: nat | Overruns(step, 0, length, k) ensures false {
        ShortSteps(step, 0, length, k);
      }
    }
  }

  /** Which declared rates of a sound file a resampler down to 44100 Hz can take: up
      to 64 times that, with the 49716 Hz of the synthesizer far inside. */
  lemma SafeRates(hz: nat)
    requires hz > 0
    ensures Safe(hz as real / 44100.0) <==> hz <= 2_822_400
  {
    SafeExactly(hz as real / 44100.0);
  }

  // ----- Cutting the input ------------------------------------------------------------

  /** Any two ways of feeding one stream to two resamplers of one rate give the same
      output. */
  lemma ChunkingIsInvisible(a: Resampler, b: Resampler)
    requires a.Valid() && b.Valid() && a.step == b.step && a.kernel == b.kernel && a.fed == b.fed
    ensures a.produced == b.produced
  {
    OnlyOne(a.kernel, a.step, Padded(a.fed), a.produced, b.produced);
  }
}
