/** The write-and-publish bookkeeping of the track decoder. Packets arrive as runs
    of stereo samples; the loop writes them into a buffer sized by the probe and
    reports each newly finished run of sectors to a callback. */
module DecodePublish {
  import opened CdAudioTypes

  type Sample = (int, int)

  /** One call of the progress callback. */
  datatype Report = Report(ready: nat, bytes: seq<int>)

  function Clamp16(x: int): int {
    if x < -32768 then -32768 else if x > 32767 then 32767 else x
  }

  /** A 16-bit sample, little-endian. */
  function Le16(x: int): seq<int> {
    var u := (Clamp16(x) + 65536) % 65536;
    [u % 256, u / 256]
  }

  /** Byte `j` of the four a sample frame occupies. */
  function FrameByte(s: Sample, j: nat): int
    requires j < 4
  {
    if j < 2 then Le16(s.0)[j] else Le16(s.1)[j - 2]
  }

  function Flat(packets: seq<seq<Sample>>): seq<Sample>
    decreases |packets|
  {
    if packets == [] then [] else Flat(packets[..|packets| - 1]) + packets[|packets| - 1]
  }

  /** `buffer` with as many whole sample frames as fit written over its front. */
  function Written(buffer: seq<int>, samples: seq<Sample>): (w: seq<int>)
    ensures |w| == |buffer|
    ensures forall k :: 0 <= k < |w| ==> w[k] == WrittenByte(buffer, samples, k)
  {
    seq(|buffer|, k requires 0 <= k < |buffer| => WrittenByte(buffer, samples, k))
  }

  function WrittenByte(buffer: seq<int>, samples: seq<Sample>, k: nat): int
    requires k < |buffer|
  {
    if k / 4 < |samples| && k / 4 < |buffer| / 4 then FrameByte(samples[k / 4], k % 4) else buffer[k]
  }

  /** Everything the reports handed over, in order. */
  function Handed(reports: seq<Report>): seq<int>
    decreases |reports|
  {
    if reports == [] then [] else Handed(reports[..|reports| - 1]) + reports[|reports| - 1].bytes
  }

  /** A report that claims exactly the sectors handed over so far, and later than
      the one before by at least the fine step. */
  ghost predicate Exact(reports: seq<Report>)
    decreases |reports|
  {
    reports == [] ||
    (var front := reports[..|reports| - 1];
     var last := reports[|reports| - 1];
     && Exact(front)
     && last.ready * SECTOR_BYTES == |Handed(reports)|
     && last.ready >= FINE_PUBLISH + if front == [] then 0 else front[|front| - 1].ready)
  }

  /** The decode loop. The cancel flag is sticky: the poll after report `k` finds
      it set from `k == cancelAt` on. */
  method DecodeInto(packets: seq<seq<Sample>>, pcm: array<int>, cancelAt: nat)
    returns (reports: seq<Report>, taken: nat, closed: bool)
    modifies pcm
    ensures taken <= |packets| && (closed ==> taken == |packets|)
    ensures pcm[..] == Written(old(pcm[..]), Flat(packets[..taken]))
    ensures Handed(reports) <= pcm[..]
    ensures !closed ==> reports != [] && Exact(reports) && |reports| == cancelAt + 1
    ensures closed ==>
      && |reports| <= cancelAt + 1
      && reports != [] && Exact(reports[..|reports| - 1])
      && reports[|reports| - 1].ready == pcm.Length / SECTOR_BYTES
      && pcm[|Handed(reports)|..] == old(pcm[|Handed(reports)|..])
  {
    hide Written, WrittenByte, Flat, Handed, Exact, FrameByte, Le16, Covered, WholeSectors;
    ghost var before := pcm[..];
    Nothing(before);
    reports, taken, closed := [], 0, false;
    var written: nat, lastPublished: nat := 0, 0;
    var publishedBytes: nat := 0;
    assert packets[..0] == [];
    while taken < |packets|
      invariant taken <= |packets|
      invariant written == Min(|Flat(packets[..taken])|, pcm.Length / 4)
      invariant pcm[..] == Written(before, Flat(packets[..taken]))
      invariant publishedBytes == lastPublished * SECTOR_BYTES <= 4 * written
      invariant Handed(reports) == pcm[..publishedBytes]
      invariant Exact(reports) && |reports| <= cancelAt
      invariant lastPublished == if reports == [] then 0 else reports[|reports| - 1].ready
    {
      ghost var head := Flat(packets[..taken]);
      FlatMore(packets, taken);
      ghost var shown := pcm[..];
      written := WritePacket(packets[taken], pcm, written, head, before);
      taken := taken + 1;
      ShorterPrefix(shown, pcm[..], 4 * Min(|head|, pcm.Length / 4), publishedBytes);

      var complete := WholeSectors(written);
      WholeBound(written);
      if complete >= lastPublished + PublishStep(complete) {
        var upto := Min(complete * SECTOR_BYTES, pcm.Length);
        HandedMore(reports, Report(complete, pcm[publishedBytes..upto]), pcm[..], publishedBytes, upto);
        reports := reports + [Report(complete, pcm[publishedBytes..upto])];
        lastPublished, publishedBytes := complete, upto;
        if |reports| - 1 >= cancelAt {
          return;
        }
      }
    }
    assert packets[..taken] == packets;
    var covered := Covered(written, pcm.Length, publishedBytes);
    CoveredBound(written, pcm.Length, publishedBytes);
    HandedMore(reports, Report(pcm.Length / SECTOR_BYTES, pcm[publishedBytes..covered]), pcm[..], publishedBytes,
               covered);
    reports := reports + [Report(pcm.Length / SECTOR_BYTES, pcm[publishedBytes..covered])];
    closed := true;
    TailUntouched(before, Flat(packets), covered);
  }

  function WholeSectors(samples: nat): nat { samples / SECTOR_SAMPLES }

  lemma WholeBound(samples: nat)
    ensures WholeSectors(samples) * SECTOR_BYTES <= 4 * samples
  {
  }

  lemma CoveredBound(written: nat, size: nat, sent: nat)
    requires sent <= 4 * written <= size
    ensures 4 * written <= Covered(written, size, sent) <= size && sent <= Covered(written, size, sent)
  {
  }

  lemma Nothing(buffer: seq<int>)
    ensures Flat([]) == [] && Handed([]) == [] && Exact([]) && Written(buffer, []) == buffer
  {
  }

  lemma ShorterPrefix(a: seq<int>, b: seq<int>, m: nat, n: nat)
    requires n <= m <= |a| && m <= |b| && a[..m] == b[..m]
    ensures a[..n] == b[..n]
  {
    assert a[..n] == a[..m][..n] && b[..n] == b[..m][..n];
  }

  lemma FlatMore(packets: seq<seq<Sample>>, n: nat)
    requires n < |packets|
    ensures Flat(packets[..n + 1]) == Flat(packets[..n]) + packets[n]
  {
    assert packets[..n + 1][..n] == packets[..n];
  }

  lemma TailUntouched(before: seq<int>, samples: seq<Sample>, n: nat)
    requires 4 * Min(|samples|, |before| / 4) <= n <= |before|
    ensures Written(before, samples)[n..] == before[n..]
  {
  }

  lemma HandedMore(reports: seq<Report>, next: Report, pcm: seq<int>, from: nat, upto: nat)
    requires from <= upto <= |pcm| && Handed(reports) == pcm[..from] && next.bytes == pcm[from..upto]
    ensures (reports + [next])[..|reports|] == reports
    ensures Handed(reports + [next]) == pcm[..upto]
    ensures (&& Exact(reports) && next.ready * SECTOR_BYTES == upto
             && next.ready >= FINE_PUBLISH + if reports == [] then 0 else reports[|reports| - 1].ready)
            ==> Exact(reports + [next])
  {
    assert (reports + [next])[..|reports|] == reports;
    assert pcm[..from] + pcm[from..upto] == pcm[..upto];
  }

  /** The inner loop: one packet's samples, the surplus past the end dropped. */
  method WritePacket(out: seq<Sample>, pcm: array<int>, written: nat, ghost head: seq<Sample>, ghost before: seq<int>)
    returns (after: nat)
    requires |before| == pcm.Length && written == Min(|head|, pcm.Length / 4)
    requires pcm[..] == Written(before, head)
    modifies pcm
    ensures after == Min(|head + out|, pcm.Length / 4)
    ensures pcm[..] == Written(before, head + out)
    ensures pcm[..4 * written] == old(pcm[..4 * written])
  {
    after := written;
    var k := 0;
    assert head + out[..0] == head;
    while k < |out|
      invariant k <= |out|
      invariant after == Min(|head| + k, pcm.Length / 4) >= written
      invariant forall b :: 0 <= b < pcm.Length ==> pcm[b] == WrittenByte(before, head + out[..k], b)
      invariant pcm[..4 * written] == old(pcm[..4 * written])
    {
      var at := 4 * after;
      if at + 4 > pcm.Length {
        break;
      }
      var left, right := Le16(out[k].0), Le16(out[k].1);
      pcm[at], pcm[at + 1], pcm[at + 2], pcm[at + 3] := left[0], left[1], right[0], right[1];
      assert head + out[..k + 1] == head + out[..k] + [out[k]];
      after, k := after + 1, k + 1;
    }
    assert forall b :: 0 <= b < pcm.Length ==>
      WrittenByte(before, head + out[..k], b) == WrittenByte(before, head + out, b);
  }

  // ----- What a mirroring caller gets ------------------------------------------

  /** A second buffer filled only from the reports, as the worker fills a track. */
  function Mirror(buffer: seq<int>, reports: seq<Report>): seq<int> {
    Handed(reports) + buffer[Min(|Handed(reports)|, |buffer|)..]
  }

  /** A caller that copies each report's bytes once, behind the ones before, ends
      with the padded track: nothing skipped, nothing copied twice, and silence
      exactly where the audio ran short. */
  lemma MirrorIsWhole(samples: seq<Sample>, size: nat, pcm: seq<int>, reports: seq<Report>)
    requires size % 4 == 0 && pcm == Written(Zeros(size), samples)
    requires Handed(reports) <= pcm && pcm[|Handed(reports)|..] == Zeros(size)[|Handed(reports)|..]
    ensures Mirror(Zeros(size), reports) == Padded(Bytes(samples), size)
  {
    var n := |Handed(reports)|;
    assert pcm == Padded(Bytes(samples), size);
    assert pcm == pcm[..n] + pcm[n..];
  }

  /** The audio of a track: the four bytes of each sample frame, in order. */
  function Bytes(samples: seq<Sample>): (b: seq<int>) {
    seq(4 * |samples|, k requires 0 <= k < 4 * |samples| => FrameByte(samples[k / 4], k % 4))
  }
}
