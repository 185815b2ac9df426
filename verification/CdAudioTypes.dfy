/** Vocabulary shared by the two CD-audio modules: the sector geometry of a Red
    Book frame, the image of one track, and the publish cadence of the decoder. */
module CdAudioTypes {

  /** Bytes in one audio sector, and stereo 16-bit sample frames in one. */
  const SECTOR_BYTES := 2352
  const SECTOR_SAMPLES := 588

  const FINE_PUBLISH := 4
  const COARSE_PUBLISH := 64
  const FINE_PUBLISH_UNTIL := 64

  function Min(a: int, b: int): int {
    if a <= b then a else b
  }

  function Zeros(n: nat): (z: seq<int>)
    ensures |z| == n
    ensures forall k :: 0 <= k < n ==> z[k] == 0
  {
    seq(n, _ => 0)
  }

  /** `bytes` cut or zero-padded to exactly `n` entries: a decode that runs long
      is truncated and one that runs short leaves silence. */
  function Padded(bytes: seq<int>, n: nat): (p: seq<int>)
    ensures |p| == n
    ensures forall k :: 0 <= k < n ==> p[k] == if k < |bytes| then bytes[k] else 0
  {
    if |bytes| >= n then bytes[..n] else bytes + Zeros(n - |bytes|)
  }

  /** Sectors that must have completed since the last report before the next. */
  function PublishStep(complete: nat): nat {
    if complete < FINE_PUBLISH_UNTIL then FINE_PUBLISH else COARSE_PUBLISH
  }

  /** How far the closing report reaches into a buffer of `size` bytes: every
      sector `written` sample frames touch, never less than was already sent. */
  function Covered(written: nat, size: nat, sent: nat): nat {
    var audioBytes := Min(written * 4, size);
    var sectors := (audioBytes + SECTOR_BYTES - 1) / SECTOR_BYTES;
    var reach := Min(sectors * SECTOR_BYTES, size);
    if reach < sent then sent else reach
  }
}
