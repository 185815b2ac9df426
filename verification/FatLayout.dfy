/** The FAT32 hard-disk image as a layout: the geometry of a partition, the cluster
    chains of its directories and files, and the whole image as one run of parts
    end to end. */
module FatLayout {
  import opened Wrappers
  import opened LittleEndian

  type Bytes = seq<Byte>

  const BPS := 512
  const PART_START := 2048
  const RESERVED := 32
  const NUM_FATS := 2
  const ROOT_CLUSTER := 2
  const EOC := 0x0fff_ffff
  const MIN_CLUSTERS := 65525

  // ----- Geometry -------------------------------------------------------------------

  /** Cluster size by partition size, or too small for FAT32. */
  function SectorsPerCluster(total: nat): (spc: Option<nat>)
    ensures spc.Some? ==> total > 66_600 && 1 <= spc.value <= 64
  {
    if total <= 66_600 then None
    else if total <= 532_480 then Some(1)
    else if total <= 16_777_216 then Some(8)
    else if total <= 33_554_432 then Some(16)
    else if total <= 67_108_864 then Some(32)
    else Some(64)
  }

  function FatSize(total: nat, spc: nat): nat
    requires total >= RESERVED && spc >= 1
  {
    var divisor := 128 * spc + NUM_FATS;
    (total - RESERVED + (2 * spc + divisor - 1)) / divisor
  }

  /** Whole clusters left once the FATs of `fatsz` sectors are taken out. */
  function ClustersWith(total: nat, spc: nat, fatsz: nat): int
    requires spc >= 1
  {
    (total - RESERVED - NUM_FATS * fatsz) / spc
  }

  lemma CeilingBounds(x: nat, d: nat)
    requires d > 0
    ensures var q := (x + d - 1) / d; q * d >= x && (q - 1) * d < x + (if x == 0 then 1 else 0)
  {
    var q := (x + d - 1) / d;
    assert q * d + (x + d - 1) % d == x + d - 1;
  }

  lemma Grouped(f: int, spc: int)
    ensures f * (128 * spc + 2) == spc * (128 * f) + 2 * f
  {
  }

  /** The FAT chosen is big enough for every cluster and the two reserved entries,
      whatever the partition and the cluster size. */
  lemma FatHoldsAll(total: nat, spc: nat)
    requires total >= RESERVED && spc >= 1
    ensures 128 * FatSize(total, spc) >= ClustersWith(total, spc, FatSize(total, spc)) + 2
  {
    var f := FatSize(total, spc);
    var data := total - RESERVED - NUM_FATS * f;
    CeilingBounds(total - RESERVED + 2 * spc, 128 * spc + 2);
    Grouped(f, spc);
    Fits(spc, 128 * f, data);
  }

  lemma Fits(spc: int, entries: int, data: int)
    requires spc >= 1 && spc * entries >= data + 2 * spc
    ensures entries >= data / spc + 2
  {
    var q := data / spc;
    assert q * spc + data % spc == data;
    assert spc * (entries - 2) >= q * spc;
    if entries - 2 < q { Below(entries - 2, q, spc); }
  }

  lemma Below(a: int, b: int, c: int)
    requires a < b && c >= 1
    ensures a * c < b * c
  {
  }

  /** And it is the smallest FAT whose entries span the data sectors behind it. */
  lemma FatIsLeast(total: nat, spc: nat, f: nat)
    requires total >= RESERVED && spc >= 1
    ensures spc * (128 * f - 2) >= total - RESERVED - NUM_FATS * f <==> f >= FatSize(total, spc)
  {
    var need, d := total - RESERVED + 2 * spc, 128 * spc + 2;
    var least := FatSize(total, spc);
    CeilingBounds(need, d);
    Grouped(f, spc);
    if f >= least {
      Ordered(least, f, d);
    } else {
      Ordered(f, least - 1, d);
    }
  }

  lemma Ordered(a: int, b: int, c: int)
    requires a <= b && c >= 1
    ensures a * c <= b * c
  {
  }

  /** The bytes of `n` clusters. */
  function Span(n: nat, cb: nat): nat { n * cb }

  lemma SpanAdd(a: nat, b: nat, cb: nat)
    ensures Span(a + b, cb) == Span(a, cb) + Span(b, cb)
  {
  }

  lemma SpanLe(a: nat, b: nat, cb: nat)
    requires a <= b
    ensures Span(a, cb) <= Span(b, cb)
  {
  }

  lemma SpanNext(n: nat, cb: nat)
    ensures Span(n + 1, cb) == Span(n, cb) + cb && Span(0, cb) == 0
  {
  }

  /** A partition laid out as FAT32. */
  datatype Geo = Geo(total: nat, spc: nat, fatsz: nat, clusters: nat)
  {
    function ClusterBytes(): nat { spc * BPS }
    function PartOff(): nat { PART_START * BPS }
    function FatOff(): nat { PartOff() + RESERVED * BPS }
    function DataOff(): nat { FatOff() + NUM_FATS * (fatsz * BPS) }
    function Size(): nat { (PART_START + total) * BPS }
  }

  predicate GeoOk(g: Geo) {
    && 1 <= g.spc <= 64 && g.total >= RESERVED && g.total < 0x1_0000_0000 && g.fatsz < 0x1_0000_0000
    && RESERVED + NUM_FATS * g.fatsz + g.clusters * g.spc <= g.total
    && 128 * g.fatsz >= g.clusters + 2 && g.clusters + 2 < 0x0fff_fff8
  }

  /** The geometry of a partition, if it makes a valid FAT32. */
  function GeoOf(total: nat): (g: Option<Geo>)
    requires total < 0x1_0000_0000
    ensures g.Some? ==> GeoOk(g.value) && g.value.total == total && g.value.clusters >= MIN_CLUSTERS
  {
    var spc := SectorsPerCluster(total);
    if spc.None? then None else
    var fatsz := FatSize(total, spc.value);
    var clusters := ClustersWith(total, spc.value, fatsz);
    FatHoldsAll(total, spc.value);
    ClusterBounds(total, spc.value, fatsz);
    FewClusters(total, spc.value, clusters);
    if clusters < MIN_CLUSTERS then None else Some(Geo(total, spc.value, fatsz, clusters))
  }

  lemma ClusterBounds(total: nat, spc: nat, fatsz: nat)
    requires 1 <= spc <= 64 && RESERVED <= total < 0x1_0000_0000 && fatsz == FatSize(total, spc)
    ensures var clusters := ClustersWith(total, spc, fatsz);
      && fatsz < 0x1_0000_0000
      && clusters * spc <= total
      && (clusters >= 0 ==> RESERVED + NUM_FATS * fatsz + clusters * spc <= total && clusters <= total - RESERVED)
  {
    hide FatSize;
    WholeClusters(total - RESERVED - NUM_FATS * fatsz, spc);
    FatSizeBelow(total, spc);
    SmallFat(total, spc, fatsz);
  }

  /** The table of cluster sizes keeps the count inside 28 bits. */
  lemma FewClusters(total: nat, spc: nat, clusters: int)
    requires total < 0x1_0000_0000 && SectorsPerCluster(total) == Some(spc) && clusters * spc <= total
    ensures clusters <= 0x400_0000
  {
    if spc != 64 && clusters > 0 { Grow(clusters, spc); }
  }

  lemma WholeClusters(data: int, spc: nat)
    requires spc >= 1
    ensures var q := data / spc; q * spc <= data && (q >= 0 ==> q <= data)
  {
    var q := data / spc;
    assert q * spc + data % spc == data;
    if q >= 0 { Grow(q, spc); }
  }

  lemma FatSizeBelow(total: nat, spc: nat)
    requires spc >= 1 && total >= RESERVED
    ensures (FatSize(total, spc) - 1) * (128 * spc + 2) < total - RESERVED + 2 * spc + 1
  {
    CeilingBounds(total - RESERVED + 2 * spc, 128 * spc + 2);
  }

  lemma SmallFat(total: nat, spc: nat, fatsz: int)
    requires 1 <= spc <= 64 && RESERVED <= total < 0x1_0000_0000
    requires (fatsz - 1) * (128 * spc + 2) < total - RESERVED + 2 * spc + 1
    ensures fatsz < 0x1_0000_0000
  {
    if fatsz >= 1 { Grow(fatsz - 1, 128 * spc + 2); }
  }

  lemma Grow(a: int, b: int)
    requires a >= 0 && b >= 1
    ensures a * b >= a
  {
  }

  // ----- Bytes ------------------------------------------------------------------------

  function Zeros(n: nat): (z: Bytes)
    ensures |z| == n && forall k :: 0 <= k < n ==> z[k] == 0
  {
    seq(n, _ => 0)
  }

  /** `b` and then zeros up to `n` bytes; nothing is cut off. */
  function Pad(b: Bytes, n: nat): (p: Bytes)
    ensures |b| <= n ==> |p| == n
    ensures b <= p && forall k :: |b| <= k < |p| ==> p[k] == 0
  {
    if |b| <= n then b + Zeros(n - |b|) else b
  }

  /** `v` with `b` written over it from `at` on. */
  function Splice(v: Bytes, at: nat, b: Bytes): (w: Bytes)
    requires at + |b| <= |v|
    ensures |w| == |v|
    ensures forall k :: 0 <= k < |w| ==> w[k] == if at <= k < at + |b| then b[k - at] else v[k]
  {
    v[..at] + b + v[at + |b|..]
  }

  // ----- Boot sectors -----------------------------------------------------------------

  /** The three CHS bytes of a partition entry, on 16 heads and 63 sectors. */
  function Chs(lba: nat): (b: Bytes)
    ensures |b| == 3
  {
    var cyl := lba / (16 * 63);
    var rem := lba % (16 * 63);
    if cyl > 1023 then [0xfe, 0xff, 0xff]
    else [rem / 63, cyl / 256 * 64 + (rem % 63 + 1) % 64, cyl % 256]
  }

  /** The one partition entry, and the signature behind the table. */
  function StampMbr(mbr: Bytes, total: nat): (s: Bytes)
    requires |mbr| == BPS && total >= 1
    ensures |s| == BPS
  {
    Splice(Splice(mbr, 0x1be, PartitionEntry(total)), 0x1fe, [0x55, 0xaa])
  }

  function PartitionEntry(total: nat): (e: Bytes)
    requires total >= 1
    ensures |e| == 16
  {
    [0x80] + Chs(PART_START) + [0x0c] + Chs(PART_START + total - 1) + Le(PART_START, 4) + Le(total, 4)
  }

  /** The adjoining fields of the parameter block, from the OEM name to the backup
      sector number. */
  function ParameterBlock(g: Geo): (b: Bytes)
    requires GeoOk(g)
    ensures |b| == 49
  {
    Geometry(g) + Media(g) + Extended(g)
  }

  function Geometry(g: Geo): (b: Bytes)
    requires GeoOk(g)
    ensures |b| == 14
  {
    [0x4d, 0x53, 0x57, 0x49, 0x4e, 0x34, 0x2e, 0x31] + Le(BPS, 2) + [g.spc] + Le(RESERVED, 2) + [NUM_FATS]
  }

  function Media(g: Geo): (b: Bytes)
    ensures |b| == 19
  {
    Le(0, 2) + Le(0, 2) + [0xf8] + Le(0, 2) + Le(63, 2) + Le(16, 2) + Le(PART_START, 4) + Le(g.total, 4)
  }

  function Extended(g: Geo): (b: Bytes)
    ensures |b| == 16
  {
    Le(g.fatsz, 4) + Le(0, 2) + Le(0, 2) + Le(ROOT_CLUSTER, 4) + Le(1, 2) + Le(6, 2)
  }

  /** Extended boot signature, volume serial, label and type. */
  function VolumeBlock(): (b: Bytes)
    ensures |b| == 24
  {
    [0x29] + Le(0x3230_3236, 4) + [0x54, 0x4f, 0x4b, 0x41, 0x2d, 0x44, 0x4f, 0x53, 0x20, 0x20, 0x20]
    + [0x46, 0x41, 0x54, 0x33, 0x32, 0x20, 0x20, 0x20]
  }

  function StampVbr(vbr: Bytes, g: Geo): (s: Bytes)
    requires |vbr| == BPS && GeoOk(g)
    ensures |s| == BPS && s[0x1fe] == vbr[0x1fe] && s[0x1ff] == vbr[0x1ff]
  {
    Splice(Splice(Splice(vbr, 0x03, ParameterBlock(g)), 0x40, [0x80]), 0x42, VolumeBlock())
  }

  /** Stamping a stamped sector changes nothing. */
  lemma StampsOnce(mbr: Bytes, vbr: Bytes, g: Geo)
    requires |mbr| == |vbr| == BPS && GeoOk(g)
    ensures StampMbr(StampMbr(mbr, g.total), g.total) == StampMbr(mbr, g.total)
    ensures StampVbr(StampVbr(vbr, g), g) == StampVbr(vbr, g)
  {
    hide ParameterBlock, VolumeBlock, Le, Chs;
  }

  function FsInfo(free: nat, next: nat): (s: Bytes)
    ensures |s| == BPS
  {
    Le(0x4161_5252, 4) + Zeros(480) + Le(0x6141_7272, 4) + Le(free, 4) + Le(next, 4) + Zeros(12) + Le(0xaa55_0000, 4)
  }

  /** Everything in front of the first FAT. */
  function Boot(g: Geo, mbr: Bytes, vbr: Bytes, free: nat, next: nat): (b: Bytes)
    requires |mbr| == |vbr| == BPS && GeoOk(g)
    ensures |b| == g.FatOff()
  {
    BootWith(g, mbr, vbr, FsInfo(free, next))
  }

  function BootWith(g: Geo, mbr: Bytes, vbr: Bytes, info: Bytes): (b: Bytes)
    requires |mbr| == |vbr| == |info| == BPS && GeoOk(g)
    ensures |b| == g.FatOff()
  {
    StampMbr(mbr, g.total) + Zeros((PART_START - 1) * BPS) + StampVbr(vbr, g) + BootTail(StampVbr(vbr, g), info)
  }

  /** The reserved sectors behind the boot sector: FSInfo, and at sector 6 a second
      copy of both. */
  function BootTail(vbr: Bytes, info: Bytes): (b: Bytes)
    requires |vbr| == |info| == BPS
    ensures |b| == (RESERVED - 1) * BPS
  {
    info + Zeros(4 * BPS) + vbr + info + Zeros(24 * BPS)
  }

  // ----- Chains -----------------------------------------------------------------------

  function Sum(lens: seq<nat>): nat
    decreases |lens|
  {
    if lens == [] then 0 else Sum(lens[..|lens| - 1]) + lens[|lens| - 1]
  }

  /** The table entries of `n` clusters from `start` on, each naming the next. */
  function Chain(start: nat, n: nat): (c: seq<nat>)
    ensures |c| == n
  {
    seq(n, i requires 0 <= i < n => if i == n - 1 then EOC else start + i + 1)
  }

  /** Chains one after the other. */
  function Chained(start: nat, lens: seq<nat>): (c: seq<nat>)
    ensures |c| == Sum(lens)
    decreases |lens|
  {
    if lens == [] then []
    else Chained(start, lens[..|lens| - 1]) + Chain(start + Sum(lens[..|lens| - 1]), lens[|lens| - 1])
  }

  lemma {:induction false} SumPrefix(lens: seq<nat>, k: nat)
    requires k < |lens|
    ensures Sum(lens[..k + 1]) == Sum(lens[..k]) + lens[k] && Sum(lens[..k + 1]) <= Sum(lens)
    decreases |lens|
  {
    var n := |lens| - 1;
    assert lens[..k + 1][..k] == lens[..k];
    if k < n {
      SumPrefix(lens[..n], k);
      assert lens[..n][..k + 1] == lens[..k + 1] && lens[..n][..k] == lens[..k];
    } else {
      assert lens[..k + 1] == lens;
    }
  }

  /** Entry `i` of chain `k` names the next cluster of that chain, or its end. */
  lemma {:induction false} ChainedAt(start: nat, lens: seq<nat>, k: nat, i: nat)
    requires k < |lens| && i < lens[k]
    ensures Sum(lens[..k]) + i < Sum(lens)
    ensures Chained(start, lens)[Sum(lens[..k]) + i] == if i == lens[k] - 1 then EOC else start + Sum(lens[..k]) + i + 1
    decreases |lens|
  {
    var n := |lens| - 1;
    SumPrefix(lens, k);
    if k < n {
      assert lens[..n][..k] == lens[..k];
      ChainedAt(start, lens[..n], k, i);
    }
  }

  /** The file allocation table: two reserved entries, then the chains. */
  function Table(lens: seq<nat>): (t: seq<nat>)
    ensures |t| == 2 + Sum(lens)
  {
    [0x0fff_fff8, EOC] + Chained(ROOT_CLUSTER, lens)
  }

  /** Chain `k` starts where the one before it ended. */
  function StartOf(lens: seq<nat>, k: nat): nat
    requires k <= |lens|
  {
    ROOT_CLUSTER + Sum(lens[..k])
  }

  /** Any two chains are apart, in the order they were allocated. */
  lemma ChainsApart(lens: seq<nat>, j: nat, k: nat)
    requires j < k < |lens|
    ensures StartOf(lens, j) + lens[j] <= StartOf(lens, k)
  {
    SumPrefix(lens, j);
    StartsGrow(lens, j + 1, k);
  }

  /** Every chain lies in the data region and is walked in strictly increasing order
      to its end. */
  lemma ChainsAreSound(lens: seq<nat>, clusters: nat, k: nat, i: nat)
    requires 2 + Sum(lens) <= clusters + 2 && k < |lens| && i < lens[k]
    ensures ROOT_CLUSTER <= StartOf(lens, k) && StartOf(lens, k) + lens[k] <= clusters + 2
    ensures StartOf(lens, k) + i < |Table(lens)|
    ensures var next := Table(lens)[StartOf(lens, k) + i];
      if i == lens[k] - 1 then next == EOC else next == StartOf(lens, k) + i + 1 < StartOf(lens, k) + lens[k]
  {
    SumPrefix(lens, k);
    StartsGrow(lens, k + 1, |lens|);
    assert lens[..|lens|] == lens;
    TableAt(lens, k, i);
  }

  lemma TableAt(lens: seq<nat>, k: nat, i: nat)
    requires k < |lens| && i < lens[k]
    ensures StartOf(lens, k) + i < |Table(lens)|
    ensures Table(lens)[StartOf(lens, k) + i] == if i == lens[k] - 1 then EOC else StartOf(lens, k) + i + 1
  {
    hide Chained;
    ChainedAt(ROOT_CLUSTER, lens, k, i);
  }

  lemma {:induction false} StartsGrow(lens: seq<nat>, j: nat, k: nat)
    requires j <= k <= |lens|
    ensures Sum(lens[..j]) <= Sum(lens[..k])
    decreases k
  {
    if j < k {
      StartsGrow(lens, j, k - 1);
      SumPrefix(lens, k - 1);
    }
  }
}
