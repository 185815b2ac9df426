/** Reading an image back: the boot sectors, and every file the directories lead to. */
module FatExtract {
  import opened Wrappers
  import opened LittleEndian
  import opened FatLayout
  import opened FatImage

  /** Where a volume says its parts are. */
  datatype Vol = Vol(cb: nat, fatOff: nat, dataOff: nat, root: nat)

  type Found = seq<(Name, Bytes)>

  const LAST_CLUSTER := 0x0fff_fff8

  /** A slice that stops at the end of the image. */
  function Slice(img: Bytes, at: nat, n: nat): Bytes {
    if at >= |img| then [] else if at + n > |img| then img[at..] else img[at..at + n]
  }

  function VolOf(img: Bytes): Vol
    requires |img| >= (PART_START + 1) * BPS
  {
    var vbr := img[PART_START * BPS..PART_START * BPS + BPS];
    var spc, reserved, fats := vbr[0x0d] as int, FromLe(vbr[0x0e..0x10]), vbr[0x10] as int;
    var fatsz := FromLe(vbr[0x24..0x28]);
    Vol(spc * BPS, PART_START * BPS + reserved * BPS, PART_START * BPS + (reserved + fats * fatsz) * BPS,
        FromLe(vbr[0x2c..0x30]))
  }

  function ClusterPos(v: Vol, c: nat): nat
    requires c >= 2
  {
    v.dataOff + Span(c - 2, v.cb)
  }

  /** The table entry of a cluster, unless it lies past the end of the image. */
  function FatEntry(img: Bytes, v: Vol, c: nat): Option<nat> {
    var at := v.fatOff + 4 * c;
    if at + 4 > |img| then None else Some(FromLe(img[at..at + 4]) % 0x1000_0000)
  }

  /** Follow a chain from `c` until `size` bytes are in hand, it ends, or the walk has
      taken as many steps as the image has sectors. */
  function Gather(img: Bytes, v: Vol, c: nat, size: nat, out: Bytes, steps: nat): Option<Bytes>
    decreases steps
  {
    if steps == 0 || |out| >= size || !(2 <= c < LAST_CLUSTER) then
      if |out| < size then None else Some(out[..size])
    else
      var next := FatEntry(img, v, c);
      if next.None? then None else Gather(img, v, next.value, size, out + Slice(img, ClusterPos(v, c), v.cb), steps - 1)
  }

  /** The walk as the loop takes it. */
  method ChainBytes(img: Bytes, v: Vol, first: nat, size: nat) returns (r: Option<Bytes>)
    ensures r == Gather(img, v, first, size, [], |img| / BPS)
  {
    var out: Bytes, c: nat, steps := [], first, |img| / BPS;
    while steps > 0 && |out| < size && 2 <= c < LAST_CLUSTER
      invariant steps >= 0 && Gather(img, v, first, size, [], |img| / BPS) == Gather(img, v, c, size, out, steps)
      decreases steps
    {
      var next := FatEntry(img, v, c);
      if next.None? {
        return None;
      }
      out := out + Slice(img, ClusterPos(v, c), v.cb);
      c := next.value;
      steps := steps - 1;
    }
    if |out| < size {
      return None;
    }
    return Some(out[..size]);
  }

  predicate Ascii(b: Bytes) { forall k :: 0 <= k < |b| ==> b[k] < 0x80 }

  /** An entry that names nothing: deleted, part of a long name, or a label. */
  predicate Skipped(de: Bytes)
    requires |de| == 32
  {
    de[0] == 0xe5 || de[11] == 0x0f || de[11] / 8 % 2 == 1
  }

  function FirstCluster(de: Bytes): nat
    requires |de| == 32
  {
    FromLe(de[0x14..0x16]) * 0x1_0000 + FromLe(de[0x1a..0x1c])
  }

  const DOT: Byte := 0x2e

  function Joined(a: Option<Found>, b: Option<Found>): Option<Found> {
    if a.None? || b.None? then None else Some(a.value + b.value)
  }

  /** What one entry leads to. `fuel` bounds the directory clusters still to be
      visited on one path. */
  function Item(img: Bytes, v: Vol, de: Bytes, fuel: nat): Option<Found>
    requires |de| == 32 && fuel > 0
    decreases fuel, 0, 0
  {
    if Skipped(de) then Some([])
    else if !Ascii(de[0..11]) then None
    else
      var name := Name(Trimmed(de[0..8]), Trimmed(de[8..11]));
      if de[11] / 0x10 % 2 == 1 then
        if name.base == [DOT] || name.base == [DOT, DOT] then Some([]) else Walk(img, v, FirstCluster(de), fuel - 1)
      else
        var data := Gather(img, v, FirstCluster(de), FromLe(de[0x1c..0x20]), [], |img| / BPS);
        if data.None? then None else Some([(name, data.value)])
  }

  /** The rest of a directory, from entry offset `e` of cluster `c`. */
  function Scan(img: Bytes, v: Vol, c: nat, e: nat, fuel: nat): Option<Found>
    requires fuel > 0 && c >= 2
    decreases fuel, 1, v.cb - e
  {
    if e >= v.cb then
      var next := FatEntry(img, v, c);
      if next.None? then None else Walk(img, v, next.value, fuel - 1)
    else
      var de := Slice(img, ClusterPos(v, c) + e, 32);
      if |de| < 32 then None
      else if de[0] == 0 then Some([])
      else Joined(Item(img, v, de, fuel), Scan(img, v, c, e + 32, fuel))
  }

  function Walk(img: Bytes, v: Vol, c: nat, fuel: nat): Option<Found>
    decreases fuel, 2, 0
  {
    if !(2 <= c < LAST_CLUSTER) then Some([]) else if fuel == 0 then None else Scan(img, v, c, 0, fuel)
  }

  lemma JoinedAssoc(a: Option<Found>, b: Option<Found>, c: Option<Found>)
    ensures Joined(Joined(a, b), c) == Joined(a, Joined(b, c))
  {
    if a.Some? && b.Some? && c.Some? { assert a.value + b.value + c.value == a.value + (b.value + c.value); }
  }

  lemma JoinedNone(a: Option<Found>)
    ensures Joined(Some([]), a) == a && Joined(a, Some([])) == a
  {
    if a.Some? { assert [] + a.value == a.value && a.value + [] == a.value; }
  }

  /** The walk over a directory's clusters and their entries, descending where an
      entry is a directory. */
  method WalkDir(img: Bytes, v: Vol, dir: nat, fuel: nat) returns (r: Option<Found>)
    ensures r == Walk(img, v, dir, fuel)
    decreases fuel, 1
  {
    hide Item, Scan, Walk, Joined;
    var files: Found, c: nat, left: nat := [], dir, fuel;
    WalkStep(img, v, dir, fuel);
    JoinedNone(Walk(img, v, dir, fuel));
    while 2 <= c < LAST_CLUSTER && left > 0
      invariant 0 <= left <= fuel
      invariant Walk(img, v, dir, fuel) == Joined(Some(files), Walk(img, v, c, left))
      decreases left
    {
      WalkStep(img, v, c, left);
      var e := 0;
      while e < v.cb
        invariant 0 <= e && Walk(img, v, dir, fuel) == Joined(Some(files), Scan(img, v, c, e, left))
        decreases v.cb - e
      {
        ScanStep(img, v, c, e, left);
        var de := Slice(img, ClusterPos(v, c) + e, 32);
        if |de| < 32 {
          NoneJoins(Some(files));
          return None;
        }
        if de[0] == 0 {
          JoinedNone(Some(files));
          return Some(files);
        }
        var found := ReadEntry(img, v, de, left);
        if found.None? {
          NoneJoins(Some(files));
          NoneFirst(Scan(img, v, c, e + 32, left));
          return None;
        }
        JoinedAssoc(Some(files), found, Scan(img, v, c, e + 32, left));
        BothSome(files, found.value);
        files := files + found.value;
        e := e + 32;
      }
      ScanStep(img, v, c, e, left);
      var next := FatEntry(img, v, c);
      if next.None? {
        NoneJoins(Some(files));
        return None;
      }
      c, left := next.value, left - 1;
    }
    WalkStep(img, v, c, left);
    if 2 <= c < LAST_CLUSTER {
      NoneJoins(Some(files));
      return None;
    }
    JoinedNone(Some(files));
    return Some(files);
  }

  method ReadEntry(img: Bytes, v: Vol, de: Bytes, fuel: nat) returns (r: Option<Found>)
    requires |de| == 32 && fuel > 0
    ensures r == Item(img, v, de, fuel)
    decreases fuel, 0
  {
    hide Walk, Gather, Trimmed;
    if Skipped(de) {
      return Some([]);
    }
    if !Ascii(de[0..11]) {
      return None;
    }
    var name := Name(Trimmed(de[0..8]), Trimmed(de[8..11]));
    if de[11] / 0x10 % 2 == 1 {
      if name.base == [DOT] || name.base == [DOT, DOT] {
        return Some([]);
      }
      r := WalkDir(img, v, FirstCluster(de), fuel - 1);
      return;
    }
    var data := ChainBytes(img, v, FirstCluster(de), FromLe(de[0x1c..0x20]));
    return if data.None? then None else Some([(name, data.value)]);
  }

  lemma WalkStep(img: Bytes, v: Vol, c: nat, fuel: nat)
    ensures Walk(img, v, c, fuel) ==
      if !(2 <= c < LAST_CLUSTER) then Some([]) else if fuel == 0 then None else Scan(img, v, c, 0, fuel)
  {
    hide Scan;
  }

  lemma ScanStep(img: Bytes, v: Vol, c: nat, e: nat, fuel: nat)
    requires fuel > 0 && c >= 2
    ensures e >= v.cb ==>
      var next := FatEntry(img, v, c);
      Scan(img, v, c, e, fuel) == if next.None? then None else Walk(img, v, next.value, fuel - 1)
    ensures e < v.cb ==>
      var de := Slice(img, ClusterPos(v, c) + e, 32);
      Scan(img, v, c, e, fuel) ==
      if |de| < 32 then None
      else if de[0] == 0 then Some([])
      else Joined(Item(img, v, de, fuel), Scan(img, v, c, e + 32, fuel))
  {
    hide Item, Walk, Joined;
  }

  lemma NoneJoins(a: Option<Found>)
    ensures Joined(a, None) == None
  {
  }

  lemma NoneFirst(a: Option<Found>)
    ensures Joined(None, a) == None
  {
  }

  lemma BothSome(a: Found, b: Found)
    ensures Joined(Some(a), Some(b)) == Some(a + b)
  {
  }

  datatype Parts = Parts(mbr: Bytes, vbr: Bytes, files: Found)

  function Extracted(img: Bytes): Option<Parts>
    requires |img| >= (PART_START + 1) * BPS
  {
    var v := VolOf(img);
    var files := Walk(img, v, v.root, |img|);
    if files.None? then None
    else Some(Parts(img[0..BPS], img[PART_START * BPS..PART_START * BPS + BPS], files.value))
  }

  /** The boot sectors and the files of an image. */
  method Extract(img: Bytes) returns (r: Option<Parts>)
    requires |img| >= (PART_START + 1) * BPS
    ensures r == Extracted(img)
  {
    hide Walk, VolOf;
    var v := VolOf(img);
    var files := WalkDir(img, v, v.root, |img|);
    if files.None? {
      return None;
    }
    return Some(Parts(img[0..BPS], img[PART_START * BPS..PART_START * BPS + BPS], files.value));
  }
}
