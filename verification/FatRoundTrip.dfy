/** What is built is what is extracted, and building from what was extracted gives
    the image again. */
module FatRoundTrip {
  import opened Wrappers
  import opened LittleEndian
  import opened FatLayout
  import opened FatImage
  import opened FatExtract

  // ----- Slices of runs ---------------------------------------------------------------

  /** `part` stands at `at` in `img`. */
  ghost predicate Holds(img: Bytes, at: nat, part: Bytes) {
    at + |part| <= |img| && img[at..at + |part|] == part
  }

  lemma HoldsWithin(img: Bytes, at: nat, part: Bytes, from: nat, sub: Bytes)
    requires Holds(img, at, part) && Holds(part, from, sub)
    ensures Holds(img, at + from, sub)
  {
    var s := img[at + from..at + from + |sub|];
    assert forall k :: 0 <= k < |part| ==> img[at + k] == img[at..at + |part|][k] == part[k];
    assert forall k :: 0 <= k < |sub| ==> part[from + k] == part[from..from + |sub|][k] == sub[k];
    assert forall k :: 0 <= k < |sub| ==> s[k] == img[at + (from + k)];
    assert s == sub;
  }

  lemma HoldsRun(a: Bytes, b: Bytes, c: Bytes)
    ensures Holds(a + b + c, |a|, b) && Holds(a + b, |a|, b) && Holds(b + c, 0, b)
  {
    assert (a + b + c)[|a|..|a| + |b|] == b && (a + b)[|a|..|a| + |b|] == b && (b + c)[0..|b|] == b;
  }

  lemma HoldsSlice(img: Bytes, at: nat, part: Bytes)
    requires Holds(img, at, part) && part != []
    ensures Slice(img, at, |part|) == part
  {
  }

  lemma PadHolds(b: Bytes, n: nat)
    ensures Holds(Pad(b, n), 0, b)
  {
    assert Pad(b, n)[0..|b|] == b;
  }

  // ----- The parts of the image -----------------------------------------------------------

  lemma RunOfFour(b: Bytes, f: Bytes, d: Bytes, n: nat)
    ensures var img := Pad(b + f + f + d, n);
      Holds(img, 0, b) && Holds(img, |b|, f) && Holds(img, |b| + |f| + |f|, d)
  {
    hide Pad, Holds;
    PadHolds(b + f + f + d, n);
    PartsAt(Pad(b + f + f + d, n), 0, b, f, f, d);
  }

  lemma ImageParts(g: Geo, mbr: Bytes, vbr: Bytes, root: seq<File>, dos: seq<File>)
    requires Buildable(g, mbr, vbr, root, dos)
    requires 4 * (2 + Sum(Lens(g, root, dos))) <= g.fatsz * BPS
    ensures var img := Image(g, mbr, vbr, root, dos);
      && Holds(img, 0, BootParts(g, mbr, vbr, root, dos))
      && Holds(img, g.FatOff(), FatArea(g, Lens(g, root, dos)))
      && Holds(img, g.DataOff(), DataArea(g, root, dos))
  {
    hide BootParts, FatArea, DataArea, Holds, Pad, Lens, NextFree, FilesOk;
    var b, f, d := BootParts(g, mbr, vbr, root, dos), FatArea(g, Lens(g, root, dos)), DataArea(g, root, dos);
    RunOfFour(b, f, d, g.Size());
  }

  lemma BootRun(m: Bytes, gap: Bytes, s: Bytes, tail: Bytes, img: Bytes)
    requires Holds(img, 0, m + gap + s + tail)
    ensures Holds(img, 0, m) && Holds(img, |m| + |gap|, s)
  {
    var boot := m + gap + s + tail;
    HoldsRun([], m, gap + s + tail);
    assert m + (gap + s + tail) == boot;
    HoldsRun(m + gap, s, tail);
    HoldsWithin(img, 0, boot, 0, m);
    HoldsWithin(img, 0, boot, |m + gap|, s);
  }

  /** The boot sectors come back as they were stamped. */
  lemma BootReads(g: Geo, mbr: Bytes, vbr: Bytes, root: seq<File>, dos: seq<File>)
    requires Buildable(g, mbr, vbr, root, dos)
    ensures var img := Image(g, mbr, vbr, root, dos);
      && img[0..BPS] == StampMbr(mbr, g.total)
      && img[PART_START * BPS..PART_START * BPS + BPS] == StampVbr(vbr, g)
  {
    hide StampMbr, StampVbr, FsInfo, Image, FilesOk, NextFree, Zeros, Lens, BootTail, FatArea, DataArea;
    TableFits(g, root, dos);
    ImageParts(g, mbr, vbr, root, dos);
    var m, s, info := StampMbr(mbr, g.total), StampVbr(vbr, g), FsInfo(FreeCount(g, root, dos), NextFree(g, root, dos));
    var img := Image(g, mbr, vbr, root, dos);
    var gap := Zeros((PART_START - 1) * BPS);
    assert Holds(img, 0, m) && Holds(img, |m| + |gap|, s) by {
      hide Holds;
      BootRun(m, gap, s, BootTail(s, info), img);
    }
  }

  /** The volume's own description of itself. */
  lemma VolReads(g: Geo, mbr: Bytes, vbr: Bytes, root: seq<File>, dos: seq<File>)
    requires Buildable(g, mbr, vbr, root, dos)
    ensures VolOf(Image(g, mbr, vbr, root, dos)) == VolFor(g)
  {
    hide Image, StampVbr, StampMbr, FromLe, FilesOk, NextFree;
    BootReads(g, mbr, vbr, root, dos);
    FieldsRead(vbr, g);
    Regrouped(g.fatsz);
  }

  lemma Regrouped(fatsz: nat)
    ensures (RESERVED + NUM_FATS * fatsz) * BPS == RESERVED * BPS + NUM_FATS * (fatsz * BPS)
  {
  }

  function VolFor(g: Geo): Vol { Vol(g.ClusterBytes(), g.FatOff(), g.DataOff(), ROOT_CLUSTER) }

  lemma FieldsRead(vbr: Bytes, g: Geo)
    requires |vbr| == BPS && GeoOk(g)
    ensures var s := StampVbr(vbr, g);
      && s[0x0d] == g.spc && FromLe(s[0x0e..0x10]) == RESERVED && s[0x10] == NUM_FATS
      && FromLe(s[0x24..0x28]) == g.fatsz && FromLe(s[0x2c..0x30]) == ROOT_CLUSTER
  {
    hide Le, FromLe, ParameterBlock, VolumeBlock;
    var s, b := StampVbr(vbr, g), ParameterBlock(g);
    assert s[0x03..0x34] == b;
    BlockFields(g);
    assert s[0x0d] == b[10] && s[0x10] == b[13];
    assert s[0x0e..0x10] == b[11..13] && s[0x24..0x28] == b[33..37] && s[0x2c..0x30] == b[41..45];
  }

  lemma BlockFields(g: Geo)
    requires GeoOk(g)
    ensures var b := ParameterBlock(g);
      && b[10] == g.spc && FromLe(b[11..13]) == RESERVED && b[13] == NUM_FATS
      && FromLe(b[33..37]) == g.fatsz && FromLe(b[41..45]) == ROOT_CLUSTER
  {
    hide Le, FromLe, Geometry, Media, Extended;
    GeometryFields(g);
    ExtendedFields(g);
    var b := ParameterBlock(g);
    assert b[11..13] == Geometry(g)[11..13] && b[33..37] == Extended(g)[0..4] && b[41..45] == Extended(g)[8..12];
  }

  lemma GeometryFields(g: Geo)
    requires GeoOk(g)
    ensures var b := Geometry(g); b[10] == g.spc && FromLe(b[11..13]) == RESERVED && b[13] == NUM_FATS
  {
    hide Le, FromLe;
    Sizes();
    assert Geometry(g)[11..13] == Le(RESERVED, 2);
    LeReads(RESERVED, 2);
  }

  lemma ExtendedFields(g: Geo)
    requires GeoOk(g)
    ensures var b := Extended(g); FromLe(b[0..4]) == g.fatsz && FromLe(b[8..12]) == ROOT_CLUSTER
  {
    hide Le, FromLe;
    Sizes();
    var b := Extended(g);
    assert b[0..4] == Le(g.fatsz, 4) && b[8..12] == Le(ROOT_CLUSTER, 4);
    LeReads(g.fatsz, 4);
    LeReads(ROOT_CLUSTER, 4);
  }

  // ----- The table -----------------------------------------------------------------------

  lemma {:induction false} TableHolds(t: seq<nat>, c: nat)
    requires c < |t|
    ensures Holds(TableBytes(t), 4 * c, Le(t[c], 4))
    decreases |t|
  {
    hide Le;
    var n := |t| - 1;
    var front, last := TableBytes(t[..n]), Le(t[n], 4);
    HoldsRun(front, last, []);
    if c < n {
      TableHolds(t[..n], c);
      StillHolds(front, last, 4 * c, Le(t[c], 4));
    }
  }

  lemma {:induction false} ChainedSmall(start: nat, lens: seq<nat>)
    requires start + Sum(lens) <= 0x0fff_fff8
    ensures forall k :: 0 <= k < |Chained(start, lens)| ==> Chained(start, lens)[k] < 0x1000_0000
    decreases |lens|
  {
    if lens != [] { ChainedSmall(start, lens[..|lens| - 1]); }
  }

  /** The walk reads the table the chains were laid out in. */
  lemma EntryRead(g: Geo, img: Bytes, lens: seq<nat>, c: nat)
    requires GeoOk(g) && 2 + Sum(lens) <= g.clusters + 2 && 4 * (2 + Sum(lens)) <= g.fatsz * BPS && c < 2 + Sum(lens)
    requires Holds(img, g.FatOff(), FatArea(g, lens))
    ensures FatEntry(img, VolFor(g), c) == Some(Table(lens)[c])
  {
    hide Le, Chained, TableBytes, Holds, FatArea, Table, FatEntry;
    TableHeld(g, img, lens, c);
    TableSmall(lens, c);
    EntryFrom(img, VolFor(g), c, Table(lens)[c]);
  }

  lemma TableHeld(g: Geo, img: Bytes, lens: seq<nat>, c: nat)
    requires 4 * (2 + Sum(lens)) <= g.fatsz * BPS && c < 2 + Sum(lens) && Holds(img, g.FatOff(), FatArea(g, lens))
    ensures Holds(img, g.FatOff() + 4 * c, Le(Table(lens)[c], 4))
  {
    hide Le, Table, TableBytes, Holds, Pad;
    var t := Table(lens);
    TableHolds(t, c);
    PadHolds(TableBytes(t), g.fatsz * BPS);
    HoldsWithin(FatArea(g, lens), 0, TableBytes(t), 4 * c, Le(t[c], 4));
    HoldsWithin(img, g.FatOff(), FatArea(g, lens), 4 * c, Le(t[c], 4));
  }

  lemma TableSmall(lens: seq<nat>, c: nat)
    requires c < 2 + Sum(lens) <= 0x0fff_fff8
    ensures Table(lens)[c] < 0x1000_0000
  {
    hide Chained;
    ChainedSmall(ROOT_CLUSTER, lens);
  }

  lemma EntryFrom(img: Bytes, v: Vol, c: nat, value: nat)
    requires value < 0x1000_0000 && Holds(img, v.fatOff + 4 * c, Le(value, 4))
    ensures FatEntry(img, v, c) == Some(value)
  {
    hide Le, FromLe;
    Sizes();
    LeReads(value, 4);
  }

  // ----- Chains -----------------------------------------------------------------------------

  /** Clusters `first` to `first + n - 1` are one chain. */
  ghost predicate Linked(img: Bytes, v: Vol, first: nat, n: nat) {
    && first >= 2 && first + n < LAST_CLUSTER
    && forall c :: first <= c < first + n ==> FatEntry(img, v, c) == Some(if c == first + n - 1 then EOC else c + 1)
  }

  lemma ChainLinked(g: Geo, img: Bytes, lens: seq<nat>, k: nat)
    requires GeoOk(g) && 2 + Sum(lens) <= g.clusters + 2 && 4 * (2 + Sum(lens)) <= g.fatsz * BPS && k < |lens|
    requires Holds(img, g.FatOff(), FatArea(g, lens))
    ensures Linked(img, VolFor(g), StartOf(lens, k), lens[k])
  {
    hide FatArea, Table, FatEntry, Holds;
    SumPrefix(lens, k);
    var start := StartOf(lens, k);
    forall c | start <= c < start + lens[k]
      ensures FatEntry(img, VolFor(g), c) == Some(if c == start + lens[k] - 1 then EOC else c + 1)
    {
      TableAt(lens, k, c - start);
      EntryRead(g, img, lens, c);
    }
  }

  /** Gathering from cluster `first + i` on, with what came before in hand. */
  lemma {:induction false} GatherRun(img: Bytes, v: Vol, first: nat, n: nat, data: Bytes, i: nat, steps: nat)
    requires n >= 1 && Linked(img, v, first, n) && i <= n && v.cb > 0 && Span(n - 1, v.cb) < |data| <= Span(n, v.cb)
    requires ClusterPos(v, first) + Span(n, v.cb) <= |img| && Holds(img, ClusterPos(v, first), data) && steps >= n - i
    ensures var at := ClusterPos(v, first);
      Span(i, v.cb) >= 0 && at + Span(i, v.cb) <= |img| &&
      Gather(img, v, if i == n then EOC else first + i, |data|, img[at..at + Span(i, v.cb)], steps) == Some(data)
    decreases n - i
  {
    hide Span, FatEntry;
    var at, cb := ClusterPos(v, first), v.cb;
    SpanLe(i, n, cb);
    var out := img[at..at + Span(i, cb)];
    if i == n {
      assert out[..|data|] == img[at..at + |data|];
    } else {
      SpanLe(i, n - 1, cb);
      SpanNext(i, cb);
      SpanNext(first + i - 2, cb);
      SpanAdd(first - 2, i, cb);
      SpanLe(i + 1, n, cb);
      var c := first + i;
      assert ClusterPos(v, c) == at + Span(i, cb);
      assert Slice(img, ClusterPos(v, c), cb) == img[at + Span(i, cb)..at + Span(i + 1, cb)];
      assert out + img[at + Span(i, cb)..at + Span(i + 1, cb)] == img[at..at + Span(i + 1, cb)];
      GatherRun(img, v, first, n, data, i + 1, steps - 1);
    }
  }

  /** A file's data comes back off its chain. */
  lemma FileGathered(img: Bytes, v: Vol, first: nat, data: Bytes)
    requires v.cb > 0 && Linked(img, v, first, Count(|data|, v.cb)) && |img| / BPS >= Count(|data|, v.cb)
    requires ClusterPos(v, first) + Span(Count(|data|, v.cb), v.cb) <= |img| && Holds(img, ClusterPos(v, first), data)
    ensures Gather(img, v, first, |data|, [], |img| / BPS) == Some(data)
  {
    hide Span, Gather, Count, Holds, FatEntry;
    SpanNext(0, v.cb);
    if data == [] {
      GatherNothing(img, v, first, |img| / BPS);
    } else {
      var n := Count(|data|, v.cb);
      CountTight(|data|, v.cb);
      GatherRun(img, v, first, n, data, 0, |img| / BPS);
      var at := ClusterPos(v, first);
      assert img[at..at + Span(0, v.cb)] == [];
    }
  }

  lemma GatherNothing(img: Bytes, v: Vol, c: nat, steps: nat)
    ensures Gather(img, v, c, 0, [], steps) == Some([])
  {
  }

  lemma CountTight(length: nat, cb: nat)
    requires length > 0 && cb > 0
    ensures Span(Count(length, cb) - 1, cb) < length <= Span(Count(length, cb), cb) && Count(length, cb) >= 1
  {
    Ceiling(length, cb);
  }

  // ----- Directories -----------------------------------------------------------------------

  /** A directory of `k` clusters at `c` with `dir` in it, `m` entries and zeros
      behind. */
  ghost predicate DirHere(img: Bytes, v: Vol, c: nat, k: nat, dir: Bytes, m: nat) {
    && Linked(img, v, c, k) && k >= 1 && v.cb > 0 && v.cb % 32 == 0
    && |dir| == Span(k, v.cb) && 32 * m <= |dir| && Holds(img, ClusterPos(v, c), dir)
    && forall x :: 32 * m <= x < |dir| ==> dir[x] == 0
  }

  /** Entry `t` leads to `found`, given enough fuel. */
  ghost predicate LeadsTo(img: Bytes, v: Vol, dir: Bytes, t: nat, found: Found, fuel: nat) {
    32 * t + 32 <= |dir| && dir[32 * t] != 0 && Yields(img, v, dir[32 * t..32 * t + 32], found, fuel)
  }

  ghost predicate Yields(img: Bytes, v: Vol, record: Bytes, found: Found, fuel: nat)
    requires |record| == 32
  {
    forall f: nat :: f > fuel ==> Item(img, v, record, f) == Some(found)
  }

  /** Everything from entry `t` on. */
  function FlatFrom(items: seq<Found>, t: nat): Found
    requires t <= |items|
    decreases |items| - t
  {
    if t == |items| then [] else items[t] + FlatFrom(items, t + 1)
  }

  lemma RecordAt(img: Bytes, v: Vol, c: nat, dir: Bytes, i: nat, e: nat, t: nat)
    requires v.cb > 0 && c >= 2 && Holds(img, ClusterPos(v, c), dir) && Span(i, v.cb) + e == 32 * t
             && 32 * t + 32 <= |dir|
    ensures Slice(img, ClusterPos(v, c + i) + e, 32) == dir[32 * t..32 * t + 32]
  {
    hide Span;
    SpanAdd(c - 2, i, v.cb);
    var rec := dir[32 * t..32 * t + 32];
    HoldsWithin(img, ClusterPos(v, c), dir, 32 * t, rec);
    HoldsSlice(img, ClusterPos(v, c) + 32 * t, rec);
  }

  /** The walk reads every entry of a directory, across its clusters, and stops at the
      first free one or at the end of the chain. */
  lemma {:induction false} ScanDir(img: Bytes, v: Vol, c: nat, k: nat, dir: Bytes, items: seq<Found>, need: nat,
                                   i: nat, e: nat, t: nat, fuel: nat)
    requires DirHere(img, v, c, k, dir, |items|) && forall t' :: 0 <= t' < |items| ==>
      LeadsTo(img, v, dir, t', items[t'], need)
    requires i < k && e <= v.cb && e % 32 == 0 && Span(i, v.cb) + e == 32 * t && t <= |items| && fuel > k - i + need
    ensures Scan(img, v, c + i, e, fuel) == Some(FlatFrom(items, t))
    decreases k - i, v.cb - e
  {
    hide Span, Item, Walk, Scan, FatEntry, Slice, Holds, FlatFrom;
    ScanStep(img, v, c + i, e, fuel);
    FlatStep(items, t);
    if e == v.cb {
      SpanNext(i, v.cb);
      assert FatEntry(img, v, c + i) == Some(if i == k - 1 then EOC else c + i + 1);
      if i == k - 1 {
        WalkStep(img, v, EOC, fuel - 1);
      } else {
        WalkStep(img, v, c + i + 1, fuel - 1);
        ScanDir(img, v, c, k, dir, items, need, i + 1, 0, t, fuel - 1);
      }
    } else {
      InDirectory(i, k, v.cb, e, t);
      RecordAt(img, v, c, dir, i, e, t);
      if t < |items| {
        assert LeadsTo(img, v, dir, t, items[t], need);
        ScanDir(img, v, c, k, dir, items, need, i, e + 32, t + 1, fuel);
      } else {
        assert dir[32 * t] == 0;
      }
    }
  }

  lemma FlatStep(items: seq<Found>, t: nat)
    requires t <= |items|
    ensures FlatFrom(items, t) == if t == |items| then [] else items[t] + FlatFrom(items, t + 1)
  {
  }

  /** An offset inside a cluster of the directory leaves room for its entry. */
  lemma InDirectory(i: nat, k: nat, cb: nat, e: nat, t: nat)
    requires i < k && e < cb && e % 32 == 0 && cb % 32 == 0 && Span(i, cb) + e == 32 * t
    ensures e + 32 <= cb && 32 * t + 32 <= Span(k, cb)
  {
    SpanLe(i + 1, k, cb);
    SpanNext(i, cb);
  }

  /** The whole directory. */
  lemma WalkReads(img: Bytes, v: Vol, c: nat, k: nat, dir: Bytes, items: seq<Found>, need: nat, fuel: nat)
    requires DirHere(img, v, c, k, dir, |items|) && forall t :: 0 <= t < |items| ==>
      LeadsTo(img, v, dir, t, items[t], need)
    requires fuel > k + need
    ensures Walk(img, v, c, fuel) == Some(FlatFrom(items, 0))
  {
    hide Span, Item, Walk, Scan, FatEntry, Slice, Holds, FlatFrom, LeadsTo;
    SpanNext(0, v.cb);
    WalkStep(img, v, c, fuel);
    ScanDir(img, v, c, k, dir, items, need, 0, 0, 0, fuel);
  }

  // ----- The entries of a listing ------------------------------------------------------------

  lemma CountsPrefix(files: seq<File>, t: nat, cb: nat)
    requires cb > 0 && t <= |files|
    ensures Counts(files, cb)[..t] == Counts(files[..t], cb)
  {
  }

  lemma StillHolds(front: Bytes, last: Bytes, at: nat, part: Bytes)
    requires Holds(front, at, part)
    ensures Holds(front + last, at, part)
  {
    HoldsRun([], front, last);
    assert [] + front + last == front + last;
    HoldsWithin(front + last, 0, front, at, part);
  }

  lemma {:induction false} ListingAt(files: seq<File>, start: nat, cb: nat, t: nat)
    requires cb > 0 && FilesOk(files) && t < |files|
    ensures Holds(Listing(files, start, cb), 32 * t, EntryOf(files[t], start + Sum(Counts(files[..t], cb))))
    decreases |files|
  {
    hide EntryOf, Counts, Holds, FileOk;
    var n := |files| - 1;
    var front, last := Listing(files[..n], start, cb), EntryOf(files[n], start + Sum(Counts(files[..n], cb)));
    if t < n {
      ListingAt(files[..n], start, cb, t);
      assert files[..n][..t] == files[..t];
      StillHolds(front, last, 32 * t, EntryOf(files[t], start + Sum(Counts(files[..t], cb))));
    } else {
      HoldsRun(front, last, []);
    }
  }

  lemma {:induction false} AreaAt(files: seq<File>, cb: nat, t: nat)
    requires cb > 0 && t < |files|
    ensures Holds(Area(files, cb), Span(Sum(Counts(files[..t], cb)), cb), files[t].data)
    decreases |files|
  {
    hide Span, Counts, Count, Sum;
    var n := |files| - 1;
    var front, part := Area(files[..n], cb), Pad(files[n].data, Span(Count(|files[n].data|, cb), cb));
    assert Area(files, cb) == front + part;
    HoldsRun(front, part, []);
    if t < n {
      AreaAt(files[..n], cb, t);
      assert files[..n][..t] == files[..t];
      StillHolds(front, part, Span(Sum(Counts(files[..t], cb)), cb), files[t].data);
    } else {
      PadHolds(files[n].data, Span(Count(|files[n].data|, cb), cb));
      HoldsWithin(front + part, |front|, part, 0, files[n].data);
    }
  }

  function FoundOf(files: seq<File>): Found {
    seq(|files|, k requires 0 <= k < |files| => (files[k].name, files[k].data))
  }

  /** A file's entry leads to the file. */
  lemma FileItem(img: Bytes, v: Vol, f: File, first: nat, fuel: nat)
    requires FileOk(f) && first < 0x1000_0000 && fuel > 0
    requires Gather(img, v, first, |f.data|, [], |img| / BPS) == Some(f.data)
    ensures var e := EntryOf(f, first);
      e[0] != 0 && Item(img, v, e, fuel) == Some([(f.name, f.data)])
  {
    hide Gather, Walk, FromLe, Le, Trimmed, Entry;
    var e := EntryOf(f, first);
    EntryReads(NameField(f.name), first, |f.data|, f.attr);
    NameReads(f.name);
    NameAscii(f.name);
    FieldSlices(e, NameField(f.name));
  }

  lemma FieldSlices(e: Bytes, field: Bytes)
    requires |e| == 32 && |field| == 11 && e[0..11] == field
    ensures e[0..8] == field[0..8] && e[8..11] == field[8..11] && e[0] == field[0]
  {
    assert e[0..8] == e[0..11][0..8] && e[8..11] == e[0..11][8..11] && e[0] == e[0..11][0];
  }

  lemma NameAscii(n: Name)
    requires NameOk(n)
    ensures Ascii(NameField(n))
  {
  }

  // ----- Files at their place ------------------------------------------------------------------

  /** The first cluster of file `t` of a list laid out from `start`. */
  function FirstOf(files: seq<File>, start: nat, cb: nat, t: nat): nat
    requires cb > 0 && t <= |files|
  {
    start + Sum(Counts(files[..t], cb))
  }

  /** A list of files laid out from cluster `start`, data and chains. */
  ghost predicate FilesHere(img: Bytes, v: Vol, files: seq<File>, start: nat) {
    && v.cb >= BPS && start >= 2 && Holds(img, ClusterPos(v, start), Area(files, v.cb))
    && forall t :: 0 <= t < |files| ==> Linked(img, v, FirstOf(files, start, v.cb, t), Count(|files[t].data|, v.cb))
  }

  lemma CountsSum(files: seq<File>, cb: nat, t: nat)
    requires cb > 0 && t < |files|
    ensures Sum(Counts(files[..t], cb)) + Count(|files[t].data|, cb) <= Sum(Counts(files, cb))
  {
    hide Sum, Count;
    CountsPrefix(files, t, cb);
    SumPrefix(Counts(files, cb), t);
  }

  lemma FilePlaced(img: Bytes, v: Vol, files: seq<File>, start: nat, t: nat)
    requires FilesHere(img, v, files, start) && t < |files|
    ensures Gather(img, v, FirstOf(files, start, v.cb, t), |files[t].data|, [], |img| / BPS) == Some(files[t].data)
  {
    hide Span, Gather, Linked, Holds, Sum, Counts, Count, Area;
    var cb, x, n := v.cb, Sum(Counts(files[..t], v.cb)), Count(|files[t].data|, v.cb);
    var first := FirstOf(files, start, cb, t);
    AreaAt(files, cb, t);
    CountsSum(files, cb, t);
    HoldsEnds(img, ClusterPos(v, start), Area(files, cb));
    PlaceBounds(v, start, x, n, Sum(Counts(files, cb)), |img|);
    HoldsWithin(img, ClusterPos(v, start), Area(files, cb), Span(x, cb), files[t].data);
    assert Linked(img, v, first, n);
    FileGathered(img, v, first, files[t].data);
  }

  lemma PlaceBounds(v: Vol, start: nat, x: nat, n: nat, all: nat, length: nat)
    requires start >= 2 && v.cb >= BPS && x + n <= all && ClusterPos(v, start) + Span(all, v.cb) <= length
    ensures ClusterPos(v, start + x) == ClusterPos(v, start) + Span(x, v.cb)
    ensures ClusterPos(v, start + x) + Span(n, v.cb) <= length && length / BPS >= n
  {
    hide Span;
    SpanAdd(start - 2, x, v.cb);
    SpanLe(x + n, all, v.cb);
    SpanAdd(x, n, v.cb);
    SpanNext(x, v.cb);
    SpanNext(start - 2, v.cb);
    EnoughSectors(n, v.cb, length);
  }

  lemma HoldsEnds(img: Bytes, at: nat, part: Bytes)
    requires Holds(img, at, part)
    ensures at + |part| <= |img|
  {
  }

  lemma EnoughSectors(n: nat, cb: nat, length: nat)
    requires cb >= BPS && Span(n, cb) <= length
    ensures length / BPS >= n
  {
    Scaled(n, BPS, cb);
  }

  lemma Scaled(n: nat, a: nat, b: nat)
    requires a <= b
    ensures n * a <= n * b
  {
  }

  /** The entry of file `t` in a listing leads to it. */
  lemma ListedLeads(img: Bytes, v: Vol, files: seq<File>, start: nat, dir: Bytes, from: nat, t: nat)
    requires FilesOk(files) && FilesHere(img, v, files, start) && t < |files|
    requires Holds(dir, 32 * from, Listing(files, start, v.cb))
    ensures LeadsTo(img, v, dir, from + t, [(files[t].name, files[t].data)], 0)
  {
    hide Span, Gather, Item, Listing, EntryOf, FileOk, Holds, Linked, Area, LeadsTo, Yields, Counts, Sum, Count;
    var first := FirstOf(files, start, v.cb, t);
    var e := EntryOf(files[t], first);
    ListingAt(files, start, v.cb, t);
    HoldsWithin(dir, 32 * from, Listing(files, start, v.cb), 32 * t, e);
    FilePlaced(img, v, files, start, t);
    LinkedBelow(img, v, first, Count(|files[t].data|, v.cb));
    FileYields(img, v, files[t], first);
    RecordLeads(img, v, dir, from + t, e, [(files[t].name, files[t].data)], 0);
  }

  lemma LinkedBelow(img: Bytes, v: Vol, first: nat, n: nat)
    requires Linked(img, v, first, n)
    ensures first < 0x1000_0000
  {
  }

  lemma FileYields(img: Bytes, v: Vol, f: File, first: nat)
    requires FileOk(f) && first < 0x1000_0000 && Gather(img, v, first, |f.data|, [], |img| / BPS) == Some(f.data)
    ensures EntryOf(f, first)[0] != 0 && Yields(img, v, EntryOf(f, first), [(f.name, f.data)], 0)
  {
    hide Gather, Item, EntryOf, FileOk;
    FileItem(img, v, f, first, 1);
    forall n: nat | n > 0 ensures Item(img, v, EntryOf(f, first), n) == Some([(f.name, f.data)]) {
      FileItem(img, v, f, first, n);
    }
  }

  lemma RecordLeads(img: Bytes, v: Vol, dir: Bytes, t: nat, e: Bytes, found: Found, need: nat)
    requires |e| == 32 && e[0] != 0 && Holds(dir, 32 * t, e) && Yields(img, v, e, found, need)
    ensures LeadsTo(img, v, dir, t, found, need)
  {
    hide Yields;
    assert dir[32 * t] == dir[32 * t..32 * t + 32][0];
  }

  /** An entry for a directory leads to what the directory leads to. */
  lemma SubdirItem(img: Bytes, v: Vol, field: Bytes, first: nat, found: Found, need: nat)
    requires |field| == 11 && Ascii(field) && field[0] != 0 && field[0] != 0xe5 && first < 0x1000_0000
    requires Trimmed(field[0..8]) != [DOT] && Trimmed(field[0..8]) != [DOT, DOT]
    requires forall f: nat :: f > need ==> Walk(img, v, first, f) == Some(found)
    ensures var e := Entry(field, first, 0, SUBDIR); e[0] != 0 && Yields(img, v, e, found, need + 1)
  {
    hide Walk, Gather, FromLe, Le, Trimmed, Entry;
    var e := Entry(field, first, 0, SUBDIR);
    EntryReads(field, first, 0, SUBDIR);
    FieldSlices(e, field);
    forall f: nat | f > need + 1 ensures Item(img, v, e, f) == Some(found) {
      assert Walk(img, v, first, f - 1) == Some(found);
    }
  }

  /** The two dot entries lead nowhere. */
  lemma DotItem(img: Bytes, v: Vol, field: Bytes, first: nat)
    requires |field| == 11 && Ascii(field) && field[0] != 0 && field[0] != 0xe5 && first < 0x1000_0000
    requires Trimmed(field[0..8]) == [DOT] || Trimmed(field[0..8]) == [DOT, DOT]
    ensures var e := Entry(field, first, 0, SUBDIR); e[0] != 0 && Yields(img, v, e, [], 0)
  {
    hide Walk, Gather, FromLe, Le, Trimmed, Entry;
    var e := Entry(field, first, 0, SUBDIR);
    EntryReads(field, first, 0, SUBDIR);
    FieldSlices(e, field);
  }

  lemma FixedFields()
    ensures Ascii(DOS_FIELD) && Ascii(DOT_FIELD) && Ascii(DOTDOT_FIELD)
    ensures Trimmed(DOT_FIELD[0..8]) == [DOT] && Trimmed(DOTDOT_FIELD[0..8]) == [DOT, DOT]
    ensures Trimmed(DOS_FIELD[0..8]) == [0x44, 0x4f, 0x53]
  {
    hide Trimmed;
    TrimSpaced([DOT], 8);
    TrimSpaced([DOT, DOT], 8);
    TrimSpaced([0x44, 0x4f, 0x53], 8);
    assert DOT_FIELD[0..8] == Spaced([DOT], 8) && DOTDOT_FIELD[0..8] == Spaced([DOT, DOT], 8);
    assert DOS_FIELD[0..8] == Spaced([0x44, 0x4f, 0x53], 8);
  }

  // ----- The layout, chain by chain ---------------------------------------------------------------

  /** What extraction relies on: the table and the data region are where the boot
      sector says. */
  ghost predicate Laid(g: Geo, img: Bytes, root: seq<File>, dos: seq<File>) {
    && GeoOk(g) && FilesOk(root) && FilesOk(dos)
    && NextFree(g, root, dos) == 2 + Sum(Lens(g, root, dos)) <= g.clusters + 2
    && 4 * (2 + Sum(Lens(g, root, dos))) <= g.fatsz * BPS
    && Holds(img, g.FatOff(), FatArea(g, Lens(g, root, dos))) && Holds(img, g.DataOff(), DataArea(g, root, dos))
  }

  lemma RunOfParts(a: Bytes, b: Bytes, c: Bytes, d: Bytes)
    ensures var r := a + b + c + d;
      Holds(r, 0, a) && Holds(r, |a|, b) && Holds(r, |a| + |b|, c) && Holds(r, |a| + |b| + |c|, d)
  {
    var r := a + b + c + d;
    HoldsRun([], a, b + c + d);
    assert a + (b + c + d) == r;
    HoldsRun(a, b, c + d);
    assert a + b + (c + d) == r;
    HoldsRun(a + b, c, d);
    HoldsRun(a + b + c, d, []);
  }

  lemma PartsAt(img: Bytes, off: nat, a: Bytes, b: Bytes, c: Bytes, d: Bytes)
    requires Holds(img, off, a + b + c + d)
    ensures Holds(img, off, a) && Holds(img, off + |a|, b) && Holds(img, off + |a| + |b|, c)
            && Holds(img, off + |a| + |b| + |c|, d)
  {
    hide Holds;
    var r := a + b + c + d;
    RunOfParts(a, b, c, d);
    HoldsWithin(img, off, r, 0, a);
    HoldsWithin(img, off, r, |a|, b);
    HoldsWithin(img, off, r, |a| + |b|, c);
    HoldsWithin(img, off, r, |a| + |b| + |c|, d);
  }

  lemma DirSizes(g: Geo, root: seq<File>, dos: seq<File>)
    requires g.spc >= 1 && FilesOk(root) && FilesOk(dos)
    ensures var cb := g.ClusterBytes();
      && |Pad(RootDir(g, root, dos), Span(DirClusters(|root| + 1, g), cb))| == Span(DirClusters(|root| + 1, g), cb)
      && |Pad(DosDir(g, root, dos), Span(DirClusters(|dos| + 2, g), cb))| == Span(DirClusters(|dos| + 2, g), cb)
  {
    hide Span, RootDir, DosDir;
  }

  lemma Positions(g: Geo, rc: nat, dc: nat, n: nat)
    ensures var v, cb, off := VolFor(g), g.ClusterBytes(), g.DataOff();
      && ClusterPos(v, 2) == off && ClusterPos(v, 2 + rc) == off + Span(rc, cb)
      && ClusterPos(v, 2 + rc + dc) == off + Span(rc, cb) + Span(dc, cb)
      && ClusterPos(v, 2 + rc + dc + n) == off + Span(rc, cb) + Span(dc, cb) + Span(n, cb)
  {
    hide Span, Geo.DataOff, Geo.FatOff;
    SpanNext(0, g.ClusterBytes());
    SpanAdd(rc, dc, g.ClusterBytes());
    SpanAdd(rc + dc, n, g.ClusterBytes());
  }

  /** The parts of the data region at their clusters. */
  lemma DataParts(g: Geo, img: Bytes, root: seq<File>, dos: seq<File>)
    requires Laid(g, img, root, dos)
    ensures var v, cb := VolFor(g), g.ClusterBytes();
      && Holds(img, ClusterPos(v, ROOT_CLUSTER), Pad(RootDir(g, root, dos), Span(DirClusters(|root| + 1, g), cb)))
      && Holds(img, ClusterPos(v, DosFirst(g, root)), Pad(DosDir(g, root, dos), Span(DirClusters(|dos| + 2, g), cb)))
      && Holds(img, ClusterPos(v, RootStart(g, root, dos)), Area(root, cb))
      && Holds(img, ClusterPos(v, DosStart(g, root, dos)), Area(dos, cb))
  {
    hide Span, RootDir, DosDir, Area, Count, Counts, Sum, Holds, Lens, FatArea, Pad, ClusterPos, Geo.DataOff, FilesOk,
      DirClusters, DataArea, Laid, GeoOk, Geo.FatOff, Geo.PartOff, NextFree;
    LaidData(g, img, root, dos);
    var cb := g.ClusterBytes();
    PartsInRow(g, img, root, dos);
    Positions(g, DirClusters(|root| + 1, g), DirClusters(|dos| + 2, g), Sum(Counts(root, cb)));
  }

  lemma LaidData(g: Geo, img: Bytes, root: seq<File>, dos: seq<File>)
    requires Laid(g, img, root, dos)
    ensures GeoOk(g) && g.spc >= 1 && FilesOk(root) && FilesOk(dos) && Holds(img, g.DataOff(), DataArea(g, root, dos))
  {
  }

  lemma PartsInRow(g: Geo, img: Bytes, root: seq<File>, dos: seq<File>)
    requires GeoOk(g) && FilesOk(root) && FilesOk(dos) && Holds(img, g.DataOff(), DataArea(g, root, dos))
    ensures var cb, off := g.ClusterBytes(), g.DataOff();
      var rc, dc := Span(DirClusters(|root| + 1, g), cb), Span(DirClusters(|dos| + 2, g), cb);
      && Holds(img, off, Pad(RootDir(g, root, dos), rc)) && Holds(img, off + rc, Pad(DosDir(g, root, dos), dc))
      && Holds(img, off + rc + dc, Area(root, cb))
      && Holds(img, off + rc + dc + Span(Sum(Counts(root, cb)), cb), Area(dos, cb))
  {
    hide Span, RootDir, DosDir, Area, Count, Counts, Sum, Holds, Pad, Geo.DataOff, FilesOk, DirClusters;
    var cb := g.ClusterBytes();
    var rc, dc := Span(DirClusters(|root| + 1, g), cb), Span(DirClusters(|dos| + 2, g), cb);
    DirSizes(g, root, dos);
    PartsAt(img, g.DataOff(), Pad(RootDir(g, root, dos), rc), Pad(DosDir(g, root, dos), dc), Area(root, cb),
            Area(dos, cb));
  }

  /** Which chain is whose. */
  lemma LensAt(g: Geo, root: seq<File>, dos: seq<File>)
    requires g.spc >= 1
    ensures var lens, cb := Lens(g, root, dos), g.ClusterBytes();
      && |lens| == 2 + |root| + |dos|
      && StartOf(lens, 0) == ROOT_CLUSTER && lens[0] == DirClusters(|root| + 1, g)
      && StartOf(lens, 1) == DosFirst(g, root) && lens[1] == DirClusters(|dos| + 2, g)
  {
    var lens := Lens(g, root, dos);
    assert lens[..0] == [] && lens[..1][..0] == [] && lens[..1] == [lens[0]];
  }

  lemma RootLensAt(g: Geo, root: seq<File>, dos: seq<File>, t: nat)
    requires g.spc >= 1 && t < |root|
    ensures var lens, cb := Lens(g, root, dos), g.ClusterBytes();
      && 2 + t < |lens| && lens[2 + t] == Count(|root[t].data|, cb)
      && StartOf(lens, 2 + t) == FirstOf(root, RootStart(g, root, dos), cb, t)
  {
    hide Count, DirClusters;
    var lens, cb := Lens(g, root, dos), g.ClusterBytes();
    var dirs := [DirClusters(|root| + 1, g), DirClusters(|dos| + 2, g)];
    CountsPrefix(root, t, cb);
    assert lens[..2 + t] == dirs + Counts(root, cb)[..t];
    SumSplit(dirs, Counts(root, cb)[..t]);
    SumTwo(dirs[0], dirs[1]);
  }

  lemma DosLensAt(g: Geo, root: seq<File>, dos: seq<File>, t: nat)
    requires g.spc >= 1 && t < |dos|
    ensures var lens, cb := Lens(g, root, dos), g.ClusterBytes();
      && 2 + |root| + t < |lens| && lens[2 + |root| + t] == Count(|dos[t].data|, cb)
      && StartOf(lens, 2 + |root| + t) == FirstOf(dos, DosStart(g, root, dos), cb, t)
  {
    hide Count, DirClusters;
    var lens, cb := Lens(g, root, dos), g.ClusterBytes();
    var dirs := [DirClusters(|root| + 1, g), DirClusters(|dos| + 2, g)];
    CountsPrefix(dos, t, cb);
    assert lens[..2 + |root| + t] == dirs + Counts(root, cb) + Counts(dos, cb)[..t];
    SumSplit(dirs + Counts(root, cb), Counts(dos, cb)[..t]);
    SumSplit(dirs, Counts(root, cb));
    SumTwo(dirs[0], dirs[1]);
  }

  lemma FilesAreHere(g: Geo, img: Bytes, root: seq<File>, dos: seq<File>)
    requires Laid(g, img, root, dos)
    ensures FilesHere(img, VolFor(g), root, RootStart(g, root, dos))
            && FilesHere(img, VolFor(g), dos, DosStart(g, root, dos))
  {
    hide Span, Holds, Linked, Area, Lens, StartOf, FirstOf, Count, FatArea, DataArea, RootDir, DosDir, Sum, Counts;
    var lens, v := Lens(g, root, dos), VolFor(g);
    DataParts(g, img, root, dos);
    forall t | 0 <= t < |root|
      ensures Linked(img, v, FirstOf(root, RootStart(g, root, dos), v.cb, t), Count(|root[t].data|, v.cb))
    {
      RootLensAt(g, root, dos, t);
      ChainLinked(g, img, lens, 2 + t);
    }
    forall t | 0 <= t < |dos|
      ensures Linked(img, v, FirstOf(dos, DosStart(g, root, dos), v.cb, t), Count(|dos[t].data|, v.cb))
    {
      DosLensAt(g, root, dos, t);
      ChainLinked(g, img, lens, 2 + |root| + t);
    }
  }

  lemma DirsAreHere(g: Geo, img: Bytes, root: seq<File>, dos: seq<File>)
    requires Laid(g, img, root, dos)
    ensures var v, cb := VolFor(g), g.ClusterBytes();
      var rc, dc := DirClusters(|root| + 1, g), DirClusters(|dos| + 2, g);
      && DirHere(img, v, ROOT_CLUSTER, rc, Pad(RootDir(g, root, dos), Span(rc, cb)), |root| + 1)
      && DirHere(img, v, DosFirst(g, root), dc, Pad(DosDir(g, root, dos), Span(dc, cb)), |dos| + 2)
  {
    hide Span, Holds, Linked, Area, Lens, StartOf, FatArea, DataArea, RootDir, DosDir, Sum, Counts, FilesOk, DirHere,
      DirClusters, Pad, ClusterPos;
    DataParts(g, img, root, dos);
    LensAt(g, root, dos);
    ChainLinked(g, img, Lens(g, root, dos), 0);
    ChainLinked(g, img, Lens(g, root, dos), 1);
    DirIsHere(img, g, ROOT_CLUSTER, RootDir(g, root, dos), |root| + 1);
    DirIsHere(img, g, DosFirst(g, root), DosDir(g, root, dos), |dos| + 2);
  }

  lemma DirIsHere(img: Bytes, g: Geo, c: nat, dir: Bytes, m: nat)
    requires g.spc >= 1 && m >= 1 && |dir| == 32 * m && Linked(img, VolFor(g), c, DirClusters(m, g))
    requires Holds(img, ClusterPos(VolFor(g), c), Pad(dir, Span(DirClusters(m, g), g.ClusterBytes())))
    ensures var k := DirClusters(m, g); DirHere(img, VolFor(g), c, k, Pad(dir, Span(k, g.ClusterBytes())), m)
  {
    hide Span, Holds, Linked, ClusterPos;
  }

  // ----- The walk of a built image -----------------------------------------------------------------

  function Singles(files: seq<File>): (s: seq<Found>)
    ensures |s| == |files|
  {
    seq(|files|, k requires 0 <= k < |files| => [(files[k].name, files[k].data)])
  }

  lemma {:induction false} FlatSingles(items: seq<Found>, files: seq<File>, from: nat, t: nat)
    requires t <= |files| && from + |files| <= |items|
    requires forall k :: 0 <= k < |files| ==> items[from + k] == Singles(files)[k]
    ensures FlatFrom(items, from + t) == FoundOf(files[t..]) + FlatFrom(items, from + |files|)
    decreases |files| - t
  {
    hide FlatFrom;
    FlatStep(items, from + t);
    if t < |files| {
      FlatSingles(items, files, from, t + 1);
      assert items[from + t] == Singles(files)[t];
      assert FoundOf(files[t..]) == [(files[t].name, files[t].data)] + FoundOf(files[t + 1..]);
    } else {
      assert FoundOf(files[t..]) == [];
    }
  }

  lemma LeadsMore(img: Bytes, v: Vol, dir: Bytes, t: nat, found: Found, need: nat)
    requires LeadsTo(img, v, dir, t, found, 0)
    ensures LeadsTo(img, v, dir, t, found, need)
  {
  }

  /** The DOS directory leads to its files, past the two dot entries. */
  lemma DosWalk(g: Geo, img: Bytes, root: seq<File>, dos: seq<File>, fuel: nat)
    requires Laid(g, img, root, dos) && fuel > DirClusters(|dos| + 2, g)
    ensures Walk(img, VolFor(g), DosFirst(g, root), fuel) == Some(FoundOf(dos))
  {
    hide Span, Holds, Linked, Area, Listing, Entry, Walk, DirHere, FilesHere, Laid, LeadsTo, Yields, FlatFrom, Count,
      NextFree, DosStart;
    assert GeoOk(g) && FilesOk(root) && FilesOk(dos) by { LaidMeans(g, img, root, dos); }
    var v, dc := VolFor(g), DirClusters(|dos| + 2, g);
    var dir := DosDir(g, root, dos);
    var items: seq<Found> := [[], []] + Singles(dos);
    DirsAreHere(g, img, root, dos);
    FilesAreHere(g, img, root, dos);
    DosEntries(g, img, root, dos);
    forall t | 0 <= t < |items| ensures LeadsTo(img, v, Pad(dir, Span(dc, v.cb)), t, items[t], 0) {
      if t >= 2 { ListedLeads(img, v, dos, DosStart(g, root, dos), Pad(dir, Span(dc, v.cb)), 2, t - 2); }
    }
    WalkReads(img, v, DosFirst(g, root), dc, Pad(dir, Span(dc, v.cb)), items, 0, fuel);
    DosFlat(items, dos);
  }

  lemma DosFlat(items: seq<Found>, dos: seq<File>)
    requires items == [[], []] + Singles(dos)
    ensures FlatFrom(items, 0) == FoundOf(dos)
  {
    hide FlatFrom;
    FlatStep(items, 0);
    FlatStep(items, 1);
    FlatSingles(items, dos, 2, 0);
    FlatStep(items, |items|);
    assert dos[0..] == dos;
  }

  lemma RootFlat(items: seq<Found>, root: seq<File>, dos: seq<File>)
    requires items == Singles(root) + [FoundOf(dos)]
    ensures FlatFrom(items, 0) == FoundOf(root) + FoundOf(dos)
  {
    hide FlatFrom;
    FlatSingles(items, root, 0, 0);
    FlatStep(items, |root|);
    FlatStep(items, |items|);
    assert root[0..] == root;
  }

  lemma LaidMeans(g: Geo, img: Bytes, root: seq<File>, dos: seq<File>)
    requires Laid(g, img, root, dos)
    ensures GeoOk(g) && FilesOk(root) && FilesOk(dos) && NextFree(g, root, dos) <= g.clusters + 2
    ensures DosFirst(g, root) < 0x1000_0000
  {
  }

  /** The dot entries, and where the listing starts. */
  lemma DosEntries(g: Geo, img: Bytes, root: seq<File>, dos: seq<File>)
    requires Laid(g, img, root, dos)
    ensures var v, dir := VolFor(g), Pad(DosDir(g, root, dos), Span(DirClusters(|dos| + 2, g), g.ClusterBytes()));
      && LeadsTo(img, v, dir, 0, [], 0) && LeadsTo(img, v, dir, 1, [], 0)
      && Holds(dir, 64, Listing(dos, DosStart(g, root, dos), g.ClusterBytes()))
  {
    hide Span, Holds, Listing, Entry, Item, LeadsTo, Yields, Count, DosStart, Trimmed, Laid, Pad;
    LaidMeans(g, img, root, dos);
    FixedFields();
    var v, n := VolFor(g), Span(DirClusters(|dos| + 2, g), g.ClusterBytes());
    var one, two := Entry(DOT_FIELD, DosFirst(g, root), 0, SUBDIR), Entry(DOTDOT_FIELD, 0, 0, SUBDIR);
    var list := Listing(dos, DosStart(g, root, dos), g.ClusterBytes());
    PaddedPair(one + two, list, n);
    PaddedPair(one, two + list, n);
    assert one + (two + list) == one + two + list;
    HoldsRun([], two, list);
    HoldsWithin(Pad(one + two + list, n), 32, two + list, 0, two);
    DotItem(img, v, DOT_FIELD, DosFirst(g, root));
    DotItem(img, v, DOTDOT_FIELD, 0);
    RecordLeads(img, v, Pad(one + two + list, n), 0, one, [], 0);
    RecordLeads(img, v, Pad(one + two + list, n), 1, two, [], 0);
  }

  /** The root directory leads to its files and through the DOS entry to the rest. */
  lemma RootWalk(g: Geo, img: Bytes, root: seq<File>, dos: seq<File>, fuel: nat)
    requires Laid(g, img, root, dos) && fuel > DirClusters(|root| + 1, g) + DirClusters(|dos| + 2, g) + 1
    ensures Walk(img, VolFor(g), ROOT_CLUSTER, fuel) == Some(FoundOf(root) + FoundOf(dos))
  {
    hide Span, Holds, Linked, Area, Listing, Entry, Walk, DirHere, FilesHere, Laid, LeadsTo, Yields, FlatFrom, Count,
      NextFree, RootStart;
    assert GeoOk(g) && FilesOk(root) && FilesOk(dos) by { LaidMeans(g, img, root, dos); }
    var v, rc, need := VolFor(g), DirClusters(|root| + 1, g), DirClusters(|dos| + 2, g) + 1;
    var dir := Pad(RootDir(g, root, dos), Span(rc, v.cb));
    var items: seq<Found> := Singles(root) + [FoundOf(dos)];
    DirsAreHere(g, img, root, dos);
    FilesAreHere(g, img, root, dos);
    RootEntries(g, img, root, dos);
    forall t | 0 <= t < |items| ensures LeadsTo(img, v, dir, t, items[t], need) {
      if t < |root| {
        ListedLeads(img, v, root, RootStart(g, root, dos), dir, 0, t);
        LeadsMore(img, v, dir, t, items[t], need);
      }
    }
    WalkReads(img, v, ROOT_CLUSTER, rc, dir, items, need, fuel);
    RootFlat(items, root, dos);
  }

  /** The DOS entry, and where the listing starts. */
  lemma RootEntries(g: Geo, img: Bytes, root: seq<File>, dos: seq<File>)
    requires Laid(g, img, root, dos)
    ensures var v, dir := VolFor(g), Pad(RootDir(g, root, dos), Span(DirClusters(|root| + 1, g), g.ClusterBytes()));
      && LeadsTo(img, v, dir, |root|, FoundOf(dos), DirClusters(|dos| + 2, g) + 1)
      && Holds(dir, 0, Listing(root, RootStart(g, root, dos), g.ClusterBytes()))
  {
    hide Span, Holds, Listing, Entry, Item, LeadsTo, Yields, Count, RootStart, Trimmed, Laid, Walk, Pad;
    LaidMeans(g, img, root, dos);
    var n := Span(DirClusters(|root| + 1, g), g.ClusterBytes());
    var list := Listing(root, RootStart(g, root, dos), g.ClusterBytes());
    var entry := Entry(DOS_FIELD, DosFirst(g, root), 0, SUBDIR);
    PaddedPair(list, entry, n);
    DosLeads(g, img, root, dos);
    RecordLeads(img, VolFor(g), Pad(list + entry, n), |root|, entry, FoundOf(dos), DirClusters(|dos| + 2, g) + 1);
  }

  lemma PaddedPair(a: Bytes, b: Bytes, n: nat)
    ensures Holds(Pad(a + b, n), 0, a) && Holds(Pad(a + b, n), |a|, b)
  {
    hide Pad;
    PadHolds(a + b, n);
    HoldsRun(a, b, []);
    HoldsRun([], a, b);
    HoldsWithin(Pad(a + b, n), 0, a + b, 0, a);
    HoldsWithin(Pad(a + b, n), 0, a + b, |a|, b);
  }

  lemma DosLeads(g: Geo, img: Bytes, root: seq<File>, dos: seq<File>)
    requires Laid(g, img, root, dos)
    ensures var entry := Entry(DOS_FIELD, DosFirst(g, root), 0, SUBDIR);
      entry[0] != 0 && Yields(img, VolFor(g), entry, FoundOf(dos), DirClusters(|dos| + 2, g) + 1)
  {
    hide Entry, Item, Yields, Count, Trimmed, Laid, Walk, DirClusters, NextFree;
    LaidMeans(g, img, root, dos);
    FixedFields();
    forall f: nat | f > DirClusters(|dos| + 2, g)
      ensures Walk(img, VolFor(g), DosFirst(g, root), f) == Some(FoundOf(dos))
    {
      DosWalk(g, img, root, dos, f);
    }
    SubdirItem(img, VolFor(g), DOS_FIELD, DosFirst(g, root), FoundOf(dos), DirClusters(|dos| + 2, g));
  }

  // ----- The theorems ---------------------------------------------------------------------------------

  lemma ImageLaid(g: Geo, mbr: Bytes, vbr: Bytes, root: seq<File>, dos: seq<File>)
    requires Buildable(g, mbr, vbr, root, dos)
    ensures Laid(g, Image(g, mbr, vbr, root, dos), root, dos)
  {
    hide Image, FatArea, DataArea, BootParts, Holds, Lens, NextFree, FilesOk;
    TableFits(g, root, dos);
    ClustersConserved(g, root, dos);
    ImageParts(g, mbr, vbr, root, dos);
  }

  lemma FuelEnough(g: Geo, root: seq<File>, dos: seq<File>)
    requires GeoOk(g) && NextFree(g, root, dos) <= g.clusters + 2
    ensures g.Size() > DirClusters(|root| + 1, g) + DirClusters(|dos| + 2, g) + 1
  {
    Grow(g.clusters, g.spc);
  }

  /** Extracting a built image returns the stamped boot sectors and exactly the files
      it was built from, names and bytes, the root's first: for any lists that fit,
      over directories of any length. */
  lemma ExtractsWhatWasBuilt(g: Geo, mbr: Bytes, vbr: Bytes, root: seq<File>, dos: seq<File>)
    requires Buildable(g, mbr, vbr, root, dos)
    ensures Extracted(Image(g, mbr, vbr, root, dos)) ==
      Some(Parts(StampMbr(mbr, g.total), StampVbr(vbr, g), FoundOf(root) + FoundOf(dos)))
  {
    hide Image, Walk, VolOf, StampMbr, StampVbr, Laid, NextFree, FilesOk, DirClusters;
    ImageLaid(g, mbr, vbr, root, dos);
    BootReads(g, mbr, vbr, root, dos);
    VolReads(g, mbr, vbr, root, dos);
    FuelEnough(g, root, dos);
    RootWalk(g, Image(g, mbr, vbr, root, dos), root, dos, g.Size());
  }

  /** Building again from the extracted boot sectors gives the same image. */
  lemma RebuildReproduces(g: Geo, mbr: Bytes, vbr: Bytes, root: seq<File>, dos: seq<File>)
    requires Buildable(g, mbr, vbr, root, dos)
    ensures var mbr', vbr' := StampMbr(mbr, g.total), StampVbr(vbr, g);
      Buildable(g, mbr', vbr', root, dos) && Image(g, mbr', vbr', root, dos) == Image(g, mbr, vbr, root, dos)
  {
    hide StampMbr, StampVbr, FatArea, DataArea, Lens, NextFree, FilesOk, FsInfo, BootTail;
    StampsOnce(mbr, vbr, g);
  }

  /** The extracted files as a dictionary: with distinct names, every file is found
      under its name and nothing else is. */
  function Dictionary(found: Found): map<Name, Bytes>
    decreases |found|
  {
    if found == [] then map[] else Dictionary(found[..|found| - 1])[found[|found| - 1].0 := found[|found| - 1].1]
  }

  lemma {:induction false} DictionaryOf(found: Found)
    requires forall i, j :: 0 <= i < j < |found| ==> found[i].0 != found[j].0
    ensures forall n :: n in Dictionary(found) <==> exists i :: 0 <= i < |found| && found[i].0 == n
    ensures forall i :: 0 <= i < |found| ==>
      found[i].0 in Dictionary(found) && Dictionary(found)[found[i].0] == found[i].1
    decreases |found|
  {
    if found != [] {
      var front := found[..|found| - 1];
      DictionaryOf(front);
      assert forall i :: 0 <= i < |front| ==> front[i] == found[i];
    }
  }
}
