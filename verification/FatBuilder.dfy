/** The builder: a blank disk into which the boot sectors, the files, the two
    directories and the two tables are written piece by piece. */
module FatBuilder {
  import opened Wrappers
  import opened LittleEndian
  import opened FatLayout
  import opened FatImage

  // ----- Writing into a run of parts ----------------------------------------------------

  lemma SpliceFront(front: Bytes, rest: Bytes, at: nat, p: Bytes)
    requires at + |p| <= |front|
    ensures Splice(front + rest, at, p) == Splice(front, at, p) + rest
  {
  }

  lemma SpliceBack(front: Bytes, rest: Bytes, at: nat, p: Bytes)
    requires |front| <= at && at + |p| <= |front| + |rest|
    ensures Splice(front + rest, at, p) == front + Splice(rest, at - |front|, p)
  {
  }

  /** A write over the start of a blank stretch. */
  lemma SpliceBlank(front: Bytes, n: nat, rest: Bytes, p: Bytes)
    requires |p| <= n
    ensures Splice(front + Zeros(n) + rest, |front|, p) == front + Pad(p, n) + rest
  {
    assert front + Zeros(n) + rest == front + (Zeros(n) + rest);
    SpliceBack(front, Zeros(n) + rest, |front|, p);
    SpliceFront(Zeros(n), rest, 0, p);
    assert Splice(Zeros(n), 0, p) == Pad(p, n);
    assert front + (Pad(p, n) + rest) == front + Pad(p, n) + rest;
  }

  /** Two writes end to end are one. */
  lemma SpliceTwice(v: Bytes, at: nat, p: Bytes, q: Bytes)
    requires at + |p| + |q| <= |v|
    ensures Splice(Splice(v, at, p), at + |p|, q) == Splice(v, at, p + q)
  {
  }

  lemma SpliceNothing(v: Bytes, at: nat)
    requires at <= |v|
    ensures Splice(v, at, []) == v
  {
  }

  lemma ZerosSplit(a: nat, b: nat)
    ensures Zeros(a + b) == Zeros(a) + Zeros(b)
  {
  }

  /** The table so far, as the dictionary holds it. */
  ghost predicate Tabulates(fat: map<nat, nat>, t: seq<nat>) {
    (forall c: nat :: c in fat <==> c < |t|) && forall c: nat :: c < |t| ==> c in fat && fat[c] == t[c]
  }

  class ImageBuilder {
    const g: Geo
    var img: Bytes
    var fat: map<nat, nat>
    var nextFree: nat
    ghost var lens: seq<nat>

    /** The table is that of the chains allocated so far. */
    ghost predicate Valid()
      reads this
    {
      && GeoOk(g) && |img| == g.Size()
      && nextFree == ROOT_CLUSTER + Sum(lens) && Tabulates(fat, Table(lens))
    }

    constructor (g: Geo)
      requires GeoOk(g)
      ensures Valid() && this.g == g && img == Zeros(g.Size()) && lens == [] && nextFree == ROOT_CLUSTER
    {
      this.g := g;
      img, fat, nextFree, lens := Zeros(g.Size()), map[0 := 0x0fff_fff8, 1 := EOC], ROOT_CLUSTER, [];
      new;
      assert Table([]) == [0x0fff_fff8, EOC];
    }

    /** Link `n` clusters from the next free one on. */
    method AllocChain(n: nat)
      requires Valid() && n >= 1
      modifies `fat, `nextFree, `lens
      ensures Valid() && lens == old(lens) + [n] && nextFree == old(nextFree) + n
    {
      ghost var t := Table(lens);
      TableMore(lens, n);
      for i := 0 to n
        invariant Tabulates(fat, t + Chain(nextFree, n)[..i])
        invariant nextFree == old(nextFree) && lens == old(lens)
      {
        var c := nextFree + i;
        ghost var part := Chain(nextFree, n);
        assert part[..i + 1] == part[..i] + [part[i]];
        fat := fat[c := if i == n - 1 then EOC else c + 1];
      }
      assert Chain(nextFree, n)[..n] == Chain(nextFree, n);
      lens := lens + [n];
      nextFree := nextFree + n;
    }

    /** Write a file over clusters from the next free one on, a cluster at a time. */
    method WriteFileData(data: Bytes) returns (ok: bool)
      requires Valid()
      modifies `img, `fat, `nextFree, `lens
      ensures Valid()
      ensures ok <==> old(nextFree) + Count(|data|, g.ClusterBytes()) <= g.clusters + 2
      ensures ok ==>
        var at := g.DataOff() + Span(old(nextFree) - 2, g.ClusterBytes());
        && lens == old(lens) + [Count(|data|, g.ClusterBytes())]
        && nextFree == old(nextFree) + Count(|data|, g.ClusterBytes())
        && at + |data| <= g.Size() && img == Splice(old(img), at, data)
    {
      hide Table, Span, Count, Tabulates;
      var cb := g.ClusterBytes();
      var n, first := Count(|data|, cb), nextFree;
      if first + n > g.clusters + 2 {
        return false;
      }
      Room(g, first, n);
      AllocChain(n);
      WriteClusters(first, n, data);
      return true;
    }

    method WriteClusters(first: nat, n: nat, data: Bytes)
      requires first >= 2 && |data| <= Span(n, g.ClusterBytes())
      requires g.DataOff() + Span(first - 2, g.ClusterBytes()) + Span(n, g.ClusterBytes()) <= |img|
      modifies `img
      ensures img == Splice(old(img), g.DataOff() + Span(first - 2, g.ClusterBytes()), data)
    {
      hide Span, Splice;
      var cb := g.ClusterBytes();
      ghost var at := g.DataOff() + Span(first - 2, cb);
      SpanNext(0, cb);
      SpliceNothing(img, at);
      assert data[..0] == [];
      for i := 0 to n
        invariant |img| == |old(img)| && img == Splice(old(img), at, data[..Upto(i, cb, |data|)])
      {
        SpanAdd(first - 2, i, cb);
        SpanNext(i, cb);
        SpanLe(i + 1, n, cb);
        var off := g.DataOff() + Span(first + i - 2, cb);
        var from, to := Upto(i, cb, |data|), Upto(i + 1, cb, |data|);
        assert data[..from] + data[from..to] == data[..to];
        if from < to {
          SpliceTwice(old(img), at, data[..from], data[from..to]);
          img := Splice(img, off, data[from..to]);
        }
      }
      assert data[..Upto(n, cb, |data|)] == data;
    }

    /** Write a directory's files one after the other, and list them. */
    method PlaceFiles(files: seq<File>, ghost pre: Bytes) returns (ok: bool, dir: Bytes)
      requires Valid() && FilesOk(files)
      requires |pre| == g.DataOff() + Span(nextFree - 2, g.ClusterBytes())
      requires nextFree <= g.clusters + 2 ==> |pre| <= |img| && img == pre + Zeros(|img| - |pre|)
      modifies `img, `fat, `nextFree, `lens
      ensures Valid()
      ensures ok <==> files == [] || old(nextFree) + Sum(Counts(files, g.ClusterBytes())) <= g.clusters + 2
      ensures ok ==>
        var cb := g.ClusterBytes();
        && dir == Listing(files, old(nextFree), cb) && lens == old(lens) + Counts(files, cb)
        && nextFree == old(nextFree) + Sum(Counts(files, cb))
        && (nextFree <= g.clusters + 2 ==>
              |pre + Area(files, cb)| <= |img| && img == pre + Area(files, cb) + Zeros(|img| - |pre + Area(files, cb)|))
    {
      hide Span, Count, Table, Tabulates, Sum, Listing, Area, Splice, EntryOf, FileOk, Pad;
      var cb, start := g.ClusterBytes(), nextFree;
      dir := [];
      NothingPlaced(pre, start, cb);
      assert lens + Counts([], cb) == lens && files[..0] == [];
      for i := 0 to |files|
        invariant Valid() && nextFree == start + Sum(Counts(files[..i], cb))
                  && lens == old(lens) + Counts(files[..i], cb)
        invariant dir == Listing(files[..i], start, cb)
        invariant i > 0 ==> nextFree <= g.clusters + 2
        invariant nextFree <= g.clusters + 2 ==>
          && |pre + Area(files[..i], cb)| <= |img|
          && img == pre + Area(files[..i], cb) + Zeros(|img| - |pre + Area(files[..i], cb)|)
      {
        var f := files[i];
        ghost var done := files[..i];
        assert files[..i + 1] == done + [f];
        CountsMore(done, f, cb);
        SumOfPrefix(files, i + 1, cb);
        var first := nextFree;
        ghost var was := img;
        ok := WriteFileData(f.data);
        if !ok {
          return;
        }
        OneMorePlaced(g, pre, done, f, start, was, img);
        ListedMore(done, f, start, cb);
        dir := dir + EntryOf(f, first);
        assert old(lens) + Counts(done, cb) + [Count(|f.data|, cb)] ==
               old(lens) + (Counts(done, cb) + [Count(|f.data|, cb)]);
      }
      assert files[..|files|] == files;
      ok := true;
    }

    /** The boot sectors, the second copy included; FSInfo comes last of all. */
    method WriteBootSectors(mbr: Bytes, vbr: Bytes)
      requires GeoOk(g) && |mbr| == |vbr| == BPS && img == Zeros(g.Size()) && g.FatOff() <= g.Size()
      modifies `img
      ensures |img| == g.Size() && img == BootWith(g, mbr, vbr, Zeros(BPS)) + Zeros(g.Size() - g.FatOff())
    {
      hide Splice, StampVbr, Zeros, PartitionEntry, BootWith;
      var rest := g.Size() - BPS;
      ZerosSplit(BPS, rest);
      assert [] + Zeros(BPS) + Zeros(rest) == img;
      SpliceBlank([], BPS, Zeros(rest), mbr);
      assert [] + Pad(mbr, BPS) + Zeros(rest) == mbr + Zeros(rest) by { PadWhole(mbr); }
      img := Splice(img, 0, mbr);
      SpliceFront(mbr, Zeros(rest), 0x1be, PartitionEntry(g.total));
      img := Splice(img, 0x1be, PartitionEntry(g.total));
      SpliceFront(Splice(mbr, 0x1be, PartitionEntry(g.total)), Zeros(rest), 0x1fe, [0x55, 0xaa]);
      img := Splice(img, 0x1fe, [0x55, 0xaa]);
      var stamped := StampVbr(vbr, g);
      BootCopies(g, mbr, vbr);
      img := Splice(img, g.PartOff(), stamped);
      img := Splice(img, g.PartOff() + 6 * BPS, stamped);
    }

    /** Both directories, in the clusters reserved for them. */
    method WriteDirectories(root: Bytes, dos: Bytes, rc: nat, dc: nat, ghost front: Bytes, ghost rest: Bytes)
      requires var cb := g.ClusterBytes();
        && |root| <= Span(rc, cb) && |dos| <= Span(dc, cb) && |front| == g.DataOff()
        && img == front + Zeros(Span(rc, cb)) + Zeros(Span(dc, cb)) + rest
      modifies `img
      ensures img == front + Pad(root, Span(rc, g.ClusterBytes())) + Pad(dos, Span(dc, g.ClusterBytes())) + rest
    {
      hide Splice, Span, Zeros, Pad;
      var cb := g.ClusterBytes();
      assert front + Zeros(Span(rc, cb)) + (Zeros(Span(dc, cb)) + rest) == img;
      SpliceBlank(front, Span(rc, cb), Zeros(Span(dc, cb)) + rest, root);
      img := Splice(img, g.DataOff(), root);
      ghost var padded := Pad(root, Span(rc, cb));
      assert front + padded + Zeros(Span(dc, cb)) + rest == img;
      SpliceBlank(front + padded, Span(dc, cb), rest, dos);
      img := Splice(img, g.DataOff() + Span(rc, cb), dos);
    }

    /** Pack the dictionary into the bytes of one table. */
    method PackTable() returns (bytes: Bytes)
      requires Valid() && 4 * (2 + Sum(lens)) <= g.fatsz * BPS
      ensures bytes == FatArea(g, lens)
    {
      hide Splice, Table, Le, Zeros, TableBytes, Pad;
      var size := g.fatsz * BPS;
      ghost var t := Table(lens);
      bytes := Zeros(size);
      assert t[..0] == [];
      TableNone(size);
      for c := 0 to nextFree
        invariant |bytes| == size && bytes == Pad(TableBytes(t[..c]), size)
      {
        assert c in fat && fat[c] == t[c];
        PackOne(t[..c], t[c], size);
        assert t[..c] + [t[c]] == t[..c + 1];
        bytes := Splice(bytes, 4 * c, Le(fat[c], 4));
      }
      assert t[..nextFree] == t;
    }

    /** Both copies of the table. */
    method WriteTables(ghost boot: Bytes, ghost rest: Bytes)
      requires Valid() && 4 * (2 + Sum(lens)) <= g.fatsz * BPS && |boot| == g.FatOff()
      requires img == boot + Zeros(g.fatsz * BPS) + Zeros(g.fatsz * BPS) + rest
      modifies `img
      ensures img == boot + FatArea(g, lens) + FatArea(g, lens) + rest
    {
      hide Splice, Table, Zeros, FatArea, Tabulates;
      var size := g.fatsz * BPS;
      var bytes := PackTable();
      assert boot + Zeros(size) + (Zeros(size) + rest) == img;
      SplicePart(boot, Zeros(size), Zeros(size) + rest, bytes);
      img := Splice(img, g.FatOff(), bytes);
      assert (boot + bytes) + Zeros(size) + rest == img;
      SplicePart(boot + bytes, Zeros(size), rest, bytes);
      img := Splice(img, g.FatOff() + size, bytes);
    }

    /** FSInfo and its copy, once the clusters used are known. */
    method WriteInfo(mbr: Bytes, vbr: Bytes, free: nat, ghost rest: Bytes)
      requires GeoOk(g) && |mbr| == |vbr| == BPS && img == BootWith(g, mbr, vbr, Zeros(BPS)) + rest
      modifies `img
      ensures img == Boot(g, mbr, vbr, free, nextFree) + rest
    {
      hide Splice, FsInfo, StampVbr, StampMbr, BootWith, Zeros;
      var info := FsInfo(free, nextFree);
      InfoCopies(g, mbr, vbr, info, rest);
      img := Splice(img, g.PartOff() + BPS, info);
      img := Splice(img, g.PartOff() + 7 * BPS, info);
    }
  }

  /** How much of a file the first `i` clusters hold. */
  function Upto(i: nat, cb: nat, length: nat): (u: nat)
    ensures u <= length && u <= Span(i, cb) && (u < length ==> u == Span(i, cb))
  {
    if Span(i, cb) < length then Span(i, cb) else length
  }

  lemma Room(g: Geo, first: nat, n: nat)
    requires GeoOk(g) && 2 <= first && first + n <= g.clusters + 2
    ensures g.DataOff() + Span(first - 2, g.ClusterBytes()) + Span(n, g.ClusterBytes()) <= g.Size()
  {
    SpanAdd(first - 2, n, g.ClusterBytes());
    DataFits(g, first - 2 + n);
  }

  lemma TableMore(lens: seq<nat>, n: nat)
    ensures Sum(lens + [n]) == Sum(lens) + n
    ensures Table(lens + [n]) == Table(lens) + Chain(ROOT_CLUSTER + Sum(lens), n)
  {
    assert (lens + [n])[..|lens|] == lens;
  }

  lemma NothingPlaced(pre: Bytes, start: nat, cb: nat)
    requires cb > 0
    ensures Area([], cb) == [] && Listing([], start, cb) == [] && Counts([], cb) == [] && Sum(Counts([], cb)) == 0
    ensures pre + Area([], cb) == pre
  {
    assert pre + [] == pre;
  }

  lemma ListedMore(done: seq<File>, f: File, start: nat, cb: nat)
    requires cb > 0 && FilesOk(done) && FileOk(f)
    ensures FilesOk(done + [f])
    ensures Listing(done + [f], start, cb) == Listing(done, start, cb) + EntryOf(f, start + Sum(Counts(done, cb)))
  {
    hide EntryOf, FileOk;
    assert (done + [f])[..|done|] == done;
  }

  lemma AreaMore(done: seq<File>, f: File, cb: nat)
    requires cb > 0
    ensures Area(done + [f], cb) == Area(done, cb) + Pad(f.data, Span(Count(|f.data|, cb), cb))
  {
    hide Count;
    assert (done + [f])[..|done|] == done;
  }

  lemma SumOfPrefix(files: seq<File>, t: nat, cb: nat)
    requires cb > 0 && t <= |files|
    ensures Sum(Counts(files[..t], cb)) <= Sum(Counts(files, cb))
  {
    hide Count;
    assert Counts(files[..t], cb) == Counts(files, cb)[..t];
    StartsGrow(Counts(files, cb), t, |files|);
    assert Counts(files, cb)[..|files|] == Counts(files, cb);
  }

  /** A file written at the frontier joins the run. */
  lemma OneMorePlaced(g: Geo, pre: Bytes, done: seq<File>, f: File, start: nat, was: Bytes, img: Bytes)
    requires GeoOk(g) && start >= 2 && |pre| == g.DataOff() + Span(start - 2, g.ClusterBytes()) && |was| == g.Size()
    requires var cb, first := g.ClusterBytes(), start + Sum(Counts(done, g.ClusterBytes()));
      && first + Count(|f.data|, cb) <= g.clusters + 2
      && |pre + Area(done, cb)| <= |was| && was == pre + Area(done, cb) + Zeros(|was| - |pre + Area(done, cb)|)
      && g.DataOff() + Span(first - 2, cb) + |f.data| <= |was|
      && img == Splice(was, g.DataOff() + Span(first - 2, cb), f.data)
    ensures var cb := g.ClusterBytes();
      var run := pre + Area(done + [f], cb);
      |run| <= |img| && img == run + Zeros(|img| - |run|)
  {
    hide Span, Count, Sum, Area, Splice, Pad;
    var cb := g.ClusterBytes();
    var n, x := Count(|f.data|, cb), Sum(Counts(done, cb));
    var run := pre + Area(done, cb);
    SpanAdd(start - 2, x, cb);
    assert |run| == g.DataOff() + Span(start + x - 2, cb);
    Room(g, start + x, n);
    var left := |was| - |run| - Span(n, cb);
    ZerosSplit(Span(n, cb), left);
    assert run + Zeros(Span(n, cb)) + Zeros(left) == was;
    SpliceBlank(run, Span(n, cb), Zeros(left), f.data);
    AreaMore(done, f, cb);
    assert pre + (Area(done, cb) + Pad(f.data, Span(n, cb))) == run + Pad(f.data, Span(n, cb));
  }

  lemma PadWhole(b: Bytes)
    ensures Pad(b, |b|) == b && [] + Pad(b, |b|) == b
  {
    assert b + Zeros(0) == b;
  }

  lemma TableNone(size: nat)
    ensures Zeros(size) == Pad(TableBytes([]), size)
  {
    assert [] + Zeros(size) == Zeros(size);
  }

  lemma PackOne(t: seq<nat>, v: nat, size: nat)
    requires 4 * (|t| + 1) <= size
    ensures Splice(Pad(TableBytes(t), size), 4 * |t|, Le(v, 4)) == Pad(TableBytes(t + [v]), size)
  {
    hide Le, Splice, Pad;
    var b, p := TableBytes(t), Le(v, 4);
    assert (t + [v])[..|t|] == t;
    SplicePadded(b, p, size);
  }

  lemma SplicePadded(b: Bytes, p: Bytes, size: nat)
    requires |b| + |p| <= size
    ensures Splice(Pad(b, size), |b|, p) == Pad(b + p, size)
  {
    var n := size - |b| - |p|;
    ZerosSplit(|p|, n);
    assert Pad(b, size) == b + Zeros(|p|) + Zeros(n);
    SplicePart(b, Zeros(|p|), Zeros(n), p);
  }

  /** A write over one part of a run. */
  lemma SplicePart(a: Bytes, b: Bytes, c: Bytes, p: Bytes)
    requires |p| == |b|
    ensures Splice(a + b + c, |a|, p) == a + p + c
  {
  }

  lemma BootCopies(g: Geo, mbr: Bytes, vbr: Bytes)
    requires GeoOk(g) && |mbr| == |vbr| == BPS && g.FatOff() <= g.Size()
    ensures var m, s, k := StampMbr(mbr, g.total), StampVbr(vbr, g), g.Size() - BPS;
      && g.PartOff() + 7 * BPS <= BPS + k
      && Splice(Splice(m + Zeros(k), g.PartOff(), s), g.PartOff() + 6 * BPS, s)
         == BootWith(g, mbr, vbr, Zeros(BPS)) + Zeros(g.Size() - g.FatOff())
  {
    hide Splice, StampMbr, StampVbr;
    var m, s := StampMbr(mbr, g.total), StampVbr(vbr, g);
    var gap, one, five := Zeros((PART_START - 1) * BPS), Zeros(BPS), Zeros(5 * BPS);
    var tail := g.Size() - g.PartOff() - 7 * BPS;
    var all := m + gap + one + five + one + Zeros(tail);
    assert m + Zeros(g.Size() - BPS) == all;
    assert all == (m + gap) + one + (five + one + Zeros(tail));
    SplicePart(m + gap, one, five + one + Zeros(tail), s);
    var next := (m + gap) + s + (five + one + Zeros(tail));
    assert next == (m + gap + s + five) + one + Zeros(tail);
    SplicePart(m + gap + s + five, one, Zeros(tail), s);
    assert five == one + Zeros(4 * BPS);
    assert Zeros(tail) == one + Zeros(24 * BPS) + Zeros(g.Size() - g.FatOff());
    assert m + gap + s + five + s + Zeros(tail)
      == m + gap + s + (one + Zeros(4 * BPS) + s + one + Zeros(24 * BPS)) + Zeros(g.Size() - g.FatOff());
  }

  lemma InfoCopies(g: Geo, mbr: Bytes, vbr: Bytes, info: Bytes, rest: Bytes)
    requires GeoOk(g) && |mbr| == |vbr| == |info| == BPS
    ensures Splice(Splice(BootWith(g, mbr, vbr, Zeros(BPS)) + rest, g.PartOff() + BPS, info), g.PartOff() + 7 * BPS,
                   info)
            == BootWith(g, mbr, vbr, info) + rest
  {
    hide Splice, StampMbr, StampVbr;
    var m, s := StampMbr(mbr, g.total), StampVbr(vbr, g);
    var gap, one, four, last := Zeros((PART_START - 1) * BPS), Zeros(BPS), Zeros(4 * BPS), Zeros(24 * BPS);
    var front := m + gap + s;
    assert BootWith(g, mbr, vbr, one) + rest == front + one + (four + s + one + last + rest);
    SplicePart(front, one, four + s + one + last + rest, info);
    assert front + info + (four + s + one + last + rest) == (front + info + four + s) + one + (last + rest);
    SplicePart(front + info + four + s, one, last + rest, info);
    assert (front + info + four + s) + info + (last + rest) == BootWith(g, mbr, vbr, info) + rest;
  }

  // ----- The whole build ------------------------------------------------------------------

  /** Everything in front of the data region before the tables are known. */
  function Front(g: Geo, mbr: Bytes, vbr: Bytes): (f: Bytes)
    requires GeoOk(g) && |mbr| == |vbr| == BPS
    ensures |f| == g.DataOff()
  {
    BootWith(g, mbr, vbr, Zeros(BPS)) + Zeros(g.fatsz * BPS) + Zeros(g.fatsz * BPS)
  }

  /** The disk when the first file is about to be written. */
  function Reserved(g: Geo, mbr: Bytes, vbr: Bytes, rc: nat, dc: nat): (f: Bytes)
    requires GeoOk(g) && |mbr| == |vbr| == BPS
    ensures |f| == g.DataOff() + Span(rc + dc, g.ClusterBytes())
  {
    SpanAdd(rc, dc, g.ClusterBytes());
    Front(g, mbr, vbr) + Zeros(Span(rc, g.ClusterBytes())) + Zeros(Span(dc, g.ClusterBytes()))
  }

  lemma ReservedBlank(g: Geo, mbr: Bytes, vbr: Bytes, rc: nat, dc: nat)
    requires GeoOk(g) && |mbr| == |vbr| == BPS && rc + dc <= g.clusters
    ensures var pre := Reserved(g, mbr, vbr, rc, dc);
      && |pre| <= g.Size()
      && BootWith(g, mbr, vbr, Zeros(BPS)) + Zeros(g.Size() - g.FatOff()) == pre + Zeros(g.Size() - |pre|)
  {
    hide BootWith, Span;
    var cb, f := g.ClusterBytes(), g.fatsz * BPS;
    DataFits(g, rc + dc);
    SpanAdd(rc, dc, cb);
    var left := g.Size() - |Reserved(g, mbr, vbr, rc, dc)|;
    assert Zeros(g.Size() - g.FatOff()) ==
      Zeros(f) + Zeros(f) + Zeros(Span(rc, cb)) + Zeros(Span(dc, cb)) + Zeros(left);
  }

  lemma SmallDirectories(g: Geo)
    requires g.spc >= 1
    ensures DirClusters(1, g) == 1 && DirClusters(2, g) == 1
  {
    hide Count;
    OneCluster(32, g.ClusterBytes());
    OneCluster(64, g.ClusterBytes());
  }

  lemma OneCluster(length: nat, cb: nat)
    requires 0 < length <= cb
    ensures Count(length, cb) == 1
  {
    var q := (length + cb - 1) / cb;
    Ceiling(length, cb);
    if q >= 2 { MoreThanOne(q - 1, cb); }
  }

  lemma MoreThanOne(n: int, cb: int)
    requires n >= 1 && cb >= 1
    ensures n * cb >= cb
  {
  }

  /** Allocation order: the two directories, then the files. */
  method Allocate(b: ImageBuilder, mbr: Bytes, vbr: Bytes, root: seq<File>, dos: seq<File>)
    returns (ok: bool, rootList: Bytes, dosList: Bytes)
    requires b.Valid() && b.lens == [] && b.g.clusters >= MIN_CLUSTERS && |mbr| == |vbr| == BPS && FilesOk(root)
             && FilesOk(dos)
    requires b.img == BootWith(b.g, mbr, vbr, Zeros(BPS)) + Zeros(b.g.Size() - b.g.FatOff())
    modifies b
    ensures b.Valid()
    ensures ok <==> NextFree(b.g, root, dos) <= b.g.clusters + 2
    ensures ok ==>
      var g, cb := b.g, b.g.ClusterBytes();
      var run := FilesRun(g, mbr, vbr, root, dos);
      && b.lens == Lens(g, root, dos) && b.nextFree == NextFree(g, root, dos)
      && rootList == Listing(root, RootStart(g, root, dos), cb) && dosList == Listing(dos, DosStart(g, root, dos), cb)
      && |run| <= g.Size() && b.img == run + Zeros(g.Size() - |run|)
  {
    hide Span, Count, Counts, Sum, Area, Listing, FilesOk, Table, Tabulates, BootWith, Reserved;
    var g, cb := b.g, b.g.ClusterBytes();
    var rc, dc := DirClusters(|root| + 1, g), DirClusters(|dos| + 2, g);
    SumNone();
    ghost var pre := Reserved(g, mbr, vbr, rc, dc);
    if rc + dc <= g.clusters { ReservedBlank(g, mbr, vbr, rc, dc); }
    b.AllocChain(rc);
    b.AllocChain(dc);
    dosList := [];
    ok, rootList := b.PlaceFiles(root, pre);
    if !ok {
      return;
    }
    PlacedSize(g, pre, root, rc + dc);
    ok, dosList := b.PlaceFiles(dos, pre + Area(root, cb));
    if !ok {
      return;
    }
    if root == [] && dos == [] {
      SmallDirectories(g);
      SumOfNone(cb);
    }
    assert [] + [rc] + [dc] + Counts(root, cb) + Counts(dos, cb) == Lens(g, root, dos);
  }

  lemma SumNone()
    ensures Sum([]) == 0
  {
  }

  lemma SumOfNone(cb: nat)
    requires cb > 0
    ensures Sum(Counts([], cb)) == 0
  {
    NothingPlaced([], 2, cb);
  }

  lemma PlacedSize(g: Geo, pre: Bytes, root: seq<File>, dirs: nat)
    requires g.spc >= 1 && |pre| == g.DataOff() + Span(dirs, g.ClusterBytes())
    ensures |pre + Area(root, g.ClusterBytes())| ==
      g.DataOff() + Span(dirs + Sum(Counts(root, g.ClusterBytes())), g.ClusterBytes())
  {
    hide Area, Span, Count;
    SpanAdd(dirs, Sum(Counts(root, g.ClusterBytes())), g.ClusterBytes());
  }

  /** Build an image, or refuse what does not make one. */
  method Build(g: Geo, mbr: Bytes, vbr: Bytes, root: seq<File>, dos: seq<File>) returns (r: Option<Bytes>)
    requires GeoOk(g) && g.clusters >= MIN_CLUSTERS && FilesOk(root) && FilesOk(dos)
    ensures r.Some? <==> Buildable(g, mbr, vbr, root, dos)
    ensures r.Some? ==> r.value == Image(g, mbr, vbr, root, dos)
  {
    hide Span, Count, Counts, Sum, Area, Listing, FilesOk, Table, Tabulates, BootWith, FilesRun, NextFree, Lens,
      Zeros, Image,
      RootStart, DosStart;
    if |mbr| != BPS || |vbr| != BPS || vbr[0x1fe] != 0x55 || vbr[0x1ff] != 0xaa {
      return None;
    }
    var b := new ImageBuilder(g);
    FrontFits(g);
    b.WriteBootSectors(mbr, vbr);
    var ok, rootList, dosList := Allocate(b, mbr, vbr, root, dos);
    if !ok {
      return None;
    }
    TableFits(g, root, dos);
    Complete(b, mbr, vbr, root, dos, rootList, dosList);
    return Some(b.img);
  }

  /** The run of files behind the reserved clusters. */
  ghost function FilesRun(g: Geo, mbr: Bytes, vbr: Bytes, root: seq<File>, dos: seq<File>): Bytes
    requires GeoOk(g) && |mbr| == |vbr| == BPS
  {
    var cb := g.ClusterBytes();
    Reserved(g, mbr, vbr, DirClusters(|root| + 1, g), DirClusters(|dos| + 2, g)) + Area(root, cb) + Area(dos, cb)
  }

  /** Directories, tables and FSInfo, once the files are in place. */
  method Complete(b: ImageBuilder, mbr: Bytes, vbr: Bytes, root: seq<File>, dos: seq<File>, rootList: Bytes,
                  dosList: Bytes)
    requires b.Valid() && Buildable(b.g, mbr, vbr, root, dos) && b.lens == Lens(b.g, root, dos)
             && b.nextFree == NextFree(b.g, root, dos)
    requires 4 * (2 + Sum(b.lens)) <= b.g.fatsz * BPS
    requires var g, cb := b.g, b.g.ClusterBytes();
      var run := FilesRun(g, mbr, vbr, root, dos);
      && rootList == Listing(root, RootStart(g, root, dos), cb) && dosList == Listing(dos, DosStart(g, root, dos), cb)
      && |run| <= g.Size() && b.img == run + Zeros(g.Size() - |run|)
    modifies b
    ensures b.img == Image(b.g, mbr, vbr, root, dos)
  {
    hide Span, Count, Counts, Sum, Area, Listing, FilesOk, Table, Tabulates, BootWith, NextFree, Lens, Zeros, Image,
      FatArea, Entry,
      Front, RootStart, DosStart, DirClusters, Pad, FilesRun, RootDir, DosDir, Boot;
    var g := b.g;
    var cb, rc, dc := g.ClusterBytes(), DirClusters(|root| + 1, g), DirClusters(|dos| + 2, g);
    var rootDir := rootList + Entry(DOS_FIELD, DosFirst(g, root), 0, SUBDIR);
    var dosDir := Entry(DOT_FIELD, DosFirst(g, root), 0, SUBDIR) + Entry(DOTDOT_FIELD, 0, 0, SUBDIR) + dosList;
    DirectoriesFit(g, root, dos);
    ghost var run := |FilesRun(g, mbr, vbr, root, dos)|;
    ghost var files := Area(root, cb) + Area(dos, cb) + Zeros(g.Size() - run);
    RunIsParts(g, mbr, vbr, root, dos);
    b.WriteDirectories(rootDir, dosDir, rc, dc, Front(g, mbr, vbr), files);
    ghost var boot := BootWith(g, mbr, vbr, Zeros(BPS));
    ghost var data := Pad(rootDir, Span(rc, cb)) + Pad(dosDir, Span(dc, cb)) + files;
    FrontJoins(g, mbr, vbr, Pad(rootDir, Span(rc, cb)), Pad(dosDir, Span(dc, cb)), files);
    b.WriteTables(boot, data);
    ghost var table := FatArea(g, Lens(g, root, dos));
    assert boot + table + table + data == boot + (table + table + data);
    FreeIsNat(g, root, dos);
    b.WriteInfo(mbr, vbr, FreeCount(g, root, dos), table + table + data);
    Finished(g, mbr, vbr, root, dos, b.img, rootDir, dosDir, run);
  }

  lemma FreeIsNat(g: Geo, root: seq<File>, dos: seq<File>)
    requires g.spc >= 1 && NextFree(g, root, dos) <= g.clusters + 2
    ensures FreeCount(g, root, dos) >= 0
  {
  }

  /** The directories as the model names them, and room for both. */
  lemma DirectoriesFit(g: Geo, root: seq<File>, dos: seq<File>)
    requires g.spc >= 1 && FilesOk(root) && FilesOk(dos)
    ensures var cb := g.ClusterBytes();
      && RootDir(g, root, dos) ==
           Listing(root, RootStart(g, root, dos), cb) + Entry(DOS_FIELD, DosFirst(g, root), 0, SUBDIR)
      && DosDir(g, root, dos) == Entry(DOT_FIELD, DosFirst(g, root), 0, SUBDIR) + Entry(DOTDOT_FIELD, 0, 0, SUBDIR)
                                 + Listing(dos, DosStart(g, root, dos), cb)
      && |RootDir(g, root, dos)| <= Span(DirClusters(|root| + 1, g), cb)
      && |DosDir(g, root, dos)| <= Span(DirClusters(|dos| + 2, g), cb)
  {
    hide Listing, Entry, Span, FilesOk;
  }

  lemma FrontFits(g: Geo)
    requires GeoOk(g)
    ensures g.FatOff() <= g.DataOff() <= g.Size()
  {
    DataFits(g, 0);
  }

  lemma RunIsParts(g: Geo, mbr: Bytes, vbr: Bytes, root: seq<File>, dos: seq<File>)
    requires GeoOk(g) && |mbr| == |vbr| == BPS && |FilesRun(g, mbr, vbr, root, dos)| <= g.Size()
    ensures var cb, rc, dc := g.ClusterBytes(), DirClusters(|root| + 1, g), DirClusters(|dos| + 2, g);
      var run := FilesRun(g, mbr, vbr, root, dos);
      && run + Zeros(g.Size() - |run|) == Front(g, mbr, vbr) + Zeros(Span(rc, cb)) + Zeros(Span(dc, cb))
        + (Area(root, cb) + Area(dos, cb) + Zeros(g.Size() - |run|))
      && |run| == g.DataOff() + Span(NextFree(g, root, dos) - 2, cb)
  {
    hide Area, Span, Count, Front, Zeros, Sum;
    var cb, rc, dc := g.ClusterBytes(), DirClusters(|root| + 1, g), DirClusters(|dos| + 2, g);
    SpanAdd(rc + dc, Sum(Counts(root, cb)), cb);
    SpanAdd(rc + dc + Sum(Counts(root, cb)), Sum(Counts(dos, cb)), cb);
  }

  lemma FrontJoins(g: Geo, mbr: Bytes, vbr: Bytes, a: Bytes, b: Bytes, files: Bytes)
    requires GeoOk(g) && |mbr| == |vbr| == BPS
    ensures var boot, fats := BootWith(g, mbr, vbr, Zeros(BPS)), Zeros(g.fatsz * BPS);
      Front(g, mbr, vbr) + a + b + files == boot + fats + fats + (a + b + files)
  {
    hide BootWith, Zeros;
  }

  /** What was written is the image. */
  lemma Finished(g: Geo, mbr: Bytes, vbr: Bytes, root: seq<File>, dos: seq<File>, img: Bytes, rootDir: Bytes,
                 dosDir: Bytes, run: nat)
    requires Buildable(g, mbr, vbr, root, dos) && 4 * (2 + Sum(Lens(g, root, dos))) <= g.fatsz * BPS
    requires rootDir == RootDir(g, root, dos) && dosDir == DosDir(g, root, dos)
    requires run == g.DataOff() + Span(NextFree(g, root, dos) - 2, g.ClusterBytes()) <= g.Size()
    requires var cb, rc, dc := g.ClusterBytes(), DirClusters(|root| + 1, g), DirClusters(|dos| + 2, g);
      var table := FatArea(g, Lens(g, root, dos));
      img == Boot(g, mbr, vbr, FreeCount(g, root, dos), NextFree(g, root, dos))
             + (table + table + (Pad(rootDir, Span(rc, cb)) + Pad(dosDir, Span(dc, cb))
                                 + (Area(root, cb) + Area(dos, cb) + Zeros(g.Size() - run))))
    ensures img == Image(g, mbr, vbr, root, dos)
  {
    hide Boot, FatArea, RootDir, DosDir, Area, Span, Count, Lens, NextFree, FilesOk, Zeros;
    WrittenSize(g, mbr, vbr, root, dos);
    var cb, rc, dc := g.ClusterBytes(), DirClusters(|root| + 1, g), DirClusters(|dos| + 2, g);
    var table := FatArea(g, Lens(g, root, dos));
    Regroup(BootParts(g, mbr, vbr, root, dos), table, Pad(rootDir, Span(rc, cb)), Pad(dosDir, Span(dc, cb)),
            Area(root, cb), Area(dos, cb), Zeros(g.Size() - run));
  }

  lemma Regroup(a: Bytes, t: Bytes, r: Bytes, d: Bytes, x: Bytes, y: Bytes, z: Bytes)
    ensures a + (t + t + (r + d + (x + y + z))) == a + t + t + (r + d + x + y) + z
  {
  }
}
