/** Files, directories and the whole image. The image is given as its parts end to
    end; the builder writes it piecemeal into a blank disk. */
module FatImage {
  import opened LittleEndian
  import opened FatLayout

  /** An 8.3 name. */
  datatype Name = Name(base: Bytes, ext: Bytes)
  datatype File = File(name: Name, data: Bytes, attr: Byte)

  const SUBDIR: Byte := 0x10
  const SPACE: Byte := 0x20

  /** Upper-case printable characters, neither space nor dot. */
  predicate Plain(b: Bytes) {
    forall k :: 0 <= k < |b| ==> 0x21 <= b[k] <= 0x7e && b[k] != 0x2e && !(0x61 <= b[k] <= 0x7a)
  }

  predicate NameOk(n: Name) { 1 <= |n.base| <= 8 && |n.ext| <= 3 && Plain(n.base) && Plain(n.ext) }

  /** A plain file: neither a directory nor a label. */
  predicate FileOk(f: File) {
    NameOk(f.name) && f.attr / 0x10 % 2 == 0 && f.attr / 8 % 2 == 0 && |f.data| < 0x1_0000_0000
  }

  predicate FilesOk(files: seq<File>) { forall k :: 0 <= k < |files| ==> FileOk(files[k]) }

  function Upper(b: Bytes): (u: Bytes)
    ensures |u| == |b|
  {
    seq(|b|, k requires 0 <= k < |b| => if 0x61 <= b[k] <= 0x7a then b[k] - 32 else b[k])
  }

  function Spaced(b: Bytes, n: nat): (s: Bytes)
    ensures |b| <= n ==> |s| == n
  {
    if |b| <= n then b + seq(n - |b|, _ => SPACE) else b
  }

  /** The 11-byte name field of a directory entry. */
  function NameField(n: Name): (f: Bytes)
    requires |n.base| <= 8 && |n.ext| <= 3
    ensures |f| == 11
  {
    Spaced(Upper(n.base), 8) + Spaced(Upper(n.ext), 3)
  }

  /** `b` without trailing spaces. */
  function Trimmed(b: Bytes): Bytes
    decreases |b|
  {
    if b != [] && b[|b| - 1] == SPACE then Trimmed(b[..|b| - 1]) else b
  }

  lemma PlainUpper(b: Bytes)
    requires Plain(b)
    ensures Upper(b) == b
  {
  }

  lemma {:induction false} TrimSpaced(b: Bytes, n: nat)
    requires (b == [] || b[|b| - 1] != SPACE) && |b| <= n
    ensures Trimmed(Spaced(b, n)) == b
    decreases n
  {
    var s := Spaced(b, n);
    if |b| < n {
      TrimSpaced(b, n - 1);
      assert s[..n - 1] == Spaced(b, n - 1);
    } else {
      assert s == b;
    }
  }

  /** The name field reads back as the name. */
  lemma NameReads(n: Name)
    requires NameOk(n)
    ensures Trimmed(NameField(n)[0..8]) == n.base && Trimmed(NameField(n)[8..11]) == n.ext
    ensures NameField(n)[0] != 0 && NameField(n)[0] != 0xe5 && NameField(n)[0] != 0x2e
  {
    hide Trimmed, Upper;
    PlainUpper(n.base);
    PlainUpper(n.ext);
    TrimSpaced(n.base, 8);
    TrimSpaced(n.ext, 3);
    assert NameField(n)[0..8] == Spaced(n.base, 8) && NameField(n)[8..11] == Spaced(n.ext, 3);
  }

  // ----- Directory entries --------------------------------------------------------------

  function Entry(field: Bytes, first: nat, size: nat, attr: Byte): (e: Bytes)
    requires |field| == 11
    ensures |e| == 32
  {
    field + [attr] + Zeros(8) + Le(first / 0x1_0000, 2) + Zeros(4) + Le(first % 0x1_0000, 2) + Le(size, 4)
  }

  function EntryOf(f: File, first: nat): (e: Bytes)
    requires FileOk(f)
    ensures |e| == 32
  {
    Entry(NameField(f.name), first, |f.data|, f.attr)
  }

  const DOS_FIELD: Bytes := [0x44, 0x4f, 0x53, 0x20, 0x20, 0x20, 0x20, 0x20, 0x20, 0x20, 0x20]
  const DOT_FIELD: Bytes := [0x2e, 0x20, 0x20, 0x20, 0x20, 0x20, 0x20, 0x20, 0x20, 0x20, 0x20]
  const DOTDOT_FIELD: Bytes := [0x2e, 0x2e, 0x20, 0x20, 0x20, 0x20, 0x20, 0x20, 0x20, 0x20, 0x20]

  /** What a walk reads out of an entry. */
  lemma EntryReads(field: Bytes, first: nat, size: nat, attr: Byte)
    requires |field| == 11 && first < 0x1000_0000 && size < 0x1_0000_0000
    ensures var e := Entry(field, first, size, attr);
      && e[0..11] == field && e[11] == attr && FromLe(e[0x1c..0x20]) == size
      && FromLe(e[0x14..0x16]) * 0x1_0000 + FromLe(e[0x1a..0x1c]) == first
  {
    hide Le, FromLe;
    Sizes();
    var e := Entry(field, first, size, attr);
    assert e[0x14..0x16] == Le(first / 0x1_0000, 2) && e[0x1a..0x1c] == Le(first % 0x1_0000, 2)
           && e[0x1c..0x20] == Le(size, 4);
    LeReads(first / 0x1_0000, 2);
    LeReads(first % 0x1_0000, 2);
    LeReads(size, 4);
  }

  // ----- Files in order -------------------------------------------------------------------

  /** Clusters a file takes: at least one. */
  function Count(length: nat, cb: nat): (n: nat)
    requires cb > 0
    ensures n >= 1 && Span(n, cb) >= length
  {
    Ceiling(length, cb);
    if length == 0 then 1 else (length + cb - 1) / cb
  }

  lemma Ceiling(x: nat, d: nat)
    requires d > 0
    ensures var q := (x + d - 1) / d; q * d >= x && (x > 0 ==> q >= 1 && (q - 1) * d < x)
  {
    CeilingBounds(x, d);
    var q := (x + d - 1) / d;
    assert q * d + (x + d - 1) % d == x + d - 1;
    if x > 0 && q <= 0 { Ordered(q, 0, d); }
  }

  function Counts(files: seq<File>, cb: nat): (n: seq<nat>)
    requires cb > 0
    ensures |n| == |files|
  {
    seq(|files|, k requires 0 <= k < |files| => Count(|files[k].data|, cb))
  }

  /** The data of the files, each in whole clusters. */
  function Area(files: seq<File>, cb: nat): (a: Bytes)
    requires cb > 0
    ensures |a| == Span(Sum(Counts(files, cb)), cb)
    decreases |files|
  {
    if files == [] then []
    else
      var front, last := files[..|files| - 1], files[|files| - 1];
      CountsMore(front, last, cb);
      assert files == front + [last];
      SpanAdd(Sum(Counts(front, cb)), Count(|last.data|, cb), cb);
      Area(front, cb) + Pad(last.data, Span(Count(|last.data|, cb), cb))
  }

  lemma CountsMore(files: seq<File>, f: File, cb: nat)
    requires cb > 0
    ensures Counts(files + [f], cb) == Counts(files, cb) + [Count(|f.data|, cb)]
    ensures Sum(Counts(files + [f], cb)) == Sum(Counts(files, cb)) + Count(|f.data|, cb)
  {
    var n := Counts(files, cb) + [Count(|f.data|, cb)];
    assert Counts(files + [f], cb) == n;
    assert n[..|n| - 1] == Counts(files, cb);
  }

  /** The directory entries of files whose data starts at cluster `start`. */
  function Listing(files: seq<File>, start: nat, cb: nat): (d: Bytes)
    requires cb > 0 && FilesOk(files)
    ensures |d| == 32 * |files|
    decreases |files|
  {
    if files == [] then []
    else
      var front, last := files[..|files| - 1], files[|files| - 1];
      Listing(front, start, cb) + EntryOf(last, start + Sum(Counts(front, cb)))
  }

  // ----- The image ------------------------------------------------------------------------

  /** Directory clusters for `n` entries. */
  function DirClusters(n: nat, g: Geo): nat
    requires g.spc >= 1
  {
    Count(32 * n, g.ClusterBytes())
  }

  /** The chain lengths in the order they are allocated: the root directory, the DOS
      directory, the root's files, the DOS directory's files. */
  function Lens(g: Geo, root: seq<File>, dos: seq<File>): seq<nat>
    requires g.spc >= 1
  {
    [DirClusters(|root| + 1, g), DirClusters(|dos| + 2, g)] + Counts(root, g.ClusterBytes())
      + Counts(dos, g.ClusterBytes())
  }

  function DosFirst(g: Geo, root: seq<File>): nat
    requires g.spc >= 1
  {
    ROOT_CLUSTER + DirClusters(|root| + 1, g)
  }

  function RootStart(g: Geo, root: seq<File>, dos: seq<File>): nat
    requires g.spc >= 1
  {
    DosFirst(g, root) + DirClusters(|dos| + 2, g)
  }

  function DosStart(g: Geo, root: seq<File>, dos: seq<File>): nat
    requires g.spc >= 1
  {
    RootStart(g, root, dos) + Sum(Counts(root, g.ClusterBytes()))
  }

  function NextFree(g: Geo, root: seq<File>, dos: seq<File>): nat
    requires g.spc >= 1
  {
    DosStart(g, root, dos) + Sum(Counts(dos, g.ClusterBytes()))
  }

  function RootDir(g: Geo, root: seq<File>, dos: seq<File>): (d: Bytes)
    requires g.spc >= 1 && FilesOk(root)
    ensures |d| == 32 * (|root| + 1)
  {
    Listing(root, RootStart(g, root, dos), g.ClusterBytes()) + Entry(DOS_FIELD, DosFirst(g, root), 0, SUBDIR)
  }

  function DosDir(g: Geo, root: seq<File>, dos: seq<File>): (d: Bytes)
    requires g.spc >= 1 && FilesOk(dos)
    ensures |d| == 32 * (|dos| + 2)
  {
    Entry(DOT_FIELD, DosFirst(g, root), 0, SUBDIR) + Entry(DOTDOT_FIELD, 0, 0, SUBDIR)
    + Listing(dos, DosStart(g, root, dos), g.ClusterBytes())
  }

  function TableBytes(t: seq<nat>): (b: Bytes)
    ensures |b| == 4 * |t|
    decreases |t|
  {
    if t == [] then [] else TableBytes(t[..|t| - 1]) + Le(t[|t| - 1], 4)
  }

  /** One copy of the FAT. */
  function FatArea(g: Geo, lens: seq<nat>): (b: Bytes)
    requires 4 * (2 + Sum(lens)) <= g.fatsz * BPS
    ensures |b| == g.fatsz * BPS
  {
    Pad(TableBytes(Table(lens)), g.fatsz * BPS)
  }

  /** What the builder asks of its input. */
  predicate Buildable(g: Geo, mbr: Bytes, vbr: Bytes, root: seq<File>, dos: seq<File>) {
    && GeoOk(g) && |mbr| == |vbr| == BPS && vbr[0x1fe] == 0x55 && vbr[0x1ff] == 0xaa
    && FilesOk(root) && FilesOk(dos) && NextFree(g, root, dos) <= g.clusters + 2
  }

  lemma {:induction false} SumSplit(a: seq<nat>, b: seq<nat>)
    ensures Sum(a + b) == Sum(a) + Sum(b)
    decreases |b|
  {
    if b == [] {
      assert a + b == a;
    } else {
      var n := |b| - 1;
      SumSplit(a, b[..n]);
      assert (a + b)[..|a + b| - 1] == a + b[..n];
    }
  }

  lemma SumTwo(a: nat, b: nat)
    ensures Sum([a, b]) == a + b
  {
    var one: seq<nat> := [a];
    var two: seq<nat> := [a, b];
    assert two[..1] == one && one[..0] == [];
    assert Sum(one) == a;
  }

  /** The clusters used and the free count FSInfo reports make up the partition. */
  lemma ClustersConserved(g: Geo, root: seq<File>, dos: seq<File>)
    requires g.spc >= 1 && NextFree(g, root, dos) <= g.clusters + 2
    ensures NextFree(g, root, dos) == 2 + Sum(Lens(g, root, dos))
    ensures Sum(Lens(g, root, dos)) + FreeCount(g, root, dos) == g.clusters
  {
    var cb := g.ClusterBytes();
    var dirs := [DirClusters(|root| + 1, g), DirClusters(|dos| + 2, g)];
    SumTwo(DirClusters(|root| + 1, g), DirClusters(|dos| + 2, g));
    SumSplit(dirs, Counts(root, cb));
    SumSplit(dirs + Counts(root, cb), Counts(dos, cb));
  }

  function FreeCount(g: Geo, root: seq<File>, dos: seq<File>): int
    requires g.spc >= 1
  {
    g.clusters - (NextFree(g, root, dos) - ROOT_CLUSTER)
  }

  lemma TableFits(g: Geo, root: seq<File>, dos: seq<File>)
    requires GeoOk(g) && NextFree(g, root, dos) <= g.clusters + 2
    ensures 4 * (2 + Sum(Lens(g, root, dos))) <= g.fatsz * BPS
  {
    ClustersConserved(g, root, dos);
  }

  /** The directories and the files, from cluster 2 on. */
  function DataArea(g: Geo, root: seq<File>, dos: seq<File>): Bytes
    requires g.spc >= 1 && FilesOk(root) && FilesOk(dos)
  {
    var cb := g.ClusterBytes();
    Pad(RootDir(g, root, dos), Span(DirClusters(|root| + 1, g), cb))
      + Pad(DosDir(g, root, dos), Span(DirClusters(|dos| + 2, g), cb))
    + Area(root, cb) + Area(dos, cb)
  }

  lemma DataAreaSize(g: Geo, root: seq<File>, dos: seq<File>)
    requires g.spc >= 1 && FilesOk(root) && FilesOk(dos)
    ensures |DataArea(g, root, dos)| == Span(NextFree(g, root, dos) - 2, g.ClusterBytes())
  {
    hide RootDir, DosDir, Area, Count;
    var cb := g.ClusterBytes();
    var a, b := DirClusters(|root| + 1, g), DirClusters(|dos| + 2, g);
    var c, d := Sum(Counts(root, cb)), Sum(Counts(dos, cb));
    SpanAdd(a, b, cb);
    SpanAdd(a + b, c, cb);
    SpanAdd(a + b + c, d, cb);
  }

  lemma DataFits(g: Geo, n: nat)
    requires GeoOk(g) && n <= g.clusters
    ensures g.DataOff() + Span(n, g.ClusterBytes()) <= g.Size()
  {
    SpanLe(n, g.clusters, g.ClusterBytes());
    Rearranged(g.clusters, g.spc);
  }

  lemma Rearranged(n: int, spc: int)
    ensures n * (spc * 512) == n * spc * 512
  {
  }

  /** All of the image that is written. */
  function Written(g: Geo, mbr: Bytes, vbr: Bytes, root: seq<File>, dos: seq<File>): Bytes
    requires Buildable(g, mbr, vbr, root, dos)
  {
    TableFits(g, root, dos);
    BootParts(g, mbr, vbr, root, dos) + FatArea(g, Lens(g, root, dos))
      + FatArea(g, Lens(g, root, dos)) + DataArea(g, root, dos)
  }

  function BootParts(g: Geo, mbr: Bytes, vbr: Bytes, root: seq<File>, dos: seq<File>): (b: Bytes)
    requires Buildable(g, mbr, vbr, root, dos)
    ensures |b| == g.FatOff()
  {
    Boot(g, mbr, vbr, FreeCount(g, root, dos), NextFree(g, root, dos))
  }

  lemma WrittenSize(g: Geo, mbr: Bytes, vbr: Bytes, root: seq<File>, dos: seq<File>)
    requires Buildable(g, mbr, vbr, root, dos)
    ensures |Written(g, mbr, vbr, root, dos)| ==
      g.DataOff() + Span(NextFree(g, root, dos) - 2, g.ClusterBytes()) <= g.Size()
  {
    hide DataArea, FatArea, BootParts, NextFree, Lens, FilesOk;
    TableFits(g, root, dos);
    DataAreaSize(g, root, dos);
    AtLeastTwo(g, root, dos);
    DataFits(g, NextFree(g, root, dos) - 2);
  }

  lemma AtLeastTwo(g: Geo, root: seq<File>, dos: seq<File>)
    requires g.spc >= 1
    ensures NextFree(g, root, dos) >= 2
  {
  }

  /** The image, end to end, and zeros behind. */
  function Image(g: Geo, mbr: Bytes, vbr: Bytes, root: seq<File>, dos: seq<File>): (img: Bytes)
    requires Buildable(g, mbr, vbr, root, dos)
    ensures |img| == g.Size()
  {
    WrittenSize(g, mbr, vbr, root, dos);
    Pad(Written(g, mbr, vbr, root, dos), g.Size())
  }
}
