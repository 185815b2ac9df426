/** Build, extract and build again: the image comes out the same. */
module FatRebuild {
  import opened Wrappers
  import opened LittleEndian
  import opened FatLayout
  import opened FatImage
  import opened FatExtract
  import opened FatRoundTrip
  import opened FatBuilder

  /** No two files share a name, in either directory or across them. */
  predicate Distinct(files: seq<File>) {
    forall i, j :: 0 <= i < j < |files| ==> files[i].name != files[j].name
  }

  /** The same files, with their data looked up by name. */
  function Sourced(files: seq<File>, from: map<Name, Bytes>): (s: seq<File>)
    requires forall k :: 0 <= k < |files| ==> files[k].name in from
    ensures |s| == |files|
  {
    seq(|files|, k requires 0 <= k < |files| => files[k].(data := from[files[k].name]))
  }

  lemma FoundSplit(root: seq<File>, dos: seq<File>)
    ensures FoundOf(root) + FoundOf(dos) == FoundOf(root + dos)
  {
  }

  /** With distinct names the dictionary gives every file its own data back. */
  lemma SourcedSame(root: seq<File>, dos: seq<File>)
    requires Distinct(root + dos)
    ensures var from := Dictionary(FoundOf(root) + FoundOf(dos));
      && (forall k :: 0 <= k < |root| ==> root[k].name in from) && (forall k :: 0 <= k < |dos| ==> dos[k].name in from)
      && Sourced(root, from) == root && Sourced(dos, from) == dos
  {
    hide Dictionary;
    var all := root + dos;
    FoundSplit(root, dos);
    var found := FoundOf(all);
    DictionaryOf(found);
    var from := Dictionary(found);
    forall k | 0 <= k < |root| ensures root[k].name in from && from[root[k].name] == root[k].data {
      assert found[k] == (root[k].name, root[k].data);
    }
    forall k | 0 <= k < |dos| ensures dos[k].name in from && from[dos[k].name] == dos[k].data {
      assert found[|root| + k] == (dos[k].name, dos[k].data);
    }
  }

  /** From the boot sectors and files, to an image, and from that image alone, given
      the lists of names, to the same image again. */
  method BuildTwice(g: Geo, mbr: Bytes, vbr: Bytes, root: seq<File>, dos: seq<File>)
    returns (once: Option<Bytes>, parts: Option<Parts>, twice: Option<Bytes>)
    requires GeoOk(g) && g.clusters >= MIN_CLUSTERS && FilesOk(root) && FilesOk(dos) && Distinct(root + dos)
    ensures once.Some? <==> Buildable(g, mbr, vbr, root, dos)
    ensures once.Some? ==> parts.Some? && parts.value.files == FoundOf(root) + FoundOf(dos)
    ensures twice == once
  {
    hide Image, Extracted, Dictionary, FilesOk, NextFree, StampMbr, StampVbr, Distinct;
    parts, twice := None, None;
    once := Build(g, mbr, vbr, root, dos);
    if once.None? {
      return;
    }
    BootFits(g);
    ExtractsWhatWasBuilt(g, mbr, vbr, root, dos);
    parts := Extract(once.value);
    var from := Dictionary(parts.value.files);
    SourcedSame(root, dos);
    RebuildReproduces(g, mbr, vbr, root, dos);
    twice := Build(g, parts.value.mbr, parts.value.vbr, Sourced(root, from), Sourced(dos, from));
  }

  lemma BootFits(g: Geo)
    requires GeoOk(g)
    ensures g.Size() >= (PART_START + 1) * BPS
  {
  }
}
