// The regions of a volume as runs of bytes: which sector is which.
module Sectors {
  import opened Words
  import opened Virtio
  import opened Volumes

  /** Sectors one after the other. */
  ghost function Flat(sectors: seq<Sector>): (s: seq<byte>)
    ensures |s| == 512 * |sectors|
  {
    if sectors == [] then [] else Flat(sectors[..|sectors| - 1]) + sectors[|sectors| - 1]
  }

  lemma {:induction false} FlatAt(sectors: seq<Sector>, k: nat)
    requires k < |sectors|
    ensures Flat(sectors)[512 * k..512 * k + 512] == sectors[k]
  {
    var n := |sectors| - 1;
    if k < n {
      FlatAt(sectors[..n], k);
      SliceOfSlice(Flat(sectors), 0, 512 * n, 512 * k, 512 * k + 512);
      assert Flat(sectors)[0..512 * n] == Flat(sectors[..n]);
    }
  }

  /** The bytes of a region of a disk. */
  ghost function Region(disk: seq<Sector>, start: nat, n: nat): (s: seq<byte>)
    requires start + n <= |disk|
    ensures |s| == 512 * n
  {
    Flat(disk[start..start + n])
  }

  /** A run within sector `k` of a region is a run of the region. */
  lemma RegionRun(disk: seq<Sector>, start: nat, n: nat, k: nat, at: nat, length: nat)
    requires start + n <= |disk| && k < n && at + length <= 512
    ensures 512 * k + at + length <= 512 * n
    ensures Region(disk, start, n)[512 * k + at..512 * k + at + length] == disk[start + k][at..at + length]
  {
    FlatAt(disk[start..start + n], k);
    SliceOfSlice(Region(disk, start, n), 512 * k, 512 * k + 512, at, at + length);
  }

  ghost function FatRegion(v: Volume): (s: seq<byte>)
    requires Sound(v)
    ensures |s| == 512 * v.fatSectors
  {
    Region(v.disk, v.fatStart, v.fatSectors)
  }

  ghost function RootRegion(v: Volume): (s: seq<byte>)
    requires Sound(v)
    ensures |s| == 512 * RootSectors(v.rootEntries) && 32 * v.rootEntries <= |s|
  {
    Region(v.disk, v.rootStart, RootSectors(v.rootEntries))
  }

  ghost function DataRegion(v: Volume): (s: seq<byte>)
    requires Sound(v)
    ensures |s| == 512 * Rows(v.clusters, v.spc)
  {
    Region(v.disk, v.dataStart, Rows(v.clusters, v.spc))
  }

  /** The FAT is a row of 16-bit words: the link of cluster `c` is word number `c`. */
  lemma FatInOrder(v: Volume, c: nat)
    requires Sound(v) && ValidCluster(v, c)
    ensures 2 * c + 2 <= |FatRegion(v)|
    ensures FatEntry(v, c) == FatRegion(v)[2 * c] as int + 0x100 * FatRegion(v)[2 * c + 1] as int
  {
    var k, at := c / 256, c % 256 * 2;
    Regions(v, c, 0, 0);
    assert 2 * c == 512 * k + at;
    RegionRun(v.disk, v.fatStart, v.fatSectors, k, at, 2);
    var word := FatRegion(v)[2 * c..2 * c + 2];
    assert word == v.disk[v.fatStart + k][at..at + 2];
    assert word[0] == FatRegion(v)[2 * c] && word[1] == FatRegion(v)[2 * c + 1];
    assert word[0] == v.disk[v.fatStart + k][at] && word[1] == v.disk[v.fatStart + k][at + 1];
  }

  /** The root directory is a row of 32-byte entries. */
  lemma RootInOrder(v: Volume, i: nat)
    requires Sound(v) && i < v.rootEntries
    ensures Root(v)[i] == RootRegion(v)[32 * i..32 * i + 32]
  {
    Regions(v, 0, 0, i);
    assert 32 * i == 512 * (i / 16) + i % 16 * 32;
    RegionRun(v.disk, v.rootStart, RootSectors(v.rootEntries), i / 16, i % 16 * 32, 32);
  }

  lemma {:induction false} RowsTimes(n: nat, width: nat)
    ensures 512 * Rows(n, width) == Rows(n, 512 * width)
  {
    if n > 0 { RowsTimes(n - 1, width); }
  }

  /** `data` has sector number `k` of the disk at `at`. */
  ghost predicate SectorIn(data: seq<byte>, at: nat, disk: seq<Sector>, k: nat) {
    at + 512 <= |data| && k < |disk| && data[at..at + 512] == disk[k]
  }

  /** Sector `k` of cluster `c` in the data region. */
  lemma ClusterSector(v: Volume, c: nat, k: nat)
    requires Sound(v) && ValidCluster(v, c) && k < v.spc
    ensures SectorIn(DataRegion(v), 512 * Rows(c - 2, v.spc) + 512 * k, v.disk, DataSector(v, c, k))
  {
    InRows(c - 2, k, v.clusters, v.spc);
    Regions(v, c, k, 0);
    RegionRun(v.disk, v.dataStart, Rows(v.clusters, v.spc), Rows(c - 2, v.spc) + k, 0, 512);
  }

  lemma {:induction false} SectorsJoined(v: Volume, c: nat, n: nat, data: seq<byte>, at: nat)
    requires Sound(v) && ValidCluster(v, c) && n <= v.spc && at <= |data|
    requires forall k: nat :: k < n ==> SectorIn(data, at + 512 * k, v.disk, DataSector(v, c, k))
    ensures at + 512 * n <= |data| && SectorData(v, c, n) == data[at..at + 512 * n]
  {
    if n > 0 {
      SectorsJoined(v, c, n - 1, data, at);
      assert SectorIn(data, at + 512 * (n - 1), v.disk, DataSector(v, c, n - 1));
      Joined(data, at, at + 512 * (n - 1), at + 512 * n);
    }
  }

  lemma Joined(s: seq<byte>, a: nat, b: nat, c: nat)
    requires a <= b <= c <= |s|
    ensures s[a..b] + s[b..c] == s[a..c]
  {
  }

  /** `data` has `piece` at `at`. */
  ghost predicate Holds(data: seq<byte>, at: nat, piece: seq<byte>) {
    at + |piece| <= |data| && data[at..at + |piece|] == piece
  }

  /** The clusters, from number 2 on, are the data region cut into pieces of one cluster each. */
  lemma ClusterInOrder(v: Volume, c: nat)
    requires Sound(v) && ValidCluster(v, c)
    ensures Holds(DataRegion(v), Rows(c - 2, ClusterBytes(v)), SectorData(v, c, v.spc))
  {
    RowsTimes(c - 2, v.spc);
    ClusterSectors(v, c, 512 * Rows(c - 2, v.spc));
    SectorsJoined(v, c, v.spc, DataRegion(v), 512 * Rows(c - 2, v.spc));
  }

  lemma ClusterSectors(v: Volume, c: nat, at: nat)
    requires Sound(v) && ValidCluster(v, c) && at == 512 * Rows(c - 2, v.spc)
    ensures at <= |DataRegion(v)|
    ensures forall k: nat :: k < v.spc ==> SectorIn(DataRegion(v), at + 512 * k, v.disk, DataSector(v, c, k))
  {
    InRows(c - 2, 0, v.clusters, v.spc);
    forall k: nat | k < v.spc ensures SectorIn(DataRegion(v), at + 512 * k, v.disk, DataSector(v, c, k)) {
      ClusterSector(v, c, k);
    }
  }

  lemma FileCluster(v: Volume, first: nat, n: nat, k: nat)
    requires Sound(v) && ChainOk(v, first, n) && k < n && ValidCluster(v, ClusterAt(v, first, k))
    ensures Holds(FileData(v, first, n), Rows(k, ClusterBytes(v)), SectorData(v, ClusterAt(v, first, k), v.spc))
  {
    FileDataPrefix(v, first, k + 1, n);
    FileDataAt(v, first, k);
    HoldsInMore(FileData(v, first, k + 1), FileData(v, first, n), Rows(k, ClusterBytes(v)),
                SectorData(v, ClusterAt(v, first, k), v.spc));
  }

  /** Cluster number `k` of a file is that piece of the data region to which the chain leads. */
  lemma FileInOrder(v: Volume, first: nat, n: nat, k: nat)
    requires Sound(v) && ChainOk(v, first, n) && k < n
    ensures ValidCluster(v, ClusterAt(v, first, k))
    ensures var piece := SectorData(v, ClusterAt(v, first, k), v.spc);
      && |piece| == ClusterBytes(v) && Holds(FileData(v, first, n), Rows(k, ClusterBytes(v)), piece)
      && Holds(DataRegion(v), Rows(ClusterAt(v, first, k) - 2, ClusterBytes(v)), piece)
  {
    assert ValidCluster(v, ClusterAt(v, first, k));
    FileCluster(v, first, n, k);
    ClusterInOrder(v, ClusterAt(v, first, k));
  }

  lemma HoldsInMore(s: seq<byte>, t: seq<byte>, at: nat, piece: seq<byte>)
    requires s <= t && at <= |s| && s[at..] == piece
    ensures Holds(t, at, piece)
  {
    assert |s| == at + |piece|;
    assert t[at..|s|] == s[at..];
  }

  /** Each cluster of a file after the first is the word that the FAT has for the one before. */
  lemma ChainInOrder(v: Volume, first: nat, k: nat)
    requires Sound(v) && ValidCluster(v, ClusterAt(v, first, k))
    ensures var c := ClusterAt(v, first, k);
      2 * c + 2 <= |FatRegion(v)|
      && ClusterAt(v, first, k + 1) == FatRegion(v)[2 * c] as int + 0x100 * FatRegion(v)[2 * c + 1] as int
  {
    FatInOrder(v, ClusterAt(v, first, k));
  }
}
