// What a FAT16 volume means: its regions, cluster chains, files and root directory.
module Volumes {
  import opened Words
  import opened Bits
  import opened Virtio

  /** The geometry of a mounted volume, with `spc` sectors in each cluster. */
  datatype Volume = Volume(disk: seq<Sector>, fatStart: nat, fatSectors: nat, rootStart: nat, rootEntries: nat,
                           dataStart: nat, spc: nat, clusters: nat)

  /** The product of `n` and `width`, as `n` rows of that width. */
  function Rows(n: nat, width: nat): nat {
    if n == 0 then 0 else Rows(n - 1, width) + width
  }

  lemma {:induction false} RowsProduct(n: nat, width: nat)
    ensures Rows(n, width) == n * width
  {
    if n > 0 {
      RowsProduct(n - 1, width);
    }
  }

  function RootSectors(rootEntries: nat): nat { (32 * rootEntries + 511) / 512 }

  /** The first FAT, the root directory and the data region follow each other and fit the disk; the
      FAT has an entry for every cluster, and the cluster count is one of FAT16. */
  predicate Sound(v: Volume) {
    && 1 <= v.fatStart && v.fatStart + v.fatSectors <= v.rootStart
    && 1 <= v.rootEntries < 0x1_0000 && v.dataStart == v.rootStart + RootSectors(v.rootEntries)
    && 1 <= v.spc <= 128 && PowerOfTwo(v.spc)
    && 4085 <= v.clusters < 65525 && v.clusters + 2 <= 256 * v.fatSectors
    && v.dataStart + Rows(v.clusters, v.spc) <= |v.disk| < 0x1_0000_0000
  }

  predicate ValidCluster(v: Volume, c: nat) { 2 <= c < v.clusters + 2 && c < 0xfff0 }

  function FatSector(v: Volume, c: nat): nat { v.fatStart + c / 256 }

  /** Sector `k` of cluster `c`. */
  function DataSector(v: Volume, c: nat, k: nat): nat
    requires c >= 2
  {
    v.dataStart + Rows(c - 2, v.spc) + k
  }

  function RootSector(v: Volume, slot: nat): nat { v.rootStart + slot / 16 }

  /** Every sector computed from a valid cluster or a root slot lies in its own region. */
  lemma Regions(v: Volume, c: nat, k: nat, slot: nat)
    requires Sound(v)
    ensures ValidCluster(v, c) ==> v.fatStart <= FatSector(v, c) < v.fatStart + v.fatSectors <= v.rootStart
    ensures ValidCluster(v, c) && k < v.spc ==> v.dataStart <= DataSector(v, c, k) < |v.disk|
    ensures slot < v.rootEntries ==> v.rootStart <= RootSector(v, slot) < v.dataStart <= |v.disk|
  {
    if ValidCluster(v, c) && k < v.spc {
      InRows(c - 2, k, v.clusters, v.spc);
    }
  }

  lemma {:induction false} InRows(row: nat, k: nat, rows: nat, width: nat)
    requires row < rows && k < width
    ensures Rows(row, width) + k < Rows(rows, width)
  {
    if row < rows - 1 {
      InRows(row, k, rows - 1, width);
    }
  }

  lemma SameCell(a: nat, j: nat, b: nat, k: nat, width: nat)
    requires j < width && k < width && Rows(a, width) + j == Rows(b, width) + k
    ensures a == b && j == k
  {
    if a < b {
      InRows(a, j, b, width);
    } else if b < a {
      InRows(b, k, a, width);
    }
  }

  /** No two clusters share a data sector. */
  lemma ClustersApart(v: Volume, c: nat, j: nat, d: nat, k: nat)
    requires Sound(v) && ValidCluster(v, c) && ValidCluster(v, d) && j < v.spc && k < v.spc
    requires DataSector(v, c, j) == DataSector(v, d, k)
    ensures c == d && j == k
  {
    SameCell(c - 2, j, d - 2, k, v.spc);
  }

  // Chains.

  function FatEntry(v: Volume, c: nat): nat
    requires Sound(v) && ValidCluster(v, c)
  {
    Regions(v, c, 0, 0);
    Le16(v.disk[FatSector(v, c)], c % 256 * 2)
  }

  /** The cluster after `c`; nothing (cluster 0) follows what is not a cluster. */
  function Hop(v: Volume, c: nat): nat
    requires Sound(v)
  {
    if ValidCluster(v, c) then FatEntry(v, c) else 0
  }

  function ClusterAt(v: Volume, first: nat, k: nat): nat
    requires Sound(v)
  {
    if k == 0 then first else Hop(v, ClusterAt(v, first, k - 1))
  }

  ghost predicate ChainOk(v: Volume, first: nat, n: nat)
    requires Sound(v)
  {
    forall k: nat {:trigger ValidCluster(v, ClusterAt(v, first, k))} :: k < n ==>
      ValidCluster(v, ClusterAt(v, first, k))
  }

  lemma {:induction false} SameTail(v: Volume, first: nat, i: nat, j: nat, m: nat)
    requires Sound(v) && ClusterAt(v, first, i) == ClusterAt(v, first, j)
    ensures ClusterAt(v, first, i + m) == ClusterAt(v, first, j + m)
  {
    if m > 0 {
      SameTail(v, first, i, j, m - 1);
    }
  }

  /** A chain that leaves the clusters after exactly `n` hops never visits one twice. */
  lemma ChainDistinct(v: Volume, first: nat, n: nat, i: nat, j: nat)
    requires Sound(v) && ChainOk(v, first, n) && !ValidCluster(v, ClusterAt(v, first, n))
    requires i < j < n
    ensures ClusterAt(v, first, i) != ClusterAt(v, first, j)
  {
    if ClusterAt(v, first, i) == ClusterAt(v, first, j) {
      SameTail(v, first, i, j, n - j);
    }
  }

  // Files.

  function ClusterBytes(v: Volume): nat { 512 * v.spc }

  lemma ChainGrows(v: Volume, first: nat, n: nat)
    requires Sound(v) && ChainOk(v, first, n) && ValidCluster(v, ClusterAt(v, first, n))
    ensures ChainOk(v, first, n + 1)
  {
  }

  /** How many clusters `size` bytes take. */
  function ClusterCount(v: Volume, size: nat): nat
    requires v.spc > 0
    decreases size
  {
    if size == 0 then 0
    else if size <= ClusterBytes(v) then 1
    else ClusterCount(v, size - ClusterBytes(v)) + 1
  }

  /** The first `n` sectors of cluster `c`, one after the other. */
  function SectorData(v: Volume, c: nat, n: nat): (s: seq<byte>)
    requires Sound(v) && ValidCluster(v, c) && n <= v.spc
    ensures |s| == 512 * n
  {
    if n == 0 then [] else
      Regions(v, c, n - 1, 0);
      SectorData(v, c, n - 1) + v.disk[DataSector(v, c, n - 1)]
  }

  /** The bytes of the first `n` clusters of the chain from `first`, one cluster after the other. */
  ghost function FileData(v: Volume, first: nat, n: nat): (s: seq<byte>)
    requires Sound(v) && ChainOk(v, first, n)
    ensures |s| == Rows(n, ClusterBytes(v))
  {
    if n == 0 then [] else
      FileData(v, first, n - 1) + SectorData(v, ClusterAt(v, first, n - 1), v.spc)
  }

  lemma SliceOfSlice(s: seq<byte>, a: nat, b: nat, x: nat, y: nat)
    requires a <= b <= |s| && x <= y <= b - a
    ensures s[a..b][x..y] == s[a + x..a + y]
  {
    assert forall i :: 0 <= i < y - x ==> s[a..b][x..y][i] == s[a + x..a + y][i];
  }

  lemma {:induction false} SectorDataAt(v: Volume, c: nat, n: nat, k: nat)
    requires Sound(v) && ValidCluster(v, c) && k < n <= v.spc
    ensures 0 <= DataSector(v, c, k) < |v.disk|
    ensures SectorData(v, c, n)[512 * k..512 * k + 512] == v.disk[DataSector(v, c, k)]
  {
    Regions(v, c, k, 0);
    if k < n - 1 {
      SectorDataAt(v, c, n - 1, k);
      SliceOfSlice(SectorData(v, c, n), 0, 512 * (n - 1), 512 * k, 512 * k + 512);
    }
  }

  lemma {:induction false} FileDataAt(v: Volume, first: nat, n: nat)
    requires Sound(v) && ChainOk(v, first, n + 1)
    ensures |FileData(v, first, n + 1)| == Rows(n, ClusterBytes(v)) + ClusterBytes(v)
    ensures FileData(v, first, n + 1)[Rows(n, ClusterBytes(v))..] == SectorData(v, ClusterAt(v, first, n), v.spc)
  {
  }

  lemma {:induction false} FileDataPrefix(v: Volume, first: nat, m: nat, n: nat)
    requires Sound(v) && m <= n && ChainOk(v, first, n)
    ensures FileData(v, first, m) <= FileData(v, first, n)
  {
    if m < n {
      FileDataPrefix(v, first, m, n - 1);
    }
  }

  lemma SectorOf(within: nat, spc: nat)
    requires within < 512 * spc
    ensures within / 512 < spc && within == 512 * (within / 512) + within % 512
  {
  }

  lemma SectorSlice(v: Volume, c: nat, within: nat, n: nat)
    requires Sound(v) && ValidCluster(v, c) && within < ClusterBytes(v) && n <= 512 - within % 512
    ensures within / 512 < v.spc && 0 <= DataSector(v, c, within / 512) < |v.disk|
    ensures within + n <= ClusterBytes(v)
    ensures v.disk[DataSector(v, c, within / 512)][within % 512..within % 512 + n]
      == SectorData(v, c, v.spc)[within..within + n]
  {
    var s, at := within / 512, within % 512;
    SectorOf(within, v.spc);
    SectorDataAt(v, c, v.spc, s);
    SliceOfSlice(SectorData(v, c, v.spc), 512 * s, 512 * s + 512, at, at + n);
  }

  lemma TailSlice(s: seq<byte>, at: nat, tail: seq<byte>, x: nat, n: nat)
    requires at <= |s| && s[at..] == tail && x + n <= |tail|
    ensures at + x + n <= |s| && s[at + x..at + x + n] == tail[x..x + n]
  {
    assert s[at..|s|] == tail;
    SliceOfSlice(s, at, |s|, x, x + n);
  }

  /** Bytes of cluster number `k` of a file are bytes of the file. */
  lemma ClusterRun(v: Volume, first: nat, k: nat, c: nat, within: nat, n: nat)
    requires Sound(v) && ChainOk(v, first, k + 1) && c == ClusterAt(v, first, k) && ValidCluster(v, c)
    requires within + n <= ClusterBytes(v)
    ensures var at := Rows(k, ClusterBytes(v)) + within;
      && at + n <= |FileData(v, first, k + 1)|
      && FileData(v, first, k + 1)[at..at + n] == SectorData(v, c, v.spc)[within..within + n]
  {
    FileDataAt(v, first, k);
    TailSlice(FileData(v, first, k + 1), Rows(k, ClusterBytes(v)), SectorData(v, c, v.spc), within, n);
  }

  /** Bytes within one sector of cluster number `k` of a file are consecutive bytes of the file. */
  lemma SectorRun(v: Volume, first: nat, k: nat, within: nat, n: nat)
    requires Sound(v) && ChainOk(v, first, k + 1) && ValidCluster(v, ClusterAt(v, first, k))
    requires within < ClusterBytes(v) && n <= 512 - within % 512
    ensures within / 512 < v.spc && 0 <= DataSector(v, ClusterAt(v, first, k), within / 512) < |v.disk|
    ensures Rows(k, ClusterBytes(v)) + within + n <= |FileData(v, first, k + 1)|
    ensures v.disk[DataSector(v, ClusterAt(v, first, k), within / 512)][within % 512..within % 512 + n]
      == FileData(v, first, k + 1)[Rows(k, ClusterBytes(v)) + within..Rows(k, ClusterBytes(v)) + within + n]
  {
    var c := ClusterAt(v, first, k);
    SectorSlice(v, c, within, n);
    ClusterRun(v, first, k, c, within, n);
  }

  ghost function FileByte(v: Volume, first: nat, m: nat, offset: nat, i: nat): byte
    requires Sound(v) && ChainOk(v, first, m)
  {
    if offset + i < |FileData(v, first, m)| then FileData(v, first, m)[offset + i] else 0
  }

  /** `data` is what the first `m` clusters of the file hold from `offset` on. */
  ghost predicate HeldAt(v: Volume, first: nat, m: nat, offset: nat, data: seq<byte>)
    requires Sound(v)
  {
    && ChainOk(v, first, m)
    && forall i: nat {:trigger FileByte(v, first, m, offset, i)} :: i < |data| ==>
      offset + i < |FileData(v, first, m)| && data[i] == FileByte(v, first, m, offset, i)
  }

  lemma HeldIsSlice(v: Volume, first: nat, m: nat, offset: nat, data: seq<byte>)
    requires Sound(v) && HeldAt(v, first, m, offset, data) && data != []
    ensures offset + |data| <= |FileData(v, first, m)| && data == FileData(v, first, m)[offset..offset + |data|]
  {
    forall i: nat | i < |data|
      ensures offset + i < |FileData(v, first, m)| && data[i] == FileData(v, first, m)[offset + i]
    {
      assert data[i] == FileByte(v, first, m, offset, i);
    }
    assert data[|data| - 1] == FileByte(v, first, m, offset, |data| - 1);
  }

  lemma HeldByMore(v: Volume, first: nat, m: nat, n: nat, offset: nat, data: seq<byte>)
    requires Sound(v) && HeldAt(v, first, m, offset, data) && m <= n && ChainOk(v, first, n)
    ensures HeldAt(v, first, n, offset, data)
  {
    FileDataPrefix(v, first, m, n);
    if data != [] {
      HeldIsSlice(v, first, m, offset, data);
    }
  }

  lemma HeldNext(v: Volume, first: nat, m: nat, offset: nat, data: seq<byte>, piece: seq<byte>)
    requires Sound(v) && HeldAt(v, first, m, offset, data) && offset + |data| + |piece| <= |FileData(v, first, m)|
    requires piece == FileData(v, first, m)[offset + |data|..offset + |data| + |piece|]
    ensures HeldAt(v, first, m, offset, data + piece)
  {
    if data != [] {
      HeldIsSlice(v, first, m, offset, data);
    }
    var file := FileData(v, first, m);
    assert data + piece == file[offset..offset + |data| + |piece|];
  }

  /** Appending the next bytes of a sector extends what has been read. */
  lemma ReadStep(v: Volume, first: nat, m: nat, offset: nat, data: seq<byte>, k: nat, within: nat, piece: seq<byte>)
    requires Sound(v) && HeldAt(v, first, m, offset, data) && m <= k + 1
    requires ChainOk(v, first, k + 1) && ValidCluster(v, ClusterAt(v, first, k))
    requires offset + |data| == Rows(k, ClusterBytes(v)) + within
    requires within < ClusterBytes(v) && |piece| <= 512 - within % 512
    requires DataSector(v, ClusterAt(v, first, k), within / 512) < |v.disk|
    requires piece
      == v.disk[DataSector(v, ClusterAt(v, first, k), within / 512)][within % 512..within % 512 + |piece|]
    ensures HeldAt(v, first, k + 1, offset, data + piece)
  {
    SectorRun(v, first, k, within, |piece|);
    HeldByMore(v, first, m, k + 1, offset, data);
    HeldNext(v, first, k + 1, offset, data, piece);
  }

  lemma {:induction false} RowsMonotone(a: nat, b: nat, width: nat)
    requires a <= b
    ensures Rows(a, width) <= Rows(b, width)
  {
    if a < b {
      RowsMonotone(a, b - 1, width);
    }
  }

  lemma RowsBelow(x: nat, width: nat)
    requires width > 0
    ensures Rows(x / width, width) <= x < Rows(x / width + 1, width)
  {
    RowsProduct(x / width, width);
  }

  /** A size needs more than `k` clusters exactly when it exceeds them. */
  lemma {:induction false} CountBeyond(v: Volume, k: nat, size: nat)
    requires v.spc > 0
    ensures ClusterCount(v, size) > k <==> size > Rows(k, ClusterBytes(v))
  {
    if k > 0 && size > ClusterBytes(v) {
      CountBeyond(v, k - 1, size - ClusterBytes(v));
    }
  }

  lemma CountAt(v: Volume, k: nat, within: nat)
    requires v.spc > 0 && 0 < within <= ClusterBytes(v)
    ensures ClusterCount(v, Rows(k, ClusterBytes(v)) + within) == k + 1
  {
    CountBeyond(v, k, Rows(k, ClusterBytes(v)) + within);
    CountBeyond(v, k + 1, Rows(k, ClusterBytes(v)) + within);
  }

  /** The count is the size divided by the bytes of a cluster, rounded up. */
  lemma CountIsQuotient(v: Volume, size: nat)
    requires v.spc > 0 && size > 0
    ensures ClusterCount(v, size) == (size - 1) / ClusterBytes(v) + 1
  {
    var q := (size - 1) / ClusterBytes(v);
    RowsBelow(size - 1, ClusterBytes(v));
    CountBeyond(v, q, size);
    CountBeyond(v, q + 1, size);
  }

  lemma CountMonotone(v: Volume, a: nat, b: nat)
    requires v.spc > 0 && a <= b
    ensures ClusterCount(v, a) <= ClusterCount(v, b)
  {
    if a > 0 {
      CountBeyond(v, ClusterCount(v, a) - 1, a);
      CountBeyond(v, ClusterCount(v, a) - 1, b);
    }
  }

  /** A read in progress: `out` has been read, the next byte is byte `within` of cluster number `k`. */
  ghost predicate Reading(v: Volume, first: nat, offset: nat, out: seq<byte>, m: nat, k: nat, within: nat,
                          cluster: nat) {
    && Sound(v) && cluster == ClusterAt(v, first, k) && ChainOk(v, first, k)
    && HeldAt(v, first, m, offset, out) && m <= k + 1
    && offset + |out| == Rows(k, ClusterBytes(v)) + within
  }

  lemma PieceRead(v: Volume, first: nat, offset: nat, out: seq<byte>, m: nat, k: nat, within: nat, cluster: nat,
                  piece: seq<byte>)
    requires Reading(v, first, offset, out, m, k, within, cluster) && ValidCluster(v, cluster)
    requires within < ClusterBytes(v) && |piece| <= 512 - within % 512
    requires DataSector(v, cluster, within / 512) < |v.disk|
    requires piece == v.disk[DataSector(v, cluster, within / 512)][within % 512..within % 512 + |piece|]
    ensures Reading(v, first, offset, out + piece, k + 1, k, within + |piece|, cluster)
  {
    ChainGrows(v, first, k);
    ReadStep(v, first, m, offset, out, k, within, piece);
  }

  lemma ClusterLeft(v: Volume, first: nat, offset: nat, out: seq<byte>, k: nat, cluster: nat)
    requires Reading(v, first, offset, out, k + 1, k, ClusterBytes(v), cluster)
    ensures Reading(v, first, offset, out, k + 1, k + 1, 0, Hop(v, cluster))
  {
  }

  /** More bytes are wanted from a cluster that is not there. */
  lemma ReadRefused(v: Volume, first: nat, offset: nat, out: seq<byte>, m: nat, k: nat, within: nat, cluster: nat,
                    left: nat)
    requires Reading(v, first, offset, out, m, k, within, cluster) && !ValidCluster(v, cluster) && left > 0
    ensures !ChainOk(v, first, ClusterCount(v, offset + |out| + left))
  {
    CountBeyond(v, k, offset + |out| + left);
  }

  // The root directory.

  type Entry = s: seq<byte> | |s| == 32 witness seq(32, _ => 0)

  function Slot(v: Volume, i: nat): Entry
    requires Sound(v) && i < v.rootEntries
  {
    Regions(v, 0, 0, i);
    v.disk[RootSector(v, i)][i % 16 * 32..i % 16 * 32 + 32]
  }

  function Root(v: Volume): seq<Entry>
    requires Sound(v)
  {
    seq(v.rootEntries, i requires 0 <= i < v.rootEntries => Slot(v, i))
  }

  /** `root` holds the entries of the root directory. */
  ghost predicate IsRoot(v: Volume, root: seq<Entry>)
    requires Sound(v)
  {
    |root| == v.rootEntries && forall i: nat {:trigger Slot(v, i)} :: i < v.rootEntries ==> root[i] == Slot(v, i)
  }

  lemma SameRootSector(v: Volume, i: nat)
    requires i > 0 && i % 16 != 0
    ensures RootSector(v, i - 1) == RootSector(v, i)
  {
  }

  /** A file whose first cluster and size agree: an empty file has no cluster, any other has exactly
      as many as its size needs and then an end mark. */
  ghost predicate GoodFile(v: Volume, size: nat, first: nat)
    requires Sound(v)
  {
    if size == 0 then first == 0 else
      var n := ClusterCount(v, size);
      n <= v.clusters && ChainOk(v, first, n) && ClusterAt(v, first, n) >= 0xfff8
  }

  /** What fat_open checks: a non-empty good file has exactly as many clusters as its size divided by
      the cluster size, rounded up; they are valid and pairwise distinct, and an end mark follows. */
  lemma GoodFileChain(v: Volume, size: nat, first: nat)
    requires Sound(v) && GoodFile(v, size, first) && size > 0
    ensures ClusterCount(v, size) == (size - 1) / ClusterBytes(v) + 1
    ensures var n := ClusterCount(v, size);
      && n <= v.clusters && ClusterAt(v, first, n) >= 0xfff8
      && (forall i: nat :: i < n ==> ValidCluster(v, ClusterAt(v, first, i)))
      && (forall i: nat, j: nat :: i < j < n ==> ClusterAt(v, first, i) != ClusterAt(v, first, j))
  {
    CountIsQuotient(v, size);
    var n := ClusterCount(v, size);
    forall i: nat, j: nat | i < j < n ensures ClusterAt(v, first, i) != ClusterAt(v, first, j) {
      ChainDistinct(v, first, n, i, j);
    }
  }

  /** Exactly what makes a non-empty file good. */
  lemma GoodFileIs(v: Volume, size: nat, first: nat, n: nat)
    requires Sound(v) && size > 0 && n == (size - 1) / ClusterBytes(v) + 1
    ensures GoodFile(v, size, first) <==> n <= v.clusters && ChainOk(v, first, n) && ClusterAt(v, first, n) >= 0xfff8
  {
    CountIsQuotient(v, size);
  }

  /** A range that starts beyond all clusters or needs more clusters than the chain has. */
  ghost predicate Unreadable(v: Volume, first: nat, offset: nat, length: nat)
    requires Sound(v)
  {
    length > 0 && (offset >= Rows(v.clusters, ClusterBytes(v)) || !ChainOk(v, first, ClusterCount(v, offset + length)))
  }

  /** Every range of a good file can be read. */
  lemma GoodRange(v: Volume, size: nat, first: nat, offset: nat, length: nat)
    requires Sound(v) && GoodFile(v, size, first) && offset + length <= size && length > 0
    ensures !Unreadable(v, first, offset, length)
  {
    CountMonotone(v, offset + length, size);
    CountBeyond(v, v.clusters, size);
  }

  lemma QuotientRows(x: nat, width: nat)
    requires width > 0
    ensures x == Rows(x / width, width) + x % width
  {
    RowsProduct(x / width, width);
  }

  /** Skipping the clusters before `offset` starts a read there. */
  lemma SkipTo(v: Volume, first: nat, skip: nat, within: nat, offset: nat, length: nat)
    requires Sound(v) && length > 0 && offset == Rows(skip, ClusterBytes(v)) + within
    ensures skip >= v.clusters || !ChainOk(v, first, skip) ==> Unreadable(v, first, offset, length)
    ensures ChainOk(v, first, skip) ==> Reading(v, first, offset, [], skip, skip, within, ClusterAt(v, first, skip))
  {
    CountBeyond(v, skip, offset + length);
    if skip >= v.clusters {
      RowsMonotone(v.clusters, skip, ClusterBytes(v));
    }
  }

  /** The bytes of a good file: its clusters one after the other, cut to its size. */
  ghost function Contents(v: Volume, size: nat, first: nat): (s: seq<byte>)
    requires Sound(v) && GoodFile(v, size, first)
    ensures |s| == size
  {
    if size == 0 then [] else
      CountBeyond(v, ClusterCount(v, size), size);
      FileData(v, first, ClusterCount(v, size))[..size]
  }

  ghost function ContentByte(v: Volume, size: nat, first: nat, i: nat): byte
    requires Sound(v) && GoodFile(v, size, first) && i < size
  {
    Contents(v, size, first)[i]
  }

  /** `bytes` are the bytes of the file, one by one. */
  ghost predicate HasContents(v: Volume, size: nat, first: nat, bytes: seq<byte>)
    requires Sound(v) && GoodFile(v, size, first)
  {
    |bytes| == size && forall i: nat {:trigger ContentByte(v, size, first, i)} :: i < size ==>
      bytes[i] == ContentByte(v, size, first, i)
  }

  lemma ContentsAre(v: Volume, size: nat, first: nat, bytes: seq<byte>)
    requires Sound(v) && GoodFile(v, size, first) && HasContents(v, size, first, bytes)
    ensures bytes == Contents(v, size, first)
  {
    assert forall i: nat {:trigger bytes[i]} :: i < size ==> bytes[i] == ContentByte(v, size, first, i);
  }

  lemma ContentsThemselves(v: Volume, size: nat, first: nat)
    requires Sound(v) && GoodFile(v, size, first)
    ensures HasContents(v, size, first, Contents(v, size, first))
  {
  }

  lemma RangeOfContents(v: Volume, size: nat, first: nat, offset: nat, length: nat)
    requires Sound(v) && GoodFile(v, size, first) && offset + length <= size && length > 0
    requires var n := ClusterCount(v, offset + length);
      ChainOk(v, first, n) && offset + length <= |FileData(v, first, n)|
    ensures FileData(v, first, ClusterCount(v, offset + length))[offset..offset + length]
      == Contents(v, size, first)[offset..offset + length]
  {
    CountMonotone(v, offset + length, size);
    FileDataPrefix(v, first, ClusterCount(v, offset + length), ClusterCount(v, size));
  }

  // Mounting.

  /** The fields of a boot sector. */
  datatype Bpb = Bpb(signature: nat, sectorBytes: nat, spc: nat, fatStart: nat, copies: nat,
                     rootEntries: nat, fatSectors: nat, total: nat)

  /** The 16-bit sector count is used unless it is 0. */
  function Parse(boot: Sector): (p: Bpb)
    ensures p.total < 0x1_0000_0000 && p.fatStart < 0x1_0000 && p.rootEntries < 0x1_0000 && p.fatSectors < 0x1_0000
  {
    Bpb(Le16(boot, 510), Le16(boot, 11), boot[13], Le16(boot, 14), boot[16], Le16(boot, 17), Le16(boot, 22),
        if Le16(boot, 19) != 0 then Le16(boot, 19) else Le32(boot, 32))
  }

  function FatArea(copies: nat, fatSectors: nat): nat { copies * fatSectors }

  function ClustersIn(sectors: nat, spc: nat): nat
    requires spc > 0
  {
    sectors / spc
  }

  /** The volume that a boot sector describes: reserved sectors, FATs, root directory, data. */
  function Described(disk: seq<Sector>, p: Bpb): Volume
    requires p.spc > 0
  {
    var rootStart := p.fatStart + FatArea(p.copies, p.fatSectors);
    var dataStart := rootStart + RootSectors(p.rootEntries);
    Volume(disk, p.fatStart, p.fatSectors, rootStart, p.rootEntries, dataStart, p.spc,
           if p.total > dataStart then ClustersIn(p.total - dataStart, p.spc) else 0)
  }

  /** The boot sector of a FAT16 volume that fits the disk. */
  predicate Mountable(disk: seq<Sector>, p: Bpb) {
    && p.signature == 0xaa55 && p.sectorBytes == 512
    && 1 <= p.spc <= 128 && PowerOfTwo(p.spc) && (p.copies == 1 || p.copies == 2)
    && p.fatStart > 0 && p.rootEntries > 0 && p.fatSectors > 0 && p.total <= |disk|
    && var clusters := Described(disk, p).clusters;
      4085 <= clusters < 65525 && clusters + 2 <= 256 * p.fatSectors
  }

  lemma QuotientTimes(x: nat, m: nat)
    requires m > 0
    ensures Rows(x / m, m) <= x
  {
    RowsProduct(x / m, m);
  }

  /** What a mountable boot sector describes is sound: the regions do not overlap and fit the disk. */
  lemma MountableSound(disk: seq<Sector>, p: Bpb)
    requires Mountable(disk, p) && |disk| < 0x1_0000_0000 && p.rootEntries < 0x1_0000
    ensures Sound(Described(disk, p))
  {
    var v := Described(disk, p);
    assert v.fatStart + v.fatSectors <= v.rootStart;
    QuotientTimes(p.total - v.dataStart, p.spc);
  }

  /** What the reader keeps in mind about a mounted volume. */
  ghost predicate MountOk(v: Volume, root: seq<Entry>, clusterBytes: nat) {
    Sound(v) && IsRoot(v, root) && clusterBytes == ClusterBytes(v)
  }
}
