// kernel/fs/fat.c: reading a FAT16 volume.
module Fat {
  import opened Words
  import opened FatNames
  import opened Math
  import opened Bits
  import opened Virtio
  import opened Volumes
  import opened Directories

  datatype FatFile = FatFile(size: nat, cluster: nat)

  /** The on-disk key of a NUL-terminated name, or refusal of what is not a plain 8.3 name. */
  method ShortName(name: seq<byte>) returns (ok: bool, key: seq<byte>)
    requires 0 !in name
    ensures ok == PlainName(name)
    ensures ok ==> key == Key(name)
  {
    key := seq(11, _ => SPACE);
    if name == [] {
      return false, key;
    }
    var i, pos, limit := 0, 0, 8;
    ghost var d := Find(name, DOT);
    ScanStart(name);
    while i < |name|
      invariant Scanned(name, d, i, pos, limit, key)
    {
      var ch := name[i];
      if ch == DOT {
        ScanDot(name, d, i, pos, limit, key);
        if pos == 0 || limit == 11 || i + 1 == |name| {
          return false, key;
        }
        pos, limit, i := 8, 11, i + 1;
        continue;
      }
      ScanChar(name, d, i, pos, limit, key);
      if pos == limit || ch <= SPACE || ch >= 127 || Forbidden(ch) {
        return false, key;
      }
      if 97 <= ch <= 122 {
        ch := ch - 32;
      }
      assert ch == Upper(name[i]);
      key := key[pos := ch];
      i, pos := i + 1, pos + 1;
    }
    ScanDone(name, d, pos, limit, key);
    ok := true;
  }

  /** The text form of a directory entry; it always fits a 13-byte buffer with its NUL. */
  method RenderName(entry: seq<byte>) returns (name: seq<byte>)
    requires |entry| == 32
    ensures name == Render(entry) && |name| <= 12
  {
    name := [];
    var i := 0;
    while i < 8 && entry[i] != SPACE
      invariant 0 <= i <= 8 && name == entry[..i]
      invariant forall j :: 0 <= j < i ==> entry[j] != SPACE
    {
      name, i := name + [entry[i]], i + 1;
    }
    FindAt(entry[..8], SPACE, i);
    assert name == Trim(entry[..8]);
    if entry[8] != SPACE {
      ghost var base := name;
      name := name + [DOT];
      i := 8;
      while i < 11 && entry[i] != SPACE
        invariant 8 <= i <= 11 && name == base + [DOT] + entry[8..i]
        invariant forall j :: 8 <= j < i ==> entry[j] != SPACE
      {
        name, i := name + [entry[i]], i + 1;
      }
      FindAt(entry[8..11], SPACE, i - 8);
      assert Trim(entry[8..11]) == entry[8..i];
    }
  }

  function FileIn(entry: Entry): FatFile { FatFile(Le32(entry, 28), Le16(entry, 26)) }

  /** The entry is that of a good file with these bytes. */
  ghost predicate HoldsFile(v: Volume, entry: Entry, bytes: seq<byte>)
    requires Sound(v)
  {
    var f := FileIn(entry);
    GoodFile(v, f.size, f.cluster) && bytes == Contents(v, f.size, f.cluster)
  }

  /** `bytes` are those of the first visited file of that name, and the file is good. */
  ghost predicate FileNamed(v: Volume, root: seq<Entry>, name: seq<byte>, bytes: seq<byte>) {
    && Sound(v) && PlainName(name) && FirstMatch(root, Key(name), 0) > 0
    && HoldsFile(v, root[FirstMatch(root, Key(name), 0) - 1], bytes)
  }

  /** A name stands for at most one content. */
  lemma OneContent(v: Volume, root: seq<Entry>, name: seq<byte>, a: seq<byte>, b: seq<byte>)
    requires FileNamed(v, root, name, a) && FileNamed(v, root, name, b)
    ensures a == b
  {
  }

  /** Compares the name field of an entry with a key, byte by byte. */
  method SameName(entry: Entry, key: seq<byte>) returns (same: bool)
    requires |key| == 11
    ensures same == Named(entry, key)
  {
    var j := 0;
    while j < 11 && entry[j] == key[j]
      invariant 0 <= j <= 11 && entry[..j] == key[..j]
    {
      j := j + 1;
    }
    same := j == 11;
    assert key == key[..11];
    assert j < 11 ==> entry[..11][j] == entry[j];
  }

  class FatReader {
    const dev: BlockDevice

    var fatStart: nat
    var rootStart: nat
    var dataStart: nat
    var clusters: nat
    var clusterBytes: nat
    var rootEntries: nat
    var sectorsPerCluster: nat
    var mounted: bool
    // The mounted volume and the entries of its root directory.
    ghost var vol: Volume
    ghost var root: seq<Entry>

    constructor (dev: BlockDevice)
      requires dev.Valid()
      ensures this.dev == dev && !mounted && Valid()
    {
      this.dev := dev;
      fatStart, rootStart, dataStart, clusters, clusterBytes := 0, 0, 0, 0, 0;
      rootEntries, sectorsPerCluster, mounted, root := 0, 0, false, [];
      vol := Volume(dev.disk, 0, 0, 0, 0, 0, 0, 0);
    }

    ghost predicate Valid()
      reads this, dev
    {
      && dev.Valid()
      && (mounted ==>
            && vol == Volume(dev.disk, fatStart, vol.fatSectors, rootStart, rootEntries, dataStart, sectorsPerCluster,
                             clusters)
            && MountOk(vol, root, clusterBytes))
    }

    method ReadSector(sector: nat) returns (ok: bool, data: Sector)
      requires Valid() && mounted && sector < |dev.disk|
      modifies dev
      ensures Valid() && Served(old(dev.faults), old(dev.sectors), dev.faults, dev.sectors)
      ensures if ok then data == dev.disk[sector] else Failed(old(dev.faults), old(dev.sectors), dev.faults)
    {
      ok, data := dev.BlockRead(sector);
    }

    static method CountClusters(sectors: nat, spc: nat) returns (count: nat)
      requires sectors < 0x1_0000_0000 && 0 < spc < 0x1_0000_0000
      ensures count == ClustersIn(sectors, spc)
    {
      var rest;
      count, rest := UnsignedDivmod(sectors, spc);
    }

    /** Takes the geometry from the boot sector fields and says whether the volume can be mounted. */
    method ReadGeometry(p: Bpb) returns (ok: bool)
      requires dev.sectors == |dev.disk| < 0x1_0000_0000
      modifies this
      ensures ok == Mountable(dev.disk, p) && mounted == old(mounted)
      ensures ok ==> vol == Described(dev.disk, p) && clusterBytes == ClusterBytes(vol)
      ensures ok ==>
        vol == Volume(dev.disk, fatStart, vol.fatSectors, rootStart, rootEntries, dataStart, sectorsPerCluster,
                      clusters)
    {
      ok := false;
      if p.signature != 0xaa55 || p.sectorBytes != 512 {
        return;
      }
      sectorsPerCluster, fatStart, rootEntries := p.spc, p.fatStart, p.rootEntries;
      if sectorsPerCluster > 0 { PowerOfTwoTest(sectorsPerCluster); }
      if sectorsPerCluster == 0 || sectorsPerCluster > 128 || And(sectorsPerCluster, sectorsPerCluster - 1) != 0
         || fatStart == 0 || rootEntries == 0 || p.fatSectors == 0 || (p.copies != 1 && p.copies != 2)
         || p.total > dev.sectors {
        return;
      }
      rootStart := fatStart + FatArea(p.copies, p.fatSectors);
      dataStart := rootStart + RootSectors(rootEntries);
      if p.total <= dataStart {
        return;
      }
      clusters := CountClusters(p.total - dataStart, sectorsPerCluster);
      if clusters < 4085 || clusters >= 65525 || clusters + 2 > p.fatSectors * 256 {
        return;
      }
      clusterBytes := sectorsPerCluster * 512;
      vol := Described(dev.disk, p);
      ok := true;
    }

    /** Mounts the volume exactly when its boot sector can be read and is a FAT16 boot sector that
        fits the disk. */
    method FatInit() returns (ok: bool)
      requires dev.Valid()
      modifies this, dev
      ensures Valid() && mounted == ok
      ensures ok ==>
        |dev.disk| > 0 && Mountable(dev.disk, Parse(dev.disk[0])) && vol == Described(dev.disk, Parse(dev.disk[0]))
      ensures ok ==> root == Root(vol)
      ensures Served(old(dev.faults), old(dev.sectors), dev.faults, dev.sectors)
      ensures !ok ==> Failed(old(dev.faults), old(dev.sectors), dev.faults) || !Mountable(dev.disk, Parse(dev.disk[0]))
    {
      mounted, ok := false, false;
      var read, b := dev.BlockRead(0);
      if !read {
        return;
      }
      ok := ReadGeometry(Parse(b));
      if ok {
        MountableSound(dev.disk, Parse(b));
        mounted, root := true, Root(vol);
      }
    }

    predicate IsCluster(cluster: nat)
      reads this
    {
      cluster >= 2 && cluster < clusters + 2 && cluster < 0xfff0
    }

    method NextCluster(cluster: nat) returns (ok: bool, next: nat)
      requires Valid() && mounted
      modifies dev
      ensures Valid() && Served(old(dev.faults), old(dev.sectors), dev.faults, dev.sectors)
      ensures ok ==> ValidCluster(vol, cluster) && next == Hop(vol, cluster)
      ensures !ok ==>
        next == cluster && (!ValidCluster(vol, cluster) || Failed(old(dev.faults), old(dev.sectors), dev.faults))
    {
      ok, next := false, cluster;
      if !IsCluster(cluster) {
        return;
      }
      Regions(vol, cluster, 0, 0);
      var read, sector := ReadSector(fatStart + cluster / 256);
      if !read {
        return;
      }
      ok, next := true, Le16(sector, cluster % 256 * 2);
    }

    /** Root slot `i`, from the sector at hand unless the slot is the first one or starts a sector. */
    method RootSlot(i: nat, first: bool, cached: Sector) returns (ok: bool, sector: Sector, raw: Entry)
      requires Valid() && mounted && i < rootEntries
      requires !first ==> i > 0 && RootSector(vol, i - 1) < |dev.disk| && cached == dev.disk[RootSector(vol, i - 1)]
      modifies dev
      ensures Valid() && Served(old(dev.faults), old(dev.sectors), dev.faults, dev.sectors)
      ensures if ok then RootSector(vol, i) < |dev.disk| && sector == dev.disk[RootSector(vol, i)] && raw == root[i]
              else Failed(old(dev.faults), old(dev.sectors), dev.faults)
    {
      ok, sector, raw := true, cached, seq(32, _ => 0);
      Regions(vol, 0, 0, i);
      if first || i % 16 == 0 {
        ok, sector := ReadSector(rootStart + i / 16);
        if !ok {
          return;
        }
      } else {
        SameRootSector(vol, i);
      }
      raw := sector[i % 16 * 32..i % 16 * 32 + 32];
      assert raw == Slot(vol, i);
    }

    /** The number after the next regular slot and its entry; 0 at the end of the directory. */
    method RootEntry(cursor: nat) returns (next: int, entry: Entry)
      requires Valid()
      modifies dev
      ensures Valid() && Served(old(dev.faults), old(dev.sectors), dev.faults, dev.sectors)
      ensures next < 0 ==>
        next == -1 && (!mounted || cursor > rootEntries || Failed(old(dev.faults), old(dev.sectors), dev.faults))
      ensures next >= 0 ==> mounted && next == NextSlot(root, cursor)
      ensures next > 0 ==> entry == root[next - 1]
    {
      next, entry := -1, seq(32, _ => 0);
      if !mounted || cursor > rootEntries {
        return;
      }
      ghost var v := vol;
      var sector: Sector := seq(512, _ => 0);
      var i := cursor;
      while i < rootEntries
        invariant Valid() && cursor <= i <= rootEntries
          && Served(old(dev.faults), old(dev.sectors), dev.faults, dev.sectors)
        invariant i > cursor ==> RootSector(v, i - 1) < |dev.disk| && sector == dev.disk[RootSector(v, i - 1)]
        invariant NextSlot(root, cursor) == NextSlot(root, i)
      {
        var read, raw;
        read, sector, raw := RootSlot(i, i == cursor, sector);
        if !read {
          return;
        }
        if raw[0] == 0 {
          return 0, entry;
        }
        if raw[0] != 0xe5 && And(raw[11], 0x18) == 0 {
          return i + 1, raw;
        }
        i := i + 1;
      }
      next := 0;
    }

    /** The name in the next regular slot. */
    method FatNext(cursor: nat) returns (next: int, name: seq<byte>)
      requires Valid()
      modifies dev
      ensures Valid() && Served(old(dev.faults), old(dev.sectors), dev.faults, dev.sectors)
      ensures next < 0 ==>
        next == -1 && (!mounted || cursor > rootEntries || Failed(old(dev.faults), old(dev.sectors), dev.faults))
      ensures next >= 0 ==> mounted && next == NextSlot(root, cursor)
      ensures next > 0 ==> name == Render(root[next - 1]) && |name| <= 12
    {
      var entry;
      name := [];
      next, entry := RootEntry(cursor);
      if next > 0 {
        name := RenderName(entry);
      }
    }

    /** fat_next after `lines`. */
    method NextLineFrom(from: nat, ghost all: seq<seq<byte>>, ghost lines: seq<seq<byte>>)
      returns (cursor: int, name: seq<byte>)
      requires Valid() && mounted && from <= rootEntries && all == lines + Lines(root, from)
      modifies dev
      ensures Valid() && Served(old(dev.faults), old(dev.sectors), dev.faults, dev.sectors)
      ensures cursor < 0 ==> cursor == -1 && Failed(old(dev.faults), old(dev.sectors), dev.faults)
      ensures cursor >= 0 ==> (cursor == 0 || from < cursor) && AtLine(root, all, lines, cursor, name)
    {
      cursor, name := FatNext(from);
      if cursor >= 0 { NextLine(root, all, lines, from, cursor, name); }
    }

    /** The loop of syscall_dir: the line printed for every file of the root directory, in order. */
    method ListRoot() returns (cursor: int, lines: seq<seq<byte>>)
      requires Valid() && mounted
      modifies dev
      ensures Valid() && Served(old(dev.faults), old(dev.sectors), dev.faults, dev.sectors)
      ensures lines <= Lines(root, 0) && (cursor == 0 ==> lines == Lines(root, 0))
      ensures cursor != 0 ==> cursor == -1 && Failed(old(dev.faults), old(dev.sectors), dev.faults)
    {
      ghost var all := Lines(root, 0);
      var name;
      lines := [];
      cursor, name := NextLineFrom(0, all, lines);
      while cursor > 0
        invariant Valid() && Served(old(dev.faults), old(dev.sectors), dev.faults, dev.sectors) && -1 <= cursor
        invariant if cursor < 0 then Failed(old(dev.faults), old(dev.sectors), dev.faults) && lines <= all
                  else AtLine(root, all, lines, cursor, name)
        decreases if cursor > 0 then rootEntries - cursor + 1 else 0
      {
        lines := lines + [name];
        cursor, name := NextLineFrom(cursor, all, lines);
      }
    }

    /** Follows `count` links from `first`. */
    method FollowChain(first: nat, count: nat) returns (ok: bool, cluster: nat)
      requires Valid() && mounted
      modifies dev
      ensures Valid() && Served(old(dev.faults), old(dev.sectors), dev.faults, dev.sectors)
      ensures ok ==> ChainOk(vol, first, count) && cluster == ClusterAt(vol, first, count)
      ensures !ok ==> Failed(old(dev.faults), old(dev.sectors), dev.faults) || !ChainOk(vol, first, count)
    {
      ok, cluster := true, first;
      var j := 0;
      while j < count
        invariant Valid() && j <= count && Served(old(dev.faults), old(dev.sectors), dev.faults, dev.sectors)
        invariant ok && cluster == ClusterAt(vol, first, j) && ChainOk(vol, first, j)
      {
        ok, cluster := NextCluster(cluster);
        if !ok {
          return;
        }
        ChainGrows(vol, first, j);
        j := j + 1;
      }
    }

    /** Accepts the file of a directory entry exactly when its size and its chain agree. */
    method OpenEntry(entry: Entry) returns (ok: bool, file: FatFile)
      requires Valid() && mounted
      modifies dev
      ensures Valid() && Served(old(dev.faults), old(dev.sectors), dev.faults, dev.sectors) && file == FileIn(entry)
      ensures ok ==> GoodFile(vol, file.size, file.cluster)
      ensures !ok ==> Failed(old(dev.faults), old(dev.sectors), dev.faults) || !GoodFile(vol, file.size, file.cluster)
    {
      file := FileIn(entry);
      if file.size == 0 {
        ok := file.cluster == 0;
        return;
      }
      var count, rest := UnsignedDivmod(file.size - 1, clusterBytes);
      CountIsQuotient(vol, file.size);
      count := count + 1;
      if count > clusters {
        ok := false;
        return;
      }
      var cluster;
      ok, cluster := FollowChain(file.cluster, count);
      ok := ok && cluster >= 0xfff8;
    }

    /** The number after the first visited slot with this key and its entry; 0 when there is none. */
    method FindEntry(key: seq<byte>) returns (cursor: int, entry: Entry)
      requires Valid() && mounted && |key| == 11
      modifies dev
      ensures Valid() && Served(old(dev.faults), old(dev.sectors), dev.faults, dev.sectors)
      ensures cursor < 0 ==> Failed(old(dev.faults), old(dev.sectors), dev.faults)
      ensures cursor >= 0 ==> cursor == FirstMatch(root, key, 0)
      ensures cursor > 0 ==> entry == root[cursor - 1]
    {
      ghost var from := 0;
      cursor, entry := RootEntry(0);
      while cursor > 0
        invariant Valid() && Served(old(dev.faults), old(dev.sectors), dev.faults, dev.sectors)
        invariant FirstMatch(root, key, 0) == FirstMatch(root, key, from)
        invariant if cursor < 0 then Failed(old(dev.faults), old(dev.sectors), dev.faults)
                  else cursor == NextSlot(root, from)
        invariant cursor > 0 ==> entry == root[cursor - 1]
        decreases if cursor > 0 then rootEntries - cursor + 1 else 0
      {
        var same := SameName(entry, key);
        if same {
          return;
        }
        from := cursor;
        cursor, entry := RootEntry(cursor);
      }
    }

    /** Opens the first visited file of that name; it is refused exactly when its size and its chain disagree. */
    method FatOpen(name: seq<byte>) returns (ok: bool, file: FatFile)
      requires Valid() && 0 !in name
      modifies dev
      ensures Valid() && Served(old(dev.faults), old(dev.sectors), dev.faults, dev.sectors)
      ensures ok ==> mounted && PlainName(name)
      ensures ok ==> var m := FirstMatch(root, Key(name), 0); m > 0 && file == FileIn(root[m - 1])
      ensures ok ==> GoodFile(vol, file.size, file.cluster)
      ensures !ok && mounted && PlainName(name) && !Failed(old(dev.faults), old(dev.sectors), dev.faults) ==>
        var m := FirstMatch(root, Key(name), 0);
        m > 0 ==> file == FileIn(root[m - 1]) && !GoodFile(vol, file.size, file.cluster)
    {
      ok, file := false, FatFile(0, 0);
      if !mounted {
        return;
      }
      var good, key := ShortName(name);
      if !good {
        return;
      }
      var cursor, entry := FindEntry(key);
      if cursor > 0 {
        ok, file := OpenEntry(entry);
      }
    }

    /** Reads at most one sector's worth of bytes from byte `within` of a cluster. */
    method ReadPiece(cluster: nat, within: nat, length: nat) returns (ok: bool, piece: seq<byte>)
      requires Valid() && mounted && within < clusterBytes && 0 < length
      modifies dev
      ensures Valid() && Served(old(dev.faults), old(dev.sectors), dev.faults, dev.sectors)
      ensures ok ==> ValidCluster(vol, cluster) && DataSector(vol, cluster, within / 512) < |dev.disk|
      ensures ok ==> 0 < |piece| <= length && |piece| <= 512 - within % 512 && within + |piece| <= clusterBytes
      ensures ok ==> |piece| < length ==> |piece| == 512 - within % 512
      ensures ok ==> piece == dev.disk[DataSector(vol, cluster, within / 512)][within % 512..within % 512 + |piece|]
      ensures !ok ==> !ValidCluster(vol, cluster) || Failed(old(dev.faults), old(dev.sectors), dev.faults)
    {
      ok, piece := false, [];
      if !IsCluster(cluster) {
        return;
      }
      SectorOf(within, sectorsPerCluster);
      Regions(vol, cluster, within / 512, 0);
      RowsProduct(cluster - 2, sectorsPerCluster);
      var read, sector := ReadSector(dataStart + (cluster - 2) * sectorsPerCluster + within / 512);
      if !read {
        return;
      }
      var n := 512 - within % 512;
      if n > length {
        n := length;
      }
      ok, piece := true, sector[within % 512..within % 512 + n];
    }

    /** One turn of the read loop: a piece of a sector, then the hop at the end of a cluster. */
    method ReadOn(ghost first: nat, ghost offset: nat, ghost out: seq<byte>, ghost m: nat, ghost k: nat,
                  cluster: nat, within: nat, left: nat)
      returns (ok: bool, piece: seq<byte>, cluster': nat, within': nat, ghost k': nat)
      requires Valid() && mounted && within < clusterBytes && left > 0
      requires Reading(vol, first, offset, out, m, k, within, cluster)
      modifies dev
      ensures Valid() && Served(old(dev.faults), old(dev.sectors), dev.faults, dev.sectors)
      ensures !ok ==>
        Failed(old(dev.faults), old(dev.sectors), dev.faults)
        || !ChainOk(vol, first, ClusterCount(vol, offset + |out| + left))
      ensures ok ==> 0 < |piece| <= left && Reading(vol, first, offset, out + piece, k + 1, k', within', cluster')
      ensures ok ==> if |piece| < left then within' < clusterBytes else k' == k && 0 < within' <= clusterBytes
    {
      cluster', within', k' := cluster, within, k;
      ok, piece := ReadPiece(cluster, within, left);
      if !ok {
        if !ValidCluster(vol, cluster) { ReadRefused(vol, first, offset, out, m, k, within, cluster, left); }
        return;
      }
      PieceRead(vol, first, offset, out, m, k, within, cluster, piece);
      within' := within + |piece|;
      if within' == clusterBytes && |piece| < left {
        ClusterLeft(vol, first, offset, out + piece, k, cluster);
        ok, cluster' := NextCluster(cluster);
        within', k' := 0, k + 1;
      }
    }

    /** Reads on from byte `within0` of cluster number `k0` of a file, hopping along its chain. */
    method ReadRun(ghost first: nat, start: nat, ghost k0: nat, within0: nat, ghost offset: nat, length: nat)
      returns (ok: bool, out: seq<byte>, ghost m: nat)
      requires Valid() && mounted && within0 < clusterBytes && length > 0
      requires Reading(vol, first, offset, [], k0, k0, within0, start)
      modifies dev
      ensures Valid() && Served(old(dev.faults), old(dev.sectors), dev.faults, dev.sectors)
      ensures |out| <= length && HeldAt(vol, first, m, offset, out)
      ensures ok ==> |out| == length && m == ClusterCount(vol, offset + length)
      ensures !ok ==>
        Failed(old(dev.faults), old(dev.sectors), dev.faults)
        || !ChainOk(vol, first, ClusterCount(vol, offset + length))
    {
      ok, out, m := true, [], k0;
      ghost var v, k := vol, k0;
      var cluster, within: nat, left: nat := start, within0, length;
      while left > 0
        invariant Valid() && Served(old(dev.faults), old(dev.sectors), dev.faults, dev.sectors) && ok
        invariant |out| + left == length && Reading(v, first, offset, out, m, k, within, cluster)
        invariant if left > 0 then within < clusterBytes else 0 < within <= clusterBytes && m == k + 1
      {
        var piece;
        ghost var next;
        ok, piece, cluster, within, next := ReadOn(first, offset, out, m, k, cluster, within, left);
        if !ok {
          return;
        }
        m, k := k + 1, next;
        out, left := out + piece, left - |piece|;
      }
      CountAt(v, k, within);
    }

    method SplitOffset(offset: nat) returns (skip: nat, within: nat)
      requires Valid() && mounted && offset < 0x1_0000_0000
      ensures offset == Rows(skip, clusterBytes) + within && within < clusterBytes
    {
      skip, within := UnsignedDivmod(offset, clusterBytes);
      QuotientRows(offset, clusterBytes);
    }

    /** Fills the buffer with `length` bytes of the file from `offset` on. A good file's bytes can
        always be read until the device fails. */
    method FatRead(file: FatFile, offset: nat, length: nat) returns (ok: bool, buffer: seq<byte>)
      requires Valid() && file.size < 0x1_0000_0000 && file.cluster < 0x1_0000
      requires offset < 0x1_0000_0000 && length < 0x1_0000_0000
      modifies dev
      ensures Valid() && Served(old(dev.faults), old(dev.sectors), dev.faults, dev.sectors)
      ensures |buffer| <= length
      ensures ok ==> mounted && offset + length <= file.size && |buffer| == length
      ensures ok && length > 0 ==> var n := ClusterCount(vol, offset + length);
        && ChainOk(vol, file.cluster, n) && offset + length <= |FileData(vol, file.cluster, n)|
        && buffer == FileData(vol, file.cluster, n)[offset..offset + length]
      ensures !ok && mounted && offset + length <= file.size ==>
        Failed(old(dev.faults), old(dev.sectors), dev.faults) || Unreadable(vol, file.cluster, offset, length)
      ensures !ok && mounted && offset + length <= file.size && GoodFile(vol, file.size, file.cluster) ==>
        Failed(old(dev.faults), old(dev.sectors), dev.faults)
    {
      ok, buffer := false, [];
      if !mounted || offset > file.size || length > file.size - offset {
        return;
      }
      if length == 0 {
        return true, [];
      }
      ghost var v := vol;
      if GoodFile(v, file.size, file.cluster) {
        GoodRange(v, file.size, file.cluster, offset, length);
      }
      var skip, within := SplitOffset(offset);
      SkipTo(v, file.cluster, skip, within, offset, length);
      if skip >= clusters {
        return;
      }
      var found, cluster := FollowChain(file.cluster, skip);
      if !found {
        return;
      }
      ghost var m;
      ok, buffer, m := ReadRun(file.cluster, cluster, skip, within, offset, length);
      if ok { HeldIsSlice(v, file.cluster, m, offset, buffer); }
    }

    /** A file of a mounted volume whose size and chain agree, with its bytes. */
    ghost predicate Opened(file: FatFile, bytes: seq<byte>)
      reads this, dev
    {
      && Valid() && mounted && file.size < 0x1_0000_0000 && file.cluster < 0x1_0000
      && GoodFile(vol, file.size, file.cluster) && HasContents(vol, file.size, file.cluster, bytes)
    }

    /** fat_read on an open file: in range, only a device fault can make it fail. */
    method ReadFile(file: FatFile, offset: nat, length: nat, ghost bytes: seq<byte>) returns (ok: bool, data: seq<byte>)
      requires Opened(file, bytes) && offset < 0x1_0000_0000 && length < 0x1_0000_0000
      modifies dev
      ensures Opened(file, bytes) && Served(old(dev.faults), old(dev.sectors), dev.faults, dev.sectors)
        && |data| <= length
      ensures |bytes| == file.size
      ensures if ok then offset + length <= |bytes| && data == bytes[offset..offset + length]
              else offset + length > |bytes| || Failed(old(dev.faults), old(dev.sectors), dev.faults)
    {
      ok, data := FatRead(file, offset, length);
      ContentsAre(vol, file.size, file.cluster, bytes);
      if ok && length > 0 {
        RangeOfContents(vol, file.size, file.cluster, offset, length);
      }
    }

    /** The mounted volume has a good file of that name with these bytes. */
    ghost predicate Names(name: seq<byte>, bytes: seq<byte>)
      reads this
    {
      mounted && FileNamed(vol, root, name, bytes)
    }

    /** fat_open, with the bytes of the file. */
    method OpenProgram(name: seq<byte>) returns (ok: bool, file: FatFile, ghost bytes: seq<byte>)
      requires Valid() && 0 !in name
      modifies dev
      ensures Valid() && Served(old(dev.faults), old(dev.sectors), dev.faults, dev.sectors)
      ensures ok ==> Opened(file, bytes) && Names(name, bytes)
      ensures !ok ==> Failed(old(dev.faults), old(dev.sectors), dev.faults) || forall b :: !Names(name, b)
    {
      bytes := [];
      ok, file := FatOpen(name);
      if ok {
        bytes := Contents(vol, file.size, file.cluster);
        ContentsThemselves(vol, file.size, file.cluster);
      }
    }
  }
}
