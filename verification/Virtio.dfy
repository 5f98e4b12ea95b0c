// arch/versatilepb/virtio.c: one outstanding request over a legacy split virtqueue.
module Virtio {
  import opened Words
  import opened Bits

  type Sector = s: seq<byte> | |s| == 512 witness seq(512, _ => 0)

  /** Which buffer a descriptor points to; its length, whether the device writes it, and its successor. */
  datatype Buffer = NoBuffer | Header | Data | StatusByte
  datatype Descriptor = Descriptor(buffer: Buffer, len: nat, deviceWrites: bool, next: nat, last: bool)

  /** What block_init reads from the device. */
  datatype Config = Config(present: bool, queueSize: u16, capacityHigh: nat, capacityLow: nat)

  /** Byte offset of the used ring behind a descriptor table and an available ring of `size` entries. */
  function UsedOffset(size: nat): nat { (18 * size + 6 + 4095) / 4096 * 4096 }

  predicate GoodQueueSize(size: nat) { 3 <= size <= 256 && PowerOfTwo(size) }

  /** The three parts of the queue do not overlap and lie inside its 12288 bytes. */
  lemma QueueLayout(size: nat, slot: nat)
    requires GoodQueueSize(size) && slot < size
    ensures 3 * 16 <= 16 * size
    ensures 16 * size + 2 * (2 + slot) + 2 <= UsedOffset(size)
    ensures UsedOffset(size) + 6 + 8 * size <= 12288 && UsedOffset(size) % 4096 == 0
  {
  }

  /** A device that block_init accepts for this disk. */
  predicate Usable(config: Config, disk: seq<Sector>) {
    config.present && GoodQueueSize(config.queueSize) && config.capacityHigh == 0 && |disk| != 0
  }

  /** The device failed a request between two moments, or had stopped answering before. */
  ghost predicate Failed(faults: nat, sectors: nat, faults': nat) {
    faults' > faults || sectors == 0
  }

  /** Without a failed request the device is as available as before. */
  ghost predicate Served(faults: nat, sectors: nat, faults': nat, sectors': nat) {
    faults <= faults' && (faults' == faults ==> sectors' == sectors)
  }

  class BlockDevice {
    const disk: seq<Sector>

    // Driver state.
    var queueSize: u16
    var completed: u16
    var sectors: nat
    // The queue and the request, shared with the device.
    var desc: seq<Descriptor>
    var availIdx: u16
    var availRing: seq<u16>
    var usedIdx: u16
    var reqType: nat
    var reqSector: nat
    var reqData: Sector
    var reqStatus: int
    // Device state: how far it has read the available ring.
    var seen: u16
    // Requests the device failed or did not answer in time.
    ghost var faults: nat

    constructor (disk: seq<Sector>)
      requires |disk| < 0x1_0000_0000
      ensures this.disk == disk && sectors == 0 && faults == 0
    {
      this.disk := disk;
      queueSize, completed, sectors := 4, 0, 0;
      desc, availIdx, availRing, usedIdx := [], 0, [0, 0, 0, 0], 0;
      reqType, reqSector, reqData, reqStatus, seen := 0, 0, seq(512, _ => 0), 0, 0;
      faults := 0;
    }

    /** Between calls a ready driver and the device agree on every index. */
    ghost predicate Ready()
      reads this
    {
      && GoodQueueSize(queueSize) && |availRing| == queueSize
      && availIdx == usedIdx == seen == completed
    }

    /** Either the driver is ready or it has no sectors and will not touch the queue. */
    ghost predicate Valid()
      reads this
    {
      && |disk| < 0x1_0000_0000
      && (sectors != 0 ==> sectors == |disk| && Ready())
    }

    /** Resets the device, lays out the queue and reads the capacity. */
    method BlockInit(config: Config) returns (ok: bool)
      requires |disk| < 0x1_0000_0000
      requires config.present && config.capacityHigh == 0 ==> config.capacityLow == |disk|
      modifies this
      ensures Valid() && faults == old(faults)
      ensures ok == Usable(config, disk)
      ensures ok ==> sectors == |disk|
      ensures !ok ==> sectors == 0
    {
      sectors := 0;
      ok := false;
      if !config.present {
        return;
      }
      queueSize := config.queueSize;
      if queueSize > 0 { PowerOfTwoTest(queueSize); }
      if queueSize < 3 || queueSize > 256 || And(queueSize, queueSize - 1) != 0 {
        return;
      }
      desc := [Descriptor(NoBuffer, 0, false, 0, true), Descriptor(NoBuffer, 0, false, 0, true),
               Descriptor(NoBuffer, 0, false, 0, true)];
      availRing := seq(queueSize, _ => 0);
      availIdx, usedIdx, seen, completed := 0, 0, 0, 0;
      if config.capacityHigh != 0 {
        return;
      }
      sectors := config.capacityLow;
      ok := sectors != 0;
    }

    /** The device at work: idle, in the middle of a transfer, or answering the request that the
        head descriptor of the next available entry leads to. */
    method DeviceStep()
      requires GoodQueueSize(queueSize) && |availRing| == queueSize && |desc| == 3
      requires seen != availIdx ==> Posted(availRing[seen % queueSize]) && reqSector < |disk|
      modifies this`usedIdx, this`seen, this`reqData, this`reqStatus
      ensures old(seen) == availIdx ==> unchanged(this)
      ensures usedIdx == old(usedIdx) ==> seen == old(seen)
      ensures usedIdx != old(usedIdx) ==>
        && old(seen) != availIdx && seen == (old(seen) + 1) % 0x1_0000 && usedIdx == (old(usedIdx) + 1) % 0x1_0000
        && (reqStatus == 0 ==> reqData == disk[reqSector])
    {
      if seen == availIdx {
        return;
      }
      if * {
        reqData := *;
      } else if * {
        var head := availRing[seen % queueSize];
        if desc[head].buffer == Header && reqType == 0 && desc[desc[head].next].buffer == Data {
          reqStatus := *;
          if reqStatus == 0 {
            reqData := disk[reqSector];
          }
          usedIdx, seen := (usedIdx + 1) % 0x1_0000, (seen + 1) % 0x1_0000;
        }
      }
    }

    /** Descriptor `head` starts the chain header, data, status. */
    ghost predicate Posted(head: nat)
      reads this
    {
      && |desc| == 3 && head == 0
      && desc[0] == Descriptor(Header, 16, false, 1, false)
      && desc[1] == Descriptor(Data, 512, true, 2, false)
      && desc[2] == Descriptor(StatusByte, 1, true, 0, true)
    }

    /** Fills in the request and its three descriptors and publishes it as the next available entry. */
    method PostRequest(sector: nat)
      requires Ready()
      modifies this`reqType, this`reqSector, this`reqStatus, this`desc, this`availRing, this`availIdx
      ensures Pending(sector)
    {
      PowerOfTwoTest(queueSize);
      AndMask(completed, queueSize);
      reqType, reqSector, reqStatus := 0, sector, 0xff;
      desc := [Descriptor(Header, 16, false, 1, false), Descriptor(Data, 512, true, 2, false),
               Descriptor(StatusByte, 1, true, 0, true)];
      availRing := availRing[And(completed, queueSize - 1) := 0];
      availIdx := (completed + 1) % 0x1_0000;
    }

    /** One request is outstanding and the device has not answered it. */
    ghost predicate Pending(sector: nat)
      reads this
    {
      && GoodQueueSize(queueSize) && |availRing| == queueSize && Posted(availRing[completed % queueSize])
      && reqType == 0 && reqSector == sector && availIdx == (completed + 1) % 0x1_0000
      && usedIdx == seen == completed
    }

    /** Reads one sector; fails on a sector past the end, a device error or a timeout. */
    method BlockRead(sector: nat) returns (ok: bool, buffer: Sector)
      requires Valid()
      modifies this
      ensures Valid()
      ensures sector >= old(sectors) ==> !ok && unchanged(this)
      ensures ok ==> sector < |disk| && buffer == disk[sector]
      ensures ok ==> faults == old(faults) && sectors == old(sectors)
      ensures !ok && sector < old(sectors) ==> faults == old(faults) + 1
      ensures sectors == old(sectors) || sectors == 0
      ensures sectors != 0 && sector < old(sectors) ==> completed == (old(completed) + 1) % 0x1_0000
    {
      ok, buffer := false, seq(512, _ => 0);
      if sector >= sectors {
        return;
      }
      PostRequest(sector);
      var timeout := 0;
      while timeout < 10000000
        invariant timeout <= 10000000
        invariant Pending(sector)
        invariant sectors == old(sectors) && completed == old(completed) && faults == old(faults)
          && queueSize == old(queueSize)
      {
        DeviceStep();
        if usedIdx != completed {
          break;
        }
        timeout := timeout + 1;
      }
      DeviceStep();
      if timeout == 10000000 {
        sectors := 0;
        faults := faults + 1;
        return;
      }
      completed := (completed + 1) % 0x1_0000;
      if reqStatus != 0 {
        faults := faults + 1;
        return;
      }
      ok, buffer := true, reqData;
    }
  }
}
