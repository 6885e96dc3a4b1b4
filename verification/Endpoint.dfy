/** The endpoint of programs/helper.c: one flat buffer cut into equal slots, and
    two kinds of descriptor, for vmnet and for the socket, that share the iovecs
    pointing into it. */
module Endpoints {
  import opened Packets

  /** struct iovec: `base` is an offset into the flat buffer. */
  datatype Iovec = Iovec(base: nat, len: nat)
  /** struct vmpktdesc: `iov` is the index of the iovec it points at. */
  datatype PacketDesc = PacketDesc(iov: nat, size: nat, flags: nat)
  /** struct msghdr_x. */
  datatype MsgHdr = MsgHdr(iov: nat, len: nat)
  /** struct forward_stats. */
  datatype Stats = Stats(packets: nat, bytes: nat, drops: nat, fast: nat, slow: nat)

  /** No counter went down. */
  predicate AtMost(a: Stats, b: Stats) {
    a.packets <= b.packets && a.bytes <= b.bytes && a.drops <= b.drops && a.fast <= b.fast && a.slow <= b.slow
  }

  lemma AtMostTransitive(a: Stats, b: Stats, c: Stats)
    requires AtMost(a, b) && AtMost(b, c)
    ensures AtMost(a, c)
  {
  }

  const MAX_PACKET_COUNT: nat := 128
  const OFFLOAD_PACKET_COUNT: nat := 16

  function PacketCount(maxPacketSize: nat): nat {
    if maxPacketSize >= 64 * 1024 then OFFLOAD_PACKET_COUNT else MAX_PACKET_COUNT
  }

  /** Slot i ends where slot i + 1 starts, so a lower slot never reaches into a
      higher one. */
  lemma SlotsDoNotOverlap(i: nat, j: nat, m: nat)
    requires i < j
    ensures i * m + m <= j * m
  {
    assert j * m == (i + 1) * m + (j - i - 1) * m;
  }

  class Endpoint {
    const maxPacketSize: nat
    const maxPacketCount: nat
    const buffers: array<Byte>
    const packets: array<PacketDesc>
    const msgs: array<MsgHdr>
    const iovs: array<Iovec>
    var stats: Stats

    /** What init_endpoint binds once and no later operation may disturb. */
    ghost predicate Valid()
      reads packets, msgs, iovs
    {
      && maxPacketCount == PacketCount(maxPacketSize)
      && packets.Length == msgs.Length == iovs.Length == maxPacketCount
      && (forall i :: 0 <= i < maxPacketCount ==> packets[i].iov == i)
      && (forall i :: 0 <= i < maxPacketCount ==> msgs[i].iov == i)
      && (forall i :: 0 <= i < maxPacketCount ==>
            iovs[i].base == i * maxPacketSize && iovs[i].base + maxPacketSize <= buffers.Length)
    }

    constructor (maxPacketSize: nat)
      ensures Valid() && this.maxPacketSize == maxPacketSize
      ensures packets.Length == (if maxPacketSize < 65536 then 128 else 16)
      ensures buffers.Length == packets.Length * maxPacketSize
      ensures stats == Stats(0, 0, 0, 0, 0)
      ensures fresh(buffers) && fresh(packets) && fresh(msgs) && fresh(iovs)
    {
      var n := PacketCount(maxPacketSize);
      this.maxPacketSize := maxPacketSize;
      maxPacketCount := n;
      buffers := new Byte[n * maxPacketSize](_ => 0);
      packets := new PacketDesc[n](_ => PacketDesc(0, 0, 0));
      msgs := new MsgHdr[n](_ => MsgHdr(0, 0));
      iovs := new Iovec[n](_ => Iovec(0, 0));
      stats := Stats(0, 0, 0, 0, 0);
      new;
      for i := 0 to maxPacketCount
        invariant stats == Stats(0, 0, 0, 0, 0)
        invariant forall k :: 0 <= k < i ==> packets[k].iov == k && msgs[k].iov == k
        invariant forall k :: 0 <= k < i ==>
                                iovs[k].base == k * maxPacketSize && iovs[k].base + maxPacketSize <= buffers.Length
      {
        SlotsDoNotOverlap(i, maxPacketCount, maxPacketSize);
        iovs[i] := iovs[i].(base := i * maxPacketSize);
        packets[i] := packets[i].(iov := i);
        msgs[i] := msgs[i].(iov := i);
      }
    }

    /** Slot i of the buffer starts with d. */
    ghost predicate Holds(i: nat, d: Datagram)
      requires i < iovs.Length
      reads iovs, buffers
    {
      InMemory(buffers[..], iovs[i].base, d)
    }

    /** The packet descriptors describe ds, and the iovecs agree with them. */
    ghost predicate Describes(ds: seq<Datagram>)
      requires Valid()
      reads packets, msgs, iovs, buffers
    {
      && |ds| <= maxPacketCount
      && forall i :: 0 <= i < |ds| ==>
                       packets[i].size == iovs[i].len == |ds[i]| <= maxPacketSize && Holds(i, ds[i])
    }

    /** The message headers describe ds: their length fields and their iovecs
        agree, so a kernel may read either. */
    ghost predicate Addresses(ds: seq<Datagram>)
      requires Valid()
      reads packets, msgs, iovs, buffers
    {
      && |ds| <= maxPacketCount
      && forall i :: 0 <= i < |ds| ==>
                       msgs[i].len == iovs[i].len == |ds[i]| <= maxPacketSize && Holds(i, ds[i])
    }

    /** A kernel storing one datagram into the slot of iovec i. */
    method StoreAt(i: nat, d: Datagram)
      requires Valid() && i < maxPacketCount && |d| <= maxPacketSize
      modifies buffers
      ensures Holds(i, d)
      ensures buffers[..iovs[i].base] == old(buffers[..iovs[i].base])
    {
      var base := iovs[i].base;
      forall k | 0 <= k < |d| {
        buffers[base + k] := d[k];
      }
    }

    /** A kernel storing datagrams into the slots of consecutive iovecs. */
    method Store(ds: seq<Datagram>)
      requires Valid() && |ds| <= maxPacketCount
      requires forall d :: d in ds ==> |d| <= maxPacketSize
      modifies buffers
      ensures forall i :: 0 <= i < |ds| ==> Holds(i, ds[i])
    {
      for i := 0 to |ds|
        invariant forall j :: 0 <= j < i ==> Holds(j, ds[j])
      {
        label before:
        StoreAt(i, ds[i]);
        forall j | 0 <= j < i
          ensures Holds(j, ds[j])
        {
          assert old@before(Holds(j, ds[j]));
          SlotsDoNotOverlap(j, i, maxPacketSize);
          StaysInMemory(old@before(buffers[..]), buffers[..], iovs[j].base, ds[j], iovs[i].base);
        }
      }
    }

    /** The effect of vmnet_read() on the descriptors of the packets it returns. */
    method SetLengths(ds: seq<Datagram>)
      requires Valid() && |ds| <= maxPacketCount
      modifies packets, iovs
      ensures Valid() && forall i :: 0 <= i < |ds| ==> packets[i].size == iovs[i].len == |ds[i]|
    {
      for i := 0 to |ds|
        invariant Valid()
        invariant forall k :: 0 <= k < i ==> packets[k].size == iovs[k].len == |ds[k]|
      {
        packets[i] := packets[i].(size := |ds[i]|);
        iovs[i] := iovs[i].(len := |ds[i]|);
      }
    }

    /** vmnet_read() of the packets ds. */
    method ReceivePackets(ds: seq<Datagram>)
      requires Valid() && |ds| <= maxPacketCount
      requires forall d :: d in ds ==> |d| <= maxPacketSize
      modifies packets, iovs, buffers
      ensures Valid() && Describes(ds)
    {
      Store(ds);
      label stored:
      SetLengths(ds);
      forall i | 0 <= i < |ds|
        ensures Holds(i, ds[i])
      {
        assert old@stored(Holds(i, ds[i])) && iovs[i].base == i * maxPacketSize;
      }
    }

    /** The message headers tell the lengths of ds, which the slots hold. */
    ghost predicate Received(ds: seq<Datagram>)
      requires Valid()
      reads packets, msgs, iovs, buffers
    {
      && |ds| <= maxPacketCount
      && forall i :: 0 <= i < |ds| ==> msgs[i].len == |ds[i]| <= maxPacketSize && Holds(i, ds[i])
    }

    /** recvmsg_x() of the datagrams ds: it sets msg_len and leaves the iovecs. */
    method ReceiveMessages(ds: seq<Datagram>)
      requires Valid() && |ds| <= maxPacketCount
      requires forall d :: d in ds ==> |d| <= maxPacketSize
      modifies msgs, buffers
      ensures Valid() && Received(ds)
    {
      Store(ds);
      for i := 0 to |ds|
        modifies msgs
        invariant Valid()
        invariant forall k :: 0 <= k < i ==> msgs[k].len == |ds[k]|
      {
        msgs[i] := msgs[i].(len := |ds[i]|);
      }
    }
  }

  ghost predicate InMemory(memory: seq<Byte>, base: nat, d: Datagram) {
    base + |d| <= |memory| && memory[base..base + |d|] == d
  }

  lemma StaysInMemory(was: seq<Byte>, now: seq<Byte>, base: nat, d: Datagram, end: nat)
    requires InMemory(was, base, d) && base + |d| <= end <= |was| == |now| && was[..end] == now[..end]
    ensures InMemory(now, base, d)
  {
    assert was[base..base + |d|] == was[..end][base..base + |d|];
    assert now[base..base + |d|] == now[..end][base..base + |d|];
  }
}
