/** Datagrams and the laws of "an in-order selection of a stream" that both
    directions of the packet forwarder are stated with. */
module Packets {
  newtype Byte = x: int | 0 <= x < 256
  type Datagram = seq<Byte>

  lemma Associative(a: seq<Datagram>, b: seq<Datagram>, c: seq<Datagram>)
    ensures a + (b + c) == a + b + c
  {
  }

  /** Sum of the sizes of the datagrams. */
  function TotalSize(ds: seq<Datagram>): nat {
    if ds == [] then 0 else TotalSize(ds[..|ds| - 1]) + |ds[|ds| - 1]|
  }

  lemma TotalSizeSnoc(ds: seq<Datagram>, d: Datagram)
    ensures TotalSize(ds + [d]) == TotalSize(ds) + |d|
  {
    assert (ds + [d])[..|ds|] == ds;
  }

  lemma {:induction false} TotalSizeConcat(a: seq<Datagram>, b: seq<Datagram>)
    ensures TotalSize(a + b) == TotalSize(a) + TotalSize(b)
  {
    if b == [] {
      assert a + b == a;
    } else {
      var init := b[..|b| - 1];
      assert (a + b)[..|a + b| - 1] == a + init;
      TotalSizeConcat(a, init);
    }
  }

  /** The datagrams whose flag is set, in order: none altered, duplicated or
      moved. */
  ghost function Keep(ds: seq<Datagram>, flags: seq<bool>): (out: seq<Datagram>)
    requires |ds| == |flags|
    ensures |out| <= |ds|
  {
    if ds == [] then []
    else
      var n := |ds| - 1;
      Keep(ds[..n], flags[..n]) + (if flags[n] then [ds[n]] else [])
  }

  lemma KeepSnoc(ds: seq<Datagram>, flags: seq<bool>, d: Datagram, b: bool)
    requires |ds| == |flags|
    ensures Keep(ds + [d], flags + [b]) == Keep(ds, flags) + (if b then [d] else [])
  {
    assert (ds + [d])[..|ds|] == ds && (flags + [b])[..|ds|] == flags;
  }

  lemma {:induction false} KeepConcat(ds1: seq<Datagram>, f1: seq<bool>, ds2: seq<Datagram>, f2: seq<bool>)
    requires |ds1| == |f1| && |ds2| == |f2|
    ensures Keep(ds1 + ds2, f1 + f2) == Keep(ds1, f1) + Keep(ds2, f2)
  {
    if ds2 == [] {
      assert ds1 + ds2 == ds1 && f1 + f2 == f1;
    } else {
      var n := |ds2| - 1;
      KeepConcat(ds1, f1, ds2[..n], f2[..n]);
      KeepSnoc(ds1 + ds2[..n], f1 + f2[..n], ds2[n], f2[n]);
      assert ds1 + ds2 == ds1 + ds2[..n] + [ds2[n]] && f1 + f2 == f1 + f2[..n] + [f2[n]];
    }
  }

  ghost function AllKept(n: nat): (flags: seq<bool>)
    ensures |flags| == n
  {
    seq(n, _ => true)
  }

  lemma {:induction false} KeepAll(ds: seq<Datagram>)
    ensures Keep(ds, AllKept(|ds|)) == ds
  {
    if ds != [] {
      var n := |ds| - 1;
      KeepAll(ds[..n]);
      assert AllKept(|ds|)[..n] == AllKept(n);
    }
  }

  /** A selection as long as the stream is the stream. */
  lemma {:induction false} KeepIsAll(ds: seq<Datagram>, flags: seq<bool>)
    requires |ds| == |flags|
    ensures |Keep(ds, flags)| == |ds| ==> Keep(ds, flags) == ds
  {
    if ds != [] {
      KeepIsAll(ds[..|ds| - 1], flags[..|ds| - 1]);
    }
  }

  /** `out` is `ds` with some datagrams left out. */
  ghost predicate InOrderSelection(out: seq<Datagram>, ds: seq<Datagram>) {
    exists flags: seq<bool> :: |flags| == |ds| && out == Keep(ds, flags)
  }

  /** Selections of consecutive stretches compose, which is what lifts a
      property of one batch to a whole run. */
  lemma SelectionsCompose(out1: seq<Datagram>, ds1: seq<Datagram>, out2: seq<Datagram>, ds2: seq<Datagram>)
    requires InOrderSelection(out1, ds1) && InOrderSelection(out2, ds2)
    ensures InOrderSelection(out1 + out2, ds1 + ds2)
  {
    var f1: seq<bool> :| |f1| == |ds1| && out1 == Keep(ds1, f1);
    var f2: seq<bool> :| |f2| == |ds2| && out2 == Keep(ds2, f2);
    KeepConcat(ds1, f1, ds2, f2);
    assert |f1 + f2| == |ds1 + ds2|;
  }
}
