/** The host to vm direction of programs/helper.c: read_from_host, write_to_vm and
    packets_available, over nondeterministic vmnet and socket calls. */
module HostToVm {
  import opened Packets
  import opened Endpoints

  const VM_RETRY_MAX: nat := 10

  /** The return value and errno of sendmsg_x() or write(). */
  datatype Sys = Sent(n: nat) | NoBuffers | OtherError

  /** What happened on the socket so far: calls made, failures seen, sleeps. */
  datatype Calls = Calls(bulk: nat, single: nat, noBuffers: nat, others: nat, sleeps: nat, bulkFailed: bool)

  /** The vm's datagram socket, seen from the sender. */
  class VmSocket {
    ghost var sent: seq<Datagram>
    ghost var calls: Calls

    constructor ()
      ensures sent == [] && calls == Calls(0, 0, 0, 0, 0, false)
    {
      sent, calls := [], Calls(0, 0, 0, 0, 0, false);
    }

    /** sendmsg_x() of messages [from..from + cnt), where the headers describe
        the batch: on success at least one and at most cnt datagrams leave, in
        order; an error sends nothing. */
    method SendMsgX(e: Endpoint, ghost batch: seq<Datagram>, from: nat, cnt: nat) returns (r: Sys)
      requires e.Valid() && e.Addresses(batch) && 1 <= cnt && from + cnt <= |batch|
      modifies this
      ensures r.Sent? ==> 1 <= r.n <= cnt && sent == old(sent) + batch[from..from + r.n]
      ensures !r.Sent? ==> sent == old(sent)
      ensures calls == Tally(old(calls), true, r)
    {
      r := Outcome(cnt);
      if r.Sent? {
        sent := sent + batch[from..from + r.n];
      }
      calls := Tally(calls, true, r);
    }

    /** write() of the datagram d that packet i describes: a datagram leaves whole
        or not at all. */
    method Write(e: Endpoint, i: nat, ghost d: Datagram) returns (r: Sys)
      requires e.Valid() && i < e.maxPacketCount && e.Holds(e.packets[i].iov, d) && e.packets[i].size == |d|
      modifies this
      ensures r.Sent? ==> r.n == |d| && sent == old(sent) + [d]
      ensures !r.Sent? ==> sent == old(sent)
      ensures calls == Tally(old(calls), false, r)
    {
      r := Outcome(1);
      if r.Sent? {
        r := Sent(e.packets[i].size);
        sent := sent + [d];
      }
      calls := Tally(calls, false, r);
    }

    /** wait_for_buffer_space(). */
    method Sleep()
      modifies this`calls
      ensures calls == old(calls).(sleeps := old(calls).sleeps + 1)
    {
      calls := calls.(sleeps := calls.sleeps + 1);
    }
  }

  ghost function Tally(c: Calls, bulk: bool, r: Sys): Calls {
    Calls(
      if bulk then c.bulk + 1 else c.bulk,
      if bulk then c.single else c.single + 1,
      if r.NoBuffers? then c.noBuffers + 1 else c.noBuffers,
      if r.OtherError? then c.others + 1 else c.others,
      c.sleeps,
      if bulk then !r.Sent? else c.bulkFailed)
  }

  /** Any outcome a call may have. */
  method Outcome(cnt: nat) returns (r: Sys)
    requires 1 <= cnt
    ensures r.Sent? ==> 1 <= r.n <= cnt
  {
    var k: nat :| 1 <= k <= cnt;
    r :| r in {Sent(k), NoBuffers, OtherError};
  }

  /** The messages become the packets just read. */
  method PrepareMessages(host: Endpoint, count: nat, ghost batch: seq<Datagram>)
    requires host.Valid() && host.Describes(batch) && count == |batch|
    modifies host.msgs
    ensures host.Valid() && host.Describes(batch) && host.Addresses(batch)
  {
    for i := 0 to count
      invariant host.Valid() && host.Describes(batch)
      invariant forall k :: 0 <= k < i ==> host.msgs[k].len == host.packets[k].size
    {
      host.msgs[i] := host.msgs[i].(len := host.packets[i].size);
    }
  }

  /** host_packets_size(). */
  method PacketsSize(host: Endpoint, count: nat, ghost batch: seq<Datagram>) returns (size: nat)
    requires host.Valid() && host.Describes(batch) && count <= |batch|
    ensures size == if count == 0 then 0 else TotalSize(batch[..count])
  {
    size := 0;
    for i := 0 to count
      invariant size == TotalSize(batch[..i])
    {
      assert batch[..i + 1] == batch[..i] + [batch[i]];
      TotalSizeSnoc(batch[..i], batch[i]);
      size := size + host.packets[i].size;
    }
  }

  /** The calls after `sends` calls on one path, of which `retries` were out of
      buffers and slept, and the last ended with r. */
  ghost function AfterSends(c: Calls, bulk: bool, sends: nat, retries: nat, r: Sys): Calls
    requires 1 <= sends
  {
    var d := c.(noBuffers := c.noBuffers + retries, sleeps := c.sleeps + retries,
                bulk := if bulk then c.bulk + sends - 1 else c.bulk,
                single := if bulk then c.single else c.single + sends - 1);
    Tally(d, bulk, r)
  }

  /** The fast path of write_to_vm(): packets [0..packets) have left, `last` is
      how the last call ended, and `retries` of the budget are used. */
  method SendBulk(host: Endpoint, sock: VmSocket, count: nat, ghost batch: seq<Datagram>)
    returns (packets: nat, fast: nat, retries: nat, last: Sys)
    requires host.Valid() && host.Addresses(batch) && 1 <= count == |batch|
    modifies sock
    ensures packets <= count && retries <= VM_RETRY_MAX && 1 <= fast <= packets + retries + 1
    ensures last.Sent? <==> packets == count
    ensures last.Sent? ==> fast <= packets + retries
    ensures last.NoBuffers? ==> retries == VM_RETRY_MAX
    ensures sock.sent == old(sock.sent) + batch[..packets]
    ensures sock.calls == AfterSends(old(sock.calls), true, fast, retries, last)
  {
    hide TotalSize, Keep;
    packets, fast, retries := 0, 0, 0;
    while true
      modifies sock
      invariant packets < count && retries <= VM_RETRY_MAX && fast <= packets + retries
      invariant sock.sent == old(sock.sent) + batch[..packets]
      invariant var c := old(sock.calls);
                sock.calls.(bulkFailed := c.bulkFailed)
                == c.(bulk := c.bulk + fast, noBuffers := c.noBuffers + retries, sleeps := c.sleeps + retries)
      decreases count - packets + VM_RETRY_MAX - retries
    {
      fast := fast + 1;
      last := sock.SendMsgX(host, batch, packets, count - packets);
      if !last.Sent? {
        if last.NoBuffers? && retries < VM_RETRY_MAX {
          retries := retries + 1;
          sock.Sleep();
          continue;
        }
        return;
      }
      PrefixGrows(old(sock.sent), batch, packets, packets + last.n);
      packets := packets + last.n;
      if packets == count {
        return;
      }
    }
  }

  lemma PrefixGrows(sent: seq<Datagram>, batch: seq<Datagram>, i: nat, j: nat)
    requires i <= j <= |batch|
    ensures sent + batch[..i] + batch[i..j] == sent + batch[..j]
  {
    assert batch[..i] + batch[i..j] == batch[..j];
  }

  /** The slow path for one packet, spending what is left of the budget. */
  method SendOne(host: Endpoint, sock: VmSocket, i: nat, used: nat, ghost batch: seq<Datagram>)
    returns (r: Sys, size: nat, slow: nat, retries: nat)
    requires host.Valid() && host.Describes(batch) && i < |batch|
    requires used <= VM_RETRY_MAX
    modifies sock
    ensures used <= retries <= VM_RETRY_MAX && slow == 1 + retries - used
    ensures r.NoBuffers? ==> retries == VM_RETRY_MAX
    ensures size == |batch[i]|
    ensures sock.sent == old(sock.sent) + (if r.Sent? then [batch[i]] else [])
    ensures sock.calls == AfterSends(old(sock.calls), false, slow, retries - used, r)
  {
    slow, retries, size := 0, used, host.packets[i].size;
    while true
      modifies sock
      invariant used <= retries <= VM_RETRY_MAX && slow == retries - used
      invariant sock.sent == old(sock.sent)
      invariant var c := old(sock.calls);
                sock.calls == c.(single := c.single + slow, noBuffers := c.noBuffers + slow, sleeps := c.sleeps + slow)
      decreases VM_RETRY_MAX - retries
    {
      slow := slow + 1;
      r := sock.Write(host, i, batch[i]);
      if r.NoBuffers? && retries < VM_RETRY_MAX {
        retries := retries + 1;
        sock.Sleep();
        continue;
      }
      return;
    }
  }

  /** The effect on the calls of finishing n packets one at a time when `used` of
      the budget were gone before and `retries` are gone after. */
  ghost predicate OneAtATime(was: Calls, now: Calls, n: nat, drops: nat, slow: nat, used: nat, retries: nat) {
    && used <= retries <= VM_RETRY_MAX
    && now.bulk == was.bulk && now.bulkFailed == was.bulkFailed
    && now.single == was.single + slow && slow <= n + retries - used
    && now.sleeps == was.sleeps + retries - used
    && was.others <= now.others && was.noBuffers + retries - used <= now.noBuffers
    && (was.noBuffers + retries - used < now.noBuffers ==> retries == VM_RETRY_MAX)
    && drops == now.others - was.others + now.noBuffers - was.noBuffers - (retries - used)
  }

  lemma OneMore(was: Calls, mid: Calls, now: Calls, n: nat, drops: nat, slow: nat, used: nat, spent: nat,
                r: Sys, calls: nat, retries: nat)
    requires OneAtATime(was, mid, n, drops, slow, used, spent)
    requires spent <= retries <= VM_RETRY_MAX && calls == 1 + retries - spent
    requires r.NoBuffers? ==> retries == VM_RETRY_MAX
    requires now == AfterSends(mid, false, calls, retries - spent, r)
    ensures OneAtATime(was, now, n + 1, if r.Sent? then drops else drops + 1, slow + calls, used, retries)
  {
  }

  lemma KeepNext(batch: seq<Datagram>, from: nat, i: nat, kept: seq<bool>, out: seq<Datagram>, b: bool)
    requires from <= i < |batch| && |kept| == i - from && out == Keep(batch[from..i], kept)
    ensures out + (if b then [batch[i]] else []) == Keep(batch[from..i + 1], kept + [b])
    ensures TotalSize(out + (if b then [batch[i]] else [])) == TotalSize(out) + (if b then |batch[i]| else 0)
  {
    hide Keep, TotalSize;
    assert batch[from..i + 1] == batch[from..i] + [batch[i]];
    KeepSnoc(batch[from..i], kept, batch[i], b);
    assert out + [] == out;
    TotalSizeSnoc(out, batch[i]);
  }

  /** Where the slow path stands: packets [from..i) are done, `out` of them left,
      and the counters and the calls agree. */
  datatype Rest = Rest(packets: nat, bytes: nat, drops: nat, slow: nat, retries: nat)

  ghost predicate RestAt(batch: seq<Datagram>, from: nat, i: nat, kept: seq<bool>, out: seq<Datagram>, r: Rest,
                         was: Calls, now: Calls, used: nat)
  {
    && from <= i <= |batch| && |kept| == i - from && out == Keep(batch[from..i], kept)
    && r.packets == |out| && r.bytes == TotalSize(out) && r.packets + r.drops == i - from
    && OneAtATime(was, now, i - from, r.drops, r.slow, used, r.retries)
  }

  function NextRest(r: Rest, sent: bool, size: nat, calls: nat, retries: nat): Rest {
    Rest(if sent then r.packets + 1 else r.packets, if sent then r.bytes + size else r.bytes,
         if sent then r.drops else r.drops + 1, r.slow + calls, retries)
  }

  lemma RestStep(batch: seq<Datagram>, from: nat, i: nat, kept: seq<bool>, out: seq<Datagram>, rest: Rest,
                 was: Calls, mid: Calls, now: Calls, used: nat, r: Sys, calls: nat, retries: nat)
    requires RestAt(batch, from, i, kept, out, rest, was, mid, used) && i < |batch|
    requires rest.retries <= retries <= VM_RETRY_MAX && calls == 1 + retries - rest.retries
    requires r.NoBuffers? ==> retries == VM_RETRY_MAX
    requires now == AfterSends(mid, false, calls, retries - rest.retries, r)
    ensures RestAt(batch, from, i + 1, kept + [r.Sent?], out + (if r.Sent? then [batch[i]] else []),
                   NextRest(rest, r.Sent?, |batch[i]|, calls, retries), was, now, used)
  {
    hide OneAtATime, AfterSends, Keep, TotalSize;
    OneMore(was, mid, now, i - from, rest.drops, rest.slow, used, rest.retries, r, calls, retries);
    KeepNext(batch, from, i, kept, out, r.Sent?);
  }

  lemma RestStart(batch: seq<Datagram>, from: nat, was: Calls, used: nat)
    requires from <= |batch| && used <= VM_RETRY_MAX
    ensures RestAt(batch, from, from, [], [], Rest(0, 0, 0, 0, used), was, was, used)
  {
  }

  /** The slow path of write_to_vm(), from packet `from` to the end of the batch. */
  method SendRest(host: Endpoint, sock: VmSocket, from: nat, count: nat, used: nat, ghost batch: seq<Datagram>)
    returns (rest: Rest, ghost kept: seq<bool>, ghost out: seq<Datagram>)
    requires host.Valid() && host.Describes(batch) && from <= count == |batch| && used <= VM_RETRY_MAX
    modifies sock
    ensures sock.sent == old(sock.sent) + out
    ensures RestAt(batch, from, count, kept, out, rest, old(sock.calls), sock.calls, used)
  {
    rest, kept, out := Rest(0, 0, 0, 0, used), [], [];
    RestStart(batch, from, sock.calls, used);
    hide Keep, TotalSize, OneAtATime, AfterSends, RestAt;
    for i := from to count
      modifies sock
      invariant sock.sent == old(sock.sent) + out && rest.retries <= VM_RETRY_MAX
      invariant RestAt(batch, from, i, kept, out, rest, old(sock.calls), sock.calls, used)
    {
      ghost var mid := sock.calls;
      var r, size, calls, retries := SendOne(host, sock, i, rest.retries, batch);
      RestStep(batch, from, i, kept, out, rest, old(sock.calls), mid, sock.calls, used, r, calls, retries);
      Associative(old(sock.sent), out, if r.Sent? then [batch[i]] else []);
      kept, out := kept + [r.Sent?], out + (if r.Sent? then [batch[i]] else []);
      rest := NextRest(rest, r.Sent?, size, calls, retries);
    }
  }

  /** What the errors seen between `was` and `now` cost a batch of count packets
      of which `sent` left: every drop is paid for by an error that no retry
      absorbed, and the calls made are bounded by the batch and the budget. */
  ghost predicate Accounted(was: Calls, now: Calls, bulk: bool, count: nat, sent: nat) {
    && sent <= count && was.bulk <= now.bulk && was.single <= now.single
    && was.noBuffers <= now.noBuffers && was.others <= now.others
    && count - sent + FellBack(bulk, now) == Unabsorbed(was, now)
    && now.bulk - was.bulk + now.single - was.single <= count + VM_RETRY_MAX + FellBack(bulk, now)
    && now.sleeps - was.sleeps == Min(now.noBuffers - was.noBuffers, VM_RETRY_MAX)
    && (if bulk then was.bulk < now.bulk else was.bulk == now.bulk)
    && (bulk && !now.bulkFailed ==> now.single == was.single)
  }

  /** The counters after a batch of which `out` left. */
  ghost function CountBatch(stats: Stats, was: Calls, now: Calls, count: nat, out: seq<Datagram>): Stats
    requires |out| <= count && was.bulk <= now.bulk && was.single <= now.single
  {
    Stats(stats.packets + |out|, stats.bytes + TotalSize(out), stats.drops + count - |out|,
          stats.fast + now.bulk - was.bulk, stats.slow + now.single - was.single)
  }

  /** The errors of a batch that no retry absorbed. */
  ghost function Unabsorbed(was: Calls, now: Calls): int {
    now.others - was.others + Max(0, now.noBuffers - was.noBuffers - VM_RETRY_MAX)
  }

  /** 1 when the batch started in bulk and had to finish one packet at a time. */
  ghost function FellBack(bulk: bool, now: Calls): nat {
    if bulk && now.bulkFailed then 1 else 0
  }

  /** What the ten retries of a batch buy: each of the first ten ENOBUFS errors is
      slept on and costs nothing; the others, and all other errors, cost a packet
      each, except one that ended the bulk path. That path is taken whenever it
      is enabled, and the other only if it is not or has failed. */
  ghost predicate BudgetIsTen(was: Calls, now: Calls, bulk: bool, count: nat, sent: nat) {
    var noBuffers, others := now.noBuffers - was.noBuffers, now.others - was.others;
    && now.sleeps - was.sleeps == (if noBuffers <= 10 then noBuffers else 10)
    && count - sent + (if bulk && now.bulkFailed then 1 else 0)
       == others + (if noBuffers <= 10 then 0 else noBuffers - 10)
    && now.bulk - was.bulk + now.single - was.single <= count + 11
    && (if bulk then was.bulk < now.bulk else was.bulk == now.bulk)
    && (bulk && !now.bulkFailed ==> now.single == was.single)
  }

  /** A batch loses nothing exactly when its only unabsorbed error, if any, was
      the one that ended the bulk path. */
  lemma NothingLostIff(was: Calls, now: Calls, bulk: bool, batch: seq<Datagram>, kept: seq<bool>)
    requires |kept| == |batch| && Accounted(was, now, bulk, |batch|, |Keep(batch, kept)|)
    ensures BudgetIsTen(was, now, bulk, |batch|, |Keep(batch, kept)|)
    ensures Keep(batch, kept) == batch <==> Unabsorbed(was, now) == FellBack(bulk, now)
    ensures Unabsorbed(was, now) == 0 ==> Keep(batch, kept) == batch
  {
    KeepIsAll(batch, kept);
  }

  lemma BulkAccounted(was: Calls, now: Calls, count: nat, fast: nat, retries: nat, last: Sys)
    requires last.Sent? && 1 <= fast <= count + retries && retries <= VM_RETRY_MAX
    requires now == AfterSends(was, true, fast, retries, last)
    ensures Accounted(was, now, true, count, count)
    ensures now.bulk == was.bulk + fast && now.single == was.single
  {
  }

  lemma RestAccounted(was: Calls, mid: Calls, now: Calls, bulk: bool, packets: nat, fast: nat, spent: nat, last: Sys,
                      count: nat, drops: nat, slow: nat, retries: nat)
    requires packets <= count && drops <= count - packets && spent <= VM_RETRY_MAX
    requires if bulk then
               !last.Sent? && 1 <= fast <= packets + spent + 1 && mid == AfterSends(was, true, fast, spent, last)
             else mid == was && packets == spent == 0
    requires bulk && last.NoBuffers? ==> spent == VM_RETRY_MAX
    requires OneAtATime(mid, now, count - packets, drops, slow, spent, retries)
    ensures Accounted(was, now, bulk, count, count - drops)
    ensures now.single == was.single + slow && now.bulk == was.bulk + (if bulk then fast else 0)
  {
  }

  lemma KeepWhole(batch: seq<Datagram>) returns (kept: seq<bool>)
    ensures |kept| == |batch| && Keep(batch, kept) == batch && batch[..|batch|] == batch
  {
    kept := AllKept(|batch|);
    KeepAll(batch);
  }

  /** A batch whose first n packets left, then a selection of the others. */
  lemma KeepFromPrefix(batch: seq<Datagram>, n: nat, rest: seq<bool>) returns (kept: seq<bool>)
    requires n <= |batch| && |rest| == |batch| - n
    ensures |kept| == |batch| && Keep(batch, kept) == batch[..n] + Keep(batch[n..], rest)
    ensures |Keep(batch, kept)| == n + |Keep(batch[n..], rest)|
    ensures TotalSize(Keep(batch, kept))
         == (if n == 0 then 0 else TotalSize(batch[..n])) + TotalSize(Keep(batch[n..], rest))
  {
    kept := AllKept(n) + rest;
    KeepAll(batch[..n]);
    KeepConcat(batch[..n], AllKept(n), batch[n..], rest);
    assert batch == batch[..n] + batch[n..];
    TotalSizeConcat(batch[..n], Keep(batch[n..], rest));
  }

  /** write_to_vm(): the flags `kept` say which packets left; the others are
      dropped. */
  method WriteToVm(host: Endpoint, sock: VmSocket, bulk: bool, count: nat, ghost batch: seq<Datagram>)
    returns (ghost kept: seq<bool>)
    requires host.Valid() && host.Describes(batch) && 1 <= count == |batch|
    modifies host.msgs, host`stats, sock
    ensures host.Valid()
    ensures |kept| == count && sock.sent == old(sock.sent) + Keep(batch, kept)
    ensures Accounted(old(sock.calls), sock.calls, bulk, count, |Keep(batch, kept)|)
    ensures Keep(batch, kept) == batch <==> Unabsorbed(old(sock.calls), sock.calls) == FellBack(bulk, sock.calls)
    ensures Unabsorbed(old(sock.calls), sock.calls) == 0 ==> Keep(batch, kept) == batch
    ensures BudgetIsTen(old(sock.calls), sock.calls, bulk, count, |Keep(batch, kept)|)
    ensures host.stats == CountBatch(old(host.stats), old(sock.calls), sock.calls, count, Keep(batch, kept))
  {
    hide Keep, TotalSize, OneAtATime, AfterSends, Accounted, Unabsorbed, FellBack, BudgetIsTen;
    hide host.Describes, host.Addresses, host.Valid;
    PrepareMessages(host, count, batch);
    var packets: nat, bytes: nat, fast: nat, retries: nat := 0, 0, 0, 0;
    var last := OtherError;
    if bulk {
      packets, fast, retries, last := SendBulk(host, sock, count, batch);
      bytes := PacketsSize(host, packets, batch);
      if packets == count {
        BulkAccounted(old(sock.calls), sock.calls, count, fast, retries, last);
        kept := KeepWhole(batch);
        host.stats := Stats(host.stats.packets + packets, host.stats.bytes + bytes, host.stats.drops,
                            host.stats.fast + fast, host.stats.slow);
        NothingLostIff(old(sock.calls), sock.calls, bulk, batch, kept);
        return;
      }
    }
    ghost var mid, tail, out := sock.calls, [], [];
    var rest;
    rest, tail, out := SendRest(host, sock, packets, count, retries, batch);
    RestAccounted(old(sock.calls), mid, sock.calls, bulk, packets, fast, retries, last,
                  count, rest.drops, rest.slow, rest.retries);
    assert batch[packets..count] == batch[packets..];
    kept := KeepFromPrefix(batch, packets, tail);
    Associative(old(sock.sent), batch[..packets], out);
    NothingLostIff(old(sock.calls), sock.calls, bulk, batch, kept);
    host.stats := Stats(host.stats.packets + packets + rest.packets, host.stats.bytes + bytes + rest.bytes,
                        host.stats.drops + rest.drops, host.stats.fast + fast, host.stats.slow + rest.slow);
  }

  /** The vmnet interface, seen from the reader. `incoming` is everything that
      will be delivered from now on, of which the first `arrived` packets are
      already there; `taken` is everything read so far. */
  class Vmnet {
    const maxPacketSize: nat
    var incoming: seq<Datagram>
    var arrived: nat
    ghost var taken: seq<Datagram>
    ghost var failures: nat   // reads that failed

    constructor (maxPacketSize: nat)
      ensures this.maxPacketSize == maxPacketSize && incoming == [] && arrived == 0 && taken == [] && failures == 0
    {
      this.maxPacketSize := maxPacketSize;
      incoming, arrived, taken, failures := [], 0, [], 0;
    }

    ghost predicate Valid()
      reads this
    {
      arrived <= |incoming| && forall d :: d in incoming ==> |d| <= maxPacketSize
    }

    /** Packets are on their way: some of what is to come may have arrived. */
    method Deliver(ds: seq<Datagram>)
      requires Valid() && forall d :: d in ds ==> |d| <= maxPacketSize
      modifies this`incoming, this`arrived
      ensures Valid() && taken + incoming == old(taken + incoming) + ds && old(arrived) <= arrived
    {
      assert taken + (incoming + ds) == taken + incoming + ds;
      incoming := incoming + ds;
      var there: nat :| arrived <= there <= |incoming|;
      arrived := there;
    }

    /** vmnet_read(): more packets may arrive first; then it takes up to count of
        those that are there, and none only when none is. Every descriptor must
        offer a whole slot, and gets the length of the packet it received. */
    method Read(e: Endpoint, count: nat) returns (ok: bool, n: nat, ghost batch: seq<Datagram>)
      requires Valid() && e.Valid() && e.maxPacketSize == maxPacketSize && count <= e.maxPacketCount
      requires forall i :: 0 <= i < count ==> e.packets[i].size == e.iovs[i].len == e.maxPacketSize
      modifies this, e.packets, e.iovs, e.buffers
      ensures Valid() && e.Valid()
      ensures ok ==> n == |batch| <= count && e.Describes(batch)
      ensures ok ==> taken == old(taken) + batch && old(incoming) == batch + incoming
      ensures !ok ==> taken == old(taken) && incoming == old(incoming) && arrived >= old(arrived)
      ensures ok ==> arrived + n >= old(arrived) && (n == 0 && 0 < count ==> arrived == 0)
      ensures failures == if ok then old(failures) else old(failures) + 1
    {
      var there: nat :| arrived <= there <= |incoming|;
      ok, n, batch := *, 0, [];
      if !ok {
        arrived, failures := there, failures + 1;
        return;
      }
      var most := Min(count, there);
      n :| n <= most && (n == 0 ==> most == 0);
      var ds := incoming[..n];
      assert incoming == ds + incoming[n..];
      hide TotalSize, Keep, Min;
      e.ReceivePackets(ds);
      batch, taken, incoming, arrived := ds, taken + ds, incoming[n..], there - n;
    }
  }

  /** read_from_host(): the whole slot is offered again for every descriptor,
      whatever earlier batches left in them. */
  method ReadFromHost(host: Endpoint, net: Vmnet) returns (ok: bool, count: nat, ghost batch: seq<Datagram>)
    requires host.Valid() && net.Valid() && host.maxPacketSize == net.maxPacketSize
    modifies host.packets, host.iovs, host.buffers, net
    ensures host.Valid() && net.Valid()
    ensures ok ==> count == |batch| <= host.maxPacketCount && host.Describes(batch)
    ensures ok ==> net.taken == old(net.taken) + batch && old(net.incoming) == batch + net.incoming
    ensures !ok ==> net.taken == old(net.taken) && net.incoming == old(net.incoming)
    ensures ok ==> net.arrived + count >= old(net.arrived) && (count == 0 ==> net.arrived == 0)
    ensures net.failures == if ok then old(net.failures) else old(net.failures) + 1
  {
    for i := 0 to host.maxPacketCount
      modifies host.packets
      invariant host.Valid()
      invariant forall k :: 0 <= k < i ==> host.packets[k].size == host.maxPacketSize
    {
      host.packets[i] := host.packets[i].(size := host.maxPacketSize, flags := 0);
    }
    for i := 0 to host.maxPacketCount
      modifies host.iovs
      invariant host.Valid()
      invariant forall k :: 0 <= k < i ==> host.iovs[k].len == host.maxPacketSize
    {
      host.iovs[i] := host.iovs[i].(len := host.maxPacketSize);
    }
    ok, count, batch := net.Read(host, host.maxPacketCount);
  }

  /** What holds between callbacks of every run: nothing read was altered,
      repeated or reordered on its way out, and the counters account for all of
      it. */
  ghost predicate Conserved(host: Endpoint, sock: VmSocket, net: Vmnet)
    reads host, sock, net
  {
    AccountFor(host.stats, sock.calls, sock.sent, net.taken)
  }

  ghost predicate AccountFor(stats: Stats, calls: Calls, sent: seq<Datagram>, taken: seq<Datagram>) {
    && InOrderSelection(sent, taken)
    && stats.packets == |sent|
    && stats.packets + stats.drops == |taken|
    && stats.bytes == TotalSize(sent)
    && stats.fast == calls.bulk && stats.slow == calls.single
  }

  /** One batch keeps the accounts, and no counter goes down. */
  lemma BatchKeepsAccounts(stats: Stats, was: Calls, now: Calls, bulk: bool, sent: seq<Datagram>, taken: seq<Datagram>,
                           batch: seq<Datagram>, kept: seq<bool>)
    requires AccountFor(stats, was, sent, taken)
    requires |kept| == |batch| && Accounted(was, now, bulk, |batch|, |Keep(batch, kept)|)
    ensures var after := CountBatch(stats, was, now, |batch|, Keep(batch, kept));
            AccountFor(after, now, sent + Keep(batch, kept), taken + batch) && AtMost(stats, after)
  {
    SelectionsCompose(sent, taken, Keep(batch, kept), batch);
    TotalSizeConcat(sent, Keep(batch, kept));
    hide Keep, TotalSize, InOrderSelection;
  }

  /** One turn of packets_available(). */
  method ForwardOnce(host: Endpoint, sock: VmSocket, net: Vmnet, bulk: bool) returns (ok: bool, count: nat)
    requires host.Valid() && net.Valid() && host.maxPacketSize == net.maxPacketSize
    requires Conserved(host, sock, net)
    modifies host.packets, host.msgs, host.iovs, host.buffers, host`stats, sock, net
    ensures host.Valid() && net.Valid() && Conserved(host, sock, net)
    ensures net.taken + net.incoming == old(net.taken + net.incoming)
    ensures |net.incoming| == |old(net.incoming)| - if ok then count else 0
    ensures AtMost(old(host.stats), host.stats)
    ensures ok ==> net.arrived + count >= old(net.arrived) && (count == 0 ==> net.arrived == 0)
    ensures net.failures == if ok then old(net.failures) else old(net.failures) + 1
  {
    ghost var sent, taken, rest, stats, calls := sock.sent, net.taken, net.incoming, host.stats, sock.calls;
    ghost var batch;
    assert AtMost(stats, stats);
    hide Keep, TotalSize, Accounted, AccountFor, CountBatch, AtMost, Unabsorbed, FellBack, BudgetIsTen;
    ok, count, batch := ReadFromHost(host, net);
    if ok {
      Associative(taken, batch, net.incoming);
    }
    if ok && count >= 1 {
      ghost var kept := WriteToVm(host, sock, bulk, count, batch);
      BatchKeepsAccounts(stats, calls, sock.calls, bulk, sent, taken, batch, kept);
    } else {
      assert ok ==> net.taken == taken && net.incoming == rest;
    }
  }

  /** packets_available(): a callback goes on until vmnet fails, or until no packet
      is left to read, including those that arrived while it ran. */
  method PacketsAvailable(host: Endpoint, sock: VmSocket, net: Vmnet, bulk: bool) returns (ok: bool)
    requires host.Valid() && net.Valid() && host.maxPacketSize == net.maxPacketSize
    requires Conserved(host, sock, net)
    modifies host.packets, host.msgs, host.iovs, host.buffers, host`stats, sock, net
    ensures host.Valid() && net.Valid() && Conserved(host, sock, net)
    ensures net.taken + net.incoming == old(net.taken + net.incoming)
    ensures ok ==> net.arrived == 0 && |net.incoming| + old(net.arrived) <= |old(net.incoming)|
    ensures AtMost(old(host.stats), host.stats)
    ensures net.failures == if ok then old(net.failures) else old(net.failures) + 1
  {
    hide Conserved;
    while true
      invariant host.Valid() && net.Valid() && Conserved(host, sock, net)
      invariant net.taken + net.incoming == old(net.taken + net.incoming)
      invariant |net.incoming| + old(net.arrived) <= |old(net.incoming)| + net.arrived
      invariant AtMost(old(host.stats), host.stats)
      invariant net.failures == old(net.failures)
      decreases |net.incoming|
    {
      var count;
      ok, count := ForwardOnce(host, sock, net, bulk);
      if !ok || count < 1 {
        break;
      }
    }
  }

  lemma NothingIsConserved(host: Endpoint, sock: VmSocket, net: Vmnet)
    requires host.stats == Stats(0, 0, 0, 0, 0) && sock.sent == net.taken == []
    requires sock.calls == Calls(0, 0, 0, 0, 0, false)
    ensures Conserved(host, sock, net)
  {
    assert Keep([], []) == [];
  }

  /** One delivery and the callback it causes. */
  method ServeDelivery(host: Endpoint, sock: VmSocket, net: Vmnet, bulk: bool, ds: seq<Datagram>) returns (ok: bool)
    requires host.Valid() && net.Valid() && host.maxPacketSize == net.maxPacketSize
    requires Fit(ds, net.maxPacketSize)
    requires Conserved(host, sock, net)
    modifies host.packets, host.msgs, host.iovs, host.buffers, host`stats, sock, net
    ensures host.Valid() && net.Valid() && Conserved(host, sock, net)
    ensures net.taken + net.incoming == old(net.taken + net.incoming) + ds
    ensures ok ==> net.arrived == 0
    ensures net.failures == if ok then old(net.failures) else old(net.failures) + 1
    ensures AtMost(old(host.stats), host.stats)
  {
    hide AccountFor;
    net.Deliver(ds);
    ok := PacketsAvailable(host, sock, net, bulk);
  }

  /** Any number of callbacks, each after more packets were delivered, which may
      arrive as late as they like: what the vm received is an in-order selection
      of what was delivered, and every packet read is counted as forwarded or
      dropped. */
  method ServeHost(host: Endpoint, sock: VmSocket, net: Vmnet, bulk: bool, deliveries: seq<seq<Datagram>>)
    returns (ok: bool)
    requires host.Valid() && net.Valid() && host.maxPacketSize == net.maxPacketSize && net.arrived == 0
    requires forall i :: 0 <= i < |deliveries| ==> Fit(deliveries[i], net.maxPacketSize)
    requires Conserved(host, sock, net)
    modifies host.packets, host.msgs, host.iovs, host.buffers, host`stats, sock, net
    ensures Conserved(host, sock, net)
    ensures net.taken + net.incoming == old(net.taken + net.incoming) + Flatten(deliveries)
    ensures ok ==> net.arrived == 0
    ensures net.failures == old(net.failures) ==> ok
    ensures old(net.failures) <= net.failures <= old(net.failures) + |deliveries|
    ensures AtMost(old(host.stats), host.stats)
  {
    ok := true;
    ghost var before := net.taken + net.incoming;
    FlattenEnds(before, deliveries);
    assert AtMost(host.stats, host.stats);
    hide *;
    for i := 0 to |deliveries|
      invariant host.Valid() && net.Valid() && Conserved(host, sock, net)
      invariant net.taken + net.incoming == before + Flatten(deliveries[..i])
      invariant ok ==> net.arrived == 0
      invariant net.failures == old(net.failures) ==> ok
      invariant old(net.failures) <= net.failures <= old(net.failures) + i
      invariant AtMost(old(host.stats), host.stats)
    {
      FlattenNext(before, deliveries, i);
      ghost var mid := host.stats;
      ok := ServeDelivery(host, sock, net, bulk, deliveries[i]);
      AtMostTransitive(old(host.stats), mid, host.stats);
    }
  }

  /** The same from the start: the endpoint, the socket and the interface are
      created, and serve any number of callbacks. */
  method ServeFromStart(maxPacketSize: nat, bulk: bool, deliveries: seq<seq<Datagram>>)
    returns (ok: bool, host: Endpoint, sock: VmSocket, net: Vmnet)
    requires forall i :: 0 <= i < |deliveries| ==> Fit(deliveries[i], maxPacketSize)
    ensures net.taken + net.incoming == Flatten(deliveries) && InOrderSelection(sock.sent, net.taken)
    ensures host.stats.packets == |sock.sent| && host.stats.bytes == TotalSize(sock.sent)
    ensures host.stats.packets + host.stats.drops == |net.taken|
    ensures ok ==> net.arrived == 0
    ensures net.failures == 0 ==> ok
  {
    host := new Endpoint(maxPacketSize);
    sock := new VmSocket();
    net := new Vmnet(maxPacketSize);
    NothingIsConserved(host, sock, net);
    hide Flatten, TotalSize;
    assert net.taken + net.incoming == [];
    ok := ServeHost(host, sock, net, bulk, deliveries);
    assert [] + Flatten(deliveries) == Flatten(deliveries);
  }

  /** vmnet delivers no packet longer than the largest it agreed on. */
  ghost predicate Fit(ds: seq<Datagram>, m: nat) {
    forall d :: d in ds ==> |d| <= m
  }

  lemma FlattenEnds(before: seq<Datagram>, deliveries: seq<seq<Datagram>>)
    ensures before + Flatten(deliveries[..0]) == before
    ensures Flatten(deliveries[..|deliveries|]) == Flatten(deliveries)
  {
    assert deliveries[..|deliveries|] == deliveries;
  }

  lemma FlattenNext(before: seq<Datagram>, deliveries: seq<seq<Datagram>>, i: nat)
    requires i < |deliveries|
    ensures before + Flatten(deliveries[..i + 1]) == before + Flatten(deliveries[..i]) + deliveries[i]
  {
    assert deliveries[..i + 1][..i] == deliveries[..i];
  }

  ghost function Flatten(deliveries: seq<seq<Datagram>>): seq<Datagram> {
    if deliveries == [] then []
    else Flatten(deliveries[..|deliveries| - 1]) + deliveries[|deliveries| - 1]
  }

  function Max(a: int, b: int): int { if a < b then b else a }
  function Min(a: int, b: int): int { if a < b then a else b }
}
