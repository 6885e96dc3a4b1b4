/** The vm to host direction of programs/helper.c: connect_socket, read_from_vm,
    write_to_host and forward_from_vm, against a specification of whole runs. */
module VmToHost {
  import opened Packets
  import opened Endpoints

  const HANDSHAKE_SIZE: nat := 64

  /** The status forward_from_vm() hands to trigger_shutdown(). */
  datatype Reason = Failure | Stopped

  /** How the calls of one turn of the loop go: whether recvmsg_x() fails, how
      many datagrams beyond the first it takes, whether read() fails and whether
      vmnet_write() fails. */
  datatype Turn = Turn(bulkFails: bool, more: nat, readFails: bool, writeFails: bool)
  type Script = nat -> Turn

  /** A datagram longer than the buffer is cut. */
  function Clip(d: Datagram, m: nat): (c: Datagram)
    ensures |c| <= m
  {
    if |d| <= m then d else d[..m]
  }

  function ClipAll(ds: seq<Datagram>, m: nat): (cs: seq<Datagram>)
    ensures |cs| == |ds| && forall i :: 0 <= i < |ds| ==> cs[i] == Clip(ds[i], m)
  {
    seq(|ds|, i requires 0 <= i < |ds| => Clip(ds[i], m))
  }

  /** recvmsg_x() takes at least one and at most cap of the queued datagrams. */
  function Take(turn: Turn, queued: nat, cap: nat): (n: nat)
    requires 0 < cap
    ensures n <= queued && n <= cap && (n == 0 <==> queued == 0)
  {
    if queued == 0 then 0
    else 1 + turn.more % (if queued < cap then queued else cap)
  }

  /** Any such count may come. */
  lemma TakesAnyCount(queued: nat, cap: nat, n: nat)
    requires 1 <= n <= queued && n <= cap
    ensures Take(Turn(false, n - 1, false, false), queued, cap) == n
  {
  }

  /** The state of a run: what the client sent and was not read, what was handed
      to vmnet_write(), how much of that it accepted, and the counters. */
  datatype Run = Run(queue: seq<Datagram>, handed: seq<Datagram>, accepted: nat, stats: Stats)

  /** What read_from_vm() returns, and how many datagrams it removed. */
  datatype Read = Failed | Got(count: nat, removed: nat)

  function ReadResult(bulk: bool, turn: Turn, queue: seq<Datagram>, cap: nat, m: nat): (r: Read)
    requires 0 < cap
    ensures r.Got? ==> r.count <= r.removed <= |queue| && r.count <= cap
  {
    if bulk && !turn.bulkFails then
      var n := Take(turn, |queue|, cap);
      Got(n, n)
    else if turn.readFails then Failed
    else if queue == [] then Got(0, 0)
    else Got(if |Clip(queue[0], m)| > 0 then 1 else 0, 1)
  }

  function CountRead(stats: Stats, bulk: bool, turn: Turn): Stats {
    stats.(fast := if bulk then stats.fast + 1 else stats.fast,
           slow := if bulk && !turn.bulkFails then stats.slow else stats.slow + 1)
  }

  function CountWritten(stats: Stats, batch: seq<Datagram>): Stats {
    stats.(packets := stats.packets + |batch|, bytes := stats.bytes + TotalSize(batch))
  }

  /** One turn of forward_from_vm(): the state after it, and the reason to stop
      if it is the last. */
  datatype Step = Continue(s: Run) | End(s: Run, reason: Reason)

  function OneTurn(bulk: bool, turn: Turn, s: Run, cap: nat, m: nat): (n: Step)
    requires 0 < cap
    ensures n.Continue? ==> |n.s.queue| < |s.queue|
  {
    var r := ReadResult(bulk, turn, s.queue, cap, m);
    var counted := s.(stats := CountRead(s.stats, bulk, turn));
    if r.Failed? then End(counted, Failure)
    else if r.count == 0 then End(counted.(queue := s.queue[r.removed..]), Stopped)
    else
      var batch := ClipAll(s.queue[..r.count], m);
      var handed := counted.(queue := s.queue[r.removed..], handed := s.handed + batch);
      if turn.writeFails then End(handed, Failure)
      else Continue(handed.(accepted := s.accepted + |batch|, stats := CountWritten(counted.stats, batch)))
  }

  /** A whole run of forward_from_vm() from turn i on, and the reason it ends. */
  function Forward(bulk: bool, script: Script, i: nat, s: Run, cap: nat, m: nat): (Run, Reason)
    requires 0 < cap
    decreases |s.queue|
  {
    match OneTurn(bulk, script(i), s, cap, m)
    case End(s', reason) => (s', reason)
    case Continue(s') => Forward(bulk, script, i + 1, s', cap, m)
  }

  /** The client end of the vm's socket. */
  class ClientSocket {
    var queue: seq<Datagram>
    ghost var bulkReads: nat     // calls of recvmsg_x()
    ghost var singleReads: nat   // calls of read() for packets

    /** recvmsg_x(): every iovec must offer a whole slot. */
    method RecvmsgX(e: Endpoint, max: nat, turn: Turn) returns (n: int)
      requires e.Valid() && max == e.maxPacketCount
      requires forall i :: 0 <= i < max ==> e.iovs[i].len == e.maxPacketSize
      modifies this, e.msgs, e.buffers
      ensures e.Valid()
      ensures bulkReads == old(bulkReads) + 1 && singleReads == old(singleReads)
      ensures turn.bulkFails ==> n == -1 && queue == old(queue)
      ensures !turn.bulkFails ==>
                && n == Take(turn, |old(queue)|, max) && queue == old(queue)[n..]
                && e.Received(ClipAll(old(queue)[..n], e.maxPacketSize))
    {
      bulkReads := bulkReads + 1;
      if turn.bulkFails {
        return -1;
      }
      n := Take(turn, |queue|, max);
      e.ReceiveMessages(ClipAll(queue[..n], e.maxPacketSize));
      queue := queue[n..];
    }

    /** read() of one datagram into slot 0, which must be offered whole. */
    method Read(e: Endpoint, turn: Turn) returns (len: int)
      requires e.Valid() && e.iovs[0].len == e.maxPacketSize
      modifies this, e.buffers
      ensures e.Valid()
      ensures bulkReads == old(bulkReads) && singleReads == old(singleReads) + 1
      ensures turn.readFails ==> len == -1 && queue == old(queue)
      ensures !turn.readFails && old(queue) == [] ==> len == 0 && queue == []
      ensures !turn.readFails && old(queue) != [] ==>
                && len == |Clip(old(queue)[0], e.maxPacketSize)| && queue == old(queue)[1..]
                && e.Holds(0, Clip(old(queue)[0], e.maxPacketSize))
    {
      singleReads := singleReads + 1;
      if turn.readFails {
        return -1;
      }
      if queue == [] {
        return 0;
      }
      var d := Clip(queue[0], e.maxPacketSize);
      e.StoreAt(0, d);
      queue := queue[1..];
      return |d|;
    }

    /** recvfrom(MSG_PEEK) into a buffer of cap bytes: how much it sees. */
    method Peek(cap: nat, fails: bool) returns (n: int)
      requires queue != []
      ensures n == if fails then -1 else |Clip(queue[0], cap)|
    {
      n := if fails then -1 else |Clip(queue[0], cap)|;
    }

    /** read() of the datagram that was peeked at, into a buffer of its own. */
    method Discard(fails: bool) returns (ok: bool)
      requires queue != []
      modifies this`queue
      ensures ok == !fails && queue == if fails then old(queue) else old(queue)[1..]
    {
      ok := !fails;
      if ok {
        queue := queue[1..];
      }
    }
  }

  /** The stream of a client without the invalid frame some of them send first,
      which is shorter than an Ethernet frame can be. */
  function WithoutHandshake(queue: seq<Datagram>): seq<Datagram> {
    if queue != [] && |queue[0]| < HANDSHAKE_SIZE then queue[1..] else queue
  }

  /** How the calls of connect_socket() go. */
  datatype Connecting = Connecting(peekFails: bool, connectFails: bool, readFails: bool)

  /** connect_socket(): the first datagram is dropped exactly when it is shorter
      than an Ethernet frame can be, which a bounded peek decides; and only a call
      that fails stops it. */
  method ConnectSocket(client: ClientSocket, calls: Connecting) returns (ok: bool)
    requires client.queue != []
    modifies client`queue
    ensures ok <==> !calls.peekFails && !calls.connectFails && (|old(client.queue)[0]| < 64 ==> !calls.readFails)
    ensures ok && |old(client.queue)[0]| < 64 ==> client.queue == old(client.queue)[1..]
    ensures !ok || |old(client.queue)[0]| >= 64 ==> client.queue == old(client.queue)
  {
    var n := client.Peek(HANDSHAKE_SIZE, calls.peekFails);
    if n < 0 {
      return false;
    }
    if calls.connectFails {
      return false;
    }
    if n < HANDSHAKE_SIZE {
      ok := client.Discard(calls.readFails);
      return;
    }
    return true;
  }

  /** The vmnet interface, seen from the writer. */
  class VmnetSink {
    ghost var handed: seq<Datagram>
    ghost var accepted: nat

    /** vmnet_write(): the packet sizes, the iovec lengths and the message lengths
        must agree; success takes the whole batch. */
    method Write(e: Endpoint, count: nat, turn: Turn, ghost batch: seq<Datagram>) returns (ok: bool)
      requires e.Valid() && count == |batch| && e.Describes(batch) && e.Received(batch)
      modifies this
      ensures ok <==> !turn.writeFails
      ensures handed == old(handed) + batch
      ensures accepted == if ok then old(accepted) + count else old(accepted)
    {
      ok := !turn.writeFails;
      handed := handed + batch;
      if ok {
        accepted := accepted + count;
      }
    }
  }

  method OfferSlots(vm: Endpoint)
    requires vm.Valid()
    modifies vm.iovs
    ensures vm.Valid() && forall i :: 0 <= i < vm.maxPacketCount ==> vm.iovs[i].len == vm.maxPacketSize
  {
    for i := 0 to vm.maxPacketCount
      invariant vm.Valid()
      invariant forall k :: 0 <= k < i ==> vm.iovs[k].len == vm.maxPacketSize
    {
      vm.iovs[i] := vm.iovs[i].(len := vm.maxPacketSize);
    }
  }

  /** The slow path of read_from_vm(): one packet, and none when the length is
      zero. */
  method ReadOne(vm: Endpoint, client: ClientSocket, turn: Turn) returns (count: int)
    requires vm.Valid()
    modifies vm.msgs, vm.iovs, vm.buffers, vm`stats, client
    ensures vm.Valid() && vm.stats == old(vm.stats).(slow := old(vm.stats).slow + 1)
    ensures client.bulkReads == old(client.bulkReads) && client.singleReads == old(client.singleReads) + 1
    ensures Agrees(ReadResult(false, turn, old(client.queue), vm.maxPacketCount, vm.maxPacketSize),
                   vm, count, old(client.queue), client.queue)
  {
    vm.iovs[0] := vm.iovs[0].(len := vm.maxPacketSize);
    vm.stats := vm.stats.(slow := vm.stats.slow + 1);
    var len := client.Read(vm, turn);
    if len == -1 {
      return -1;
    }
    vm.msgs[0] := vm.msgs[0].(len := len);
    return if len > 0 then 1 else 0;
  }

  /** The returned count, the datagrams removed and the descriptors are what r
      says. */
  ghost predicate Agrees(r: Read, vm: Endpoint, count: int, was: seq<Datagram>, now: seq<Datagram>)
    requires vm.Valid() && (r.Got? ==> r.count <= r.removed <= |was|)
    reads vm.packets, vm.msgs, vm.iovs, vm.buffers
  {
    if r.Failed? then count == -1 && now == was
    else count == r.count && now == was[r.removed..] && vm.Received(ClipAll(was[..r.count], vm.maxPacketSize))
  }

  /** read_from_vm(): in bulk when it can, falling back to one packet. */
  method ReadFromVm(vm: Endpoint, client: ClientSocket, bulk: bool, turn: Turn) returns (count: int)
    requires vm.Valid()
    modifies vm.msgs, vm.iovs, vm.buffers, vm`stats, client
    ensures vm.Valid() && vm.stats == CountRead(old(vm.stats), bulk, turn)
    ensures vm.stats.fast - old(vm.stats.fast) == client.bulkReads - old(client.bulkReads) == (if bulk then 1 else 0)
    ensures vm.stats.slow - old(vm.stats.slow) == client.singleReads - old(client.singleReads)
         == (if bulk && !turn.bulkFails then 0 else 1)
    ensures Agrees(ReadResult(bulk, turn, old(client.queue), vm.maxPacketCount, vm.maxPacketSize),
                   vm, count, old(client.queue), client.queue)
  {
    if bulk {
      OfferSlots(vm);
      vm.stats := vm.stats.(fast := vm.stats.fast + 1);
      count := client.RecvmsgX(vm, vm.maxPacketCount, turn);
      if count != -1 {
        return;
      }
    }
    count := ReadOne(vm, client, turn);
  }

  /** The packet descriptors, then the iovecs, are made to match the messages. */
  method MatchMessages(vm: Endpoint, count: nat, ghost batch: seq<Datagram>)
    requires vm.Valid() && count == |batch| && vm.Received(batch)
    modifies vm.packets, vm.iovs
    ensures vm.Valid() && vm.Received(batch) && vm.Describes(batch)
  {
    for i := 0 to count
      modifies vm.packets
      invariant vm.Valid()
      invariant forall k :: 0 <= k < i ==> vm.packets[k].size == vm.msgs[k].len
    {
      vm.packets[i] := vm.packets[i].(size := vm.msgs[i].len);
    }
    MatchIovs(vm, count, batch);
  }

  method MatchIovs(vm: Endpoint, count: nat, ghost batch: seq<Datagram>)
    requires vm.Valid() && count == |batch| && vm.Received(batch)
    modifies vm.iovs
    ensures vm.Valid() && vm.Received(batch)
    ensures forall k :: 0 <= k < count ==> vm.iovs[k].len == vm.msgs[k].len
  {
    for i := 0 to count
      invariant vm.Valid() && vm.Received(batch)
      invariant forall k :: 0 <= k < i ==> vm.iovs[k].len == vm.msgs[k].len
    {
      vm.iovs[i] := vm.iovs[i].(len := vm.msgs[i].len);
    }
  }

  /** write_to_host(). */
  method WriteToHost(vm: Endpoint, net: VmnetSink, count: nat, turn: Turn, ghost batch: seq<Datagram>)
    returns (ok: bool)
    requires vm.Valid() && count == |batch| && vm.Received(batch)
    modifies vm.packets, vm.iovs, net
    ensures vm.Valid() && vm.Received(batch)
    ensures ok <==> !turn.writeFails
    ensures net.handed == old(net.handed) + batch
    ensures net.accepted == if ok then old(net.accepted) + count else old(net.accepted)
  {
    MatchMessages(vm, count, batch);
    ok := net.Write(vm, count, turn, batch);
  }

  /** vm_msgs_size(). */
  method MessagesSize(vm: Endpoint, count: nat, ghost batch: seq<Datagram>) returns (size: nat)
    requires vm.Valid() && vm.Received(batch) && count == |batch|
    ensures size == TotalSize(batch)
  {
    size := 0;
    for i := 0 to count
      invariant size == TotalSize(batch[..i])
    {
      assert batch[..i + 1] == batch[..i] + [batch[i]];
      TotalSizeSnoc(batch[..i], batch[i]);
      size := size + vm.msgs[i].len;
    }
    assert batch[..count] == batch;
  }

  ghost function StateOf(client: ClientSocket, net: VmnetSink, vm: Endpoint): Run
    reads client, net, vm
  {
    Run(client.queue, net.handed, net.accepted, vm.stats)
  }

  /** One turn of the loop of forward_from_vm(). */
  method ForwardTurn(vm: Endpoint, client: ClientSocket, net: VmnetSink, bulk: bool, turn: Turn)
    returns (ended: bool, reason: Reason)
    requires vm.Valid()
    modifies vm.packets, vm.msgs, vm.iovs, vm.buffers, vm`stats, client, net
    ensures vm.Valid()
    ensures OneTurn(bulk, turn, old(StateOf(client, net, vm)), vm.maxPacketCount, vm.maxPacketSize)
         == if ended then End(StateOf(client, net, vm), reason) else Continue(StateOf(client, net, vm))
    ensures vm.stats.fast - old(vm.stats.fast) == client.bulkReads - old(client.bulkReads)
    ensures vm.stats.slow - old(vm.stats.slow) == client.singleReads - old(client.singleReads)
  {
    hide TotalSize, ClipAll, ReadResult, CountRead;
    ghost var queue := client.queue;
    ended, reason := true, Failure;
    var count := ReadFromVm(vm, client, bulk, turn);
    if count == -1 {
      return;
    }
    if count == 0 {
      reason := Stopped;
      return;
    }
    ghost var batch := ClipAll(queue[..count], vm.maxPacketSize);
    var ok := WriteToHost(vm, net, count, turn, batch);
    if !ok {
      return;
    }
    var bytes := MessagesSize(vm, count, batch);
    vm.stats := vm.stats.(packets := vm.stats.packets + count, bytes := vm.stats.bytes + bytes);
    ended := false;
  }

  /** forward_from_vm(): the loop ends in the state, and for the reason, that the
      specification of whole runs says. */
  method ForwardFromVm(vm: Endpoint, client: ClientSocket, net: VmnetSink, bulk: bool, script: Script)
    returns (reason: Reason)
    requires vm.Valid()
    modifies vm.packets, vm.msgs, vm.iovs, vm.buffers, vm`stats, client, net
    ensures vm.Valid()
    ensures (StateOf(client, net, vm), reason)
         == Forward(bulk, script, 0, old(StateOf(client, net, vm)), vm.maxPacketCount, vm.maxPacketSize)
    ensures vm.stats.fast - old(vm.stats.fast) == client.bulkReads - old(client.bulkReads)
    ensures vm.stats.slow - old(vm.stats.slow) == client.singleReads - old(client.singleReads)
  {
    ghost var start := StateOf(client, net, vm);
    ghost var cap, m := vm.maxPacketCount, vm.maxPacketSize;
    hide OneTurn;
    var i: nat := 0;
    while true
      invariant vm.Valid()
      invariant Forward(bulk, script, 0, start, cap, m) == Forward(bulk, script, i, StateOf(client, net, vm), cap, m)
      invariant vm.stats.fast - old(vm.stats.fast) == client.bulkReads - old(client.bulkReads)
      invariant vm.stats.slow - old(vm.stats.slow) == client.singleReads - old(client.singleReads)
      decreases |client.queue|
    {
      var ended;
      ended, reason := ForwardTurn(vm, client, net, bulk, script(i));
      if ended {
        return;
      }
      i := i + 1;
    }
  }

  lemma ClipAllSplit(ds: seq<Datagram>, n: nat, k: nat, m: nat)
    requires n <= k <= |ds|
    ensures ClipAll(ds[..n], m) + ClipAll(ds[n..][..k - n], m) == ClipAll(ds[..k], m)
  {
  }

  /** How a run went: k datagrams were handed over, in order and whole up to the
      size of the buffer, of which `accepted` were counted. Nothing is skipped,
      except that a single read of an empty datagram ends the run. */
  ghost predicate Accounts(s: Run, r: Run, why: Reason, k: nat, accepted: nat, cap: nat, m: nat) {
    && accepted <= k <= |s.queue| && k <= accepted + cap
    && r.handed == s.handed + ClipAll(s.queue[..k], m)
    && (r.queue == s.queue[k..]
        || (why == Stopped && k < |s.queue| && Clip(s.queue[k], m) == [] && r.queue == s.queue[k + 1..]))
    && r.accepted == s.accepted + accepted
    && r.stats.packets == s.stats.packets + accepted
    && r.stats.bytes == s.stats.bytes + TotalSize(ClipAll(s.queue[..accepted], m))
    && r.stats.drops == s.stats.drops && AtMost(s.stats, r.stats)
    && (why == Stopped ==> accepted == k && (r.queue == s.queue[k..] ==> r.queue == []))
  }

  lemma OneTurnAccounts(bulk: bool, turn: Turn, s: Run, cap: nat, m: nat) returns (n: nat)
    requires 0 < cap
    ensures match OneTurn(bulk, turn, s, cap, m)
            case End(r, why) => Accounts(s, r, why, n, 0, cap, m)
            case Continue(r) => n <= |s.queue| && r.queue == s.queue[n..] && Accounts(s, r, Failure, n, n, cap, m)
  {
    assert TotalSize([]) == 0;
    assert ClipAll(s.queue[..0], m) == [];
    hide TotalSize, ClipAll, Take;
    var r := ReadResult(bulk, turn, s.queue, cap, m);
    n := if r.Failed? then 0 else r.count;
    assert s.handed + [] == s.handed && s.queue[0..] == s.queue;
  }

  lemma AccountsCompose(s: Run, t: Run, r: Run, why: Reason, n: nat, k: nat, accepted: nat, cap: nat, m: nat)
    requires n <= |s.queue| && t.queue == s.queue[n..] && Accounts(s, t, Failure, n, n, cap, m)
    requires Accounts(t, r, why, k, accepted, cap, m)
    ensures Accounts(s, r, why, n + k, n + accepted, cap, m)
  {
    hide TotalSize, ClipAll;
    ClipAllSplit(s.queue, n, n + k, m);
    ClipAllSplit(s.queue, n, n + accepted, m);
    TotalSizeConcat(ClipAll(s.queue[..n], m), ClipAll(s.queue[n..][..accepted], m));
    Associative(s.handed, ClipAll(s.queue[..n], m), ClipAll(s.queue[n..][..k], m));
  }

  /** Every run, under every script of outcomes, is accounted for. */
  lemma {:induction false} ForwardAccounts(bulk: bool, script: Script, i: nat, s: Run, cap: nat, m: nat)
    returns (k: nat, accepted: nat)
    requires 0 < cap
    ensures var (r, why) := Forward(bulk, script, i, s, cap, m); Accounts(s, r, why, k, accepted, cap, m)
    decreases |s.queue|
  {
    hide TotalSize, ClipAll, OneTurn, Accounts;
    var n := OneTurnAccounts(bulk, script(i), s, cap, m);
    match OneTurn(bulk, script(i), s, cap, m)
    case End(_, _) => k, accepted := n, 0;
    case Continue(t) =>
      k, accepted := ForwardAccounts(bulk, script, i + 1, t, cap, m);
      var (r, why) := Forward(bulk, script, i + 1, t, cap, m);
      AccountsCompose(s, t, r, why, n, k, accepted, cap, m);
      k, accepted := n + k, n + accepted;
  }

  /** A helper in socket mode: what it hands to vmnet is a prefix of the client's
      stream without the handshake, and all of it when the peer has closed and
      sent no empty datagram. */
  method ServeClient(vm: Endpoint, client: ClientSocket, net: VmnetSink, calls: Connecting, bulk: bool, script: Script)
    returns (ok: bool, reason: Reason, ghost k: nat)
    requires vm.Valid() && client.queue != []
    modifies vm.packets, vm.msgs, vm.iovs, vm.buffers, vm`stats, client, net
    ensures ok <==> !calls.peekFails && !calls.connectFails && (|old(client.queue)[0]| < 64 ==> !calls.readFails)
    ensures !ok ==> client.queue == old(client.queue) && net.handed == old(net.handed)
    ensures vm.stats.fast - old(vm.stats.fast) == client.bulkReads - old(client.bulkReads)
    ensures vm.stats.slow - old(vm.stats.slow) == client.singleReads - old(client.singleReads)
    ensures ok ==>
              var stream := WithoutHandshake(old(client.queue));
              && k <= |stream| && net.handed == old(net.handed) + ClipAll(stream[..k], vm.maxPacketSize)
              && (reason == Stopped && (forall d :: d in stream ==> Clip(d, vm.maxPacketSize) != []) ==> k == |stream|)
  {
    reason, k := Failure, 0;
    ok := ConnectSocket(client, calls);
    if ok {
      ghost var start := StateOf(client, net, vm);
      hide ClipAll, Forward, TotalSize;
      reason := ForwardFromVm(vm, client, net, bulk, script);
      ghost var accepted;
      k, accepted := ForwardAccounts(bulk, script, 0, start, vm.maxPacketCount, vm.maxPacketSize);
    }
  }

  ghost predicate Delivered(s: Run, r: Run, m: nat) {
    r.handed == s.handed + ClipAll(s.queue, m) && r.queue == []
  }

  /** A run that ends because the peer closed has handed over the whole stream,
      for every script, exactly when the stream has no empty datagram: read()
      cannot tell one from a closed socket. */
  lemma WholeStreamIffNoEmptyDatagram(bulk: bool, s: Run, cap: nat, m: nat)
    requires 0 < cap
    ensures (forall script: Script ::
               var (r, why) := Forward(bulk, script, 0, s, cap, m);
               why == Stopped ==> Delivered(s, r, m))
       <==> (forall d :: d in s.queue ==> Clip(d, m) != [])
  {
    if d :| d in s.queue && Clip(d, m) == [] {
      var script: Script := _ => Turn(true, 0, false, false);
      StopsAtEmpty(bulk, script, 0, s, cap, m);
      var (r, why) := Forward(bulk, script, 0, s, cap, m);
      assert !Delivered(s, r, m) by {
        assert |r.handed| < |s.handed| + |s.queue|;
      }
    } else {
      forall script: Script | Forward(bulk, script, 0, s, cap, m).1 == Stopped
        ensures Delivered(s, Forward(bulk, script, 0, s, cap, m).0, m)
      {
        var k, accepted := ForwardAccounts(bulk, script, 0, s, cap, m);
        assert s.queue[..|s.queue|] == s.queue;
      }
    }
  }

  /** A run fails only when read() or vmnet_write() does: a recvmsg_x() that fails
      is made up for. */
  lemma {:induction false} StopsUnlessCallFails(bulk: bool, script: Script, i: nat, s: Run, cap: nat, m: nat)
    requires 0 < cap && forall j :: !script(j).readFails && !script(j).writeFails
    ensures Forward(bulk, script, i, s, cap, m).1 == Stopped
    decreases |s.queue|
  {
    hide TotalSize;
    var n := OneTurn(bulk, script(i), s, cap, m);
    if n.Continue? {
      StopsUnlessCallFails(bulk, script, i + 1, n.s, cap, m);
    }
  }

  /** Reading one at a time with no failures stops early at an empty datagram. */
  lemma {:induction false} StopsAtEmpty(bulk: bool, script: Script, i: nat, s: Run, cap: nat, m: nat)
    requires 0 < cap && exists d :: d in s.queue && Clip(d, m) == []
    requires forall j :: script(j) == Turn(true, 0, false, false)
    ensures var (r, why) := Forward(bulk, script, i, s, cap, m);
            why == Stopped && |r.handed| < |s.handed| + |s.queue|
    decreases |s.queue|
  {
    if Clip(s.queue[0], m) != [] {
      var t := OneTurn(bulk, script(i), s, cap, m).s;
      var d :| d in s.queue && Clip(d, m) == [];
      assert d in s.queue[1..];
      StopsAtEmpty(bulk, script, i + 1, t, cap, m);
    }
  }

  lemma {:induction false} BulkRunsDrain(script: Script, i: nat, s: Run, cap: nat, m: nat)
    requires 0 < cap && forall j :: !script(j).bulkFails && !script(j).writeFails
    ensures var (r, why) := Forward(true, script, i, s, cap, m);
            && why == Stopped && r.queue == [] && |r.handed| == |s.handed| + |s.queue|
            && r.stats.slow == s.stats.slow
    decreases |s.queue|
  {
    hide TotalSize;
    if s.queue != [] {
      BulkRunsDrain(script, i + 1, OneTurn(true, script(i), s, cap, m).s, cap, m);
    }
  }

  /** With every read in bulk an empty datagram is forwarded like any other. */
  lemma BulkReadsDeliverAll(script: Script, s: Run, cap: nat, m: nat)
    requires 0 < cap && forall j :: !script(j).bulkFails && !script(j).writeFails
    ensures var (r, why) := Forward(true, script, 0, s, cap, m);
            why == Stopped && Delivered(s, r, m) && r.stats.slow == s.stats.slow
  {
    BulkRunsDrain(script, 0, s, cap, m);
    var k, accepted := ForwardAccounts(true, script, 0, s, cap, m);
    hide Forward, TotalSize;
    assert s.queue[..|s.queue|] == s.queue;
  }
}
