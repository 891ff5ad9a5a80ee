/**
 The UDP echo handler of the single-component application: one shared packet buffer, the
 length of a datagram whose send was refused, and a counter of read events still owed a
 receive.  The environment is a script of pico_socket_sendto and pico_socket_recvfrom answers.
 */
module UdpEcho {
  import opened Bytes
  import opened Streams

  const UDP_READ_SIZE: nat := 1400
  const PACKET_SIZE: nat := 0x1000
  const COUNTER_RANGE: nat := 0x1_0000_0000_0000_0000

  type Payload = seq<byte>
  type Packet = p: Payload | |p| == PACKET_SIZE witness seq(PACKET_SIZE, _ => 0 as byte)

  type Address = a: nat | a < 0x1_0000_0000
  type Port = p: nat | p < 0x1_0000

  datatype Datagram = Datagram(payload: Payload, address: Address, port: Port)
  datatype RecvFrom = RecvFailed | RecvEmpty | Received(datagram: Datagram)

  datatype Events = Events(rd: bool, wr: bool, err: bool)
  datatype Call = Call(events: Events, sends: seq<int>, recvs: seq<RecvFrom>)

  /** The handler's globals. */
  datatype State = State(packet: Packet, pendingLen: int, origin: Address, port: Port, rxQueued: nat)

  ghost predicate StateOk(s: State) {
    && s.rxQueued < COUNTER_RANGE
    && (s.pendingLen == -1 || 0 < s.pendingLen <= UDP_READ_SIZE)
  }

  /** The datagram whose send was refused, as a later resend will send it. */
  function Pending(s: State): (q: seq<Datagram>)
    ensures |q| <= 1
  {
    if 0 <= s.pendingLen <= PACKET_SIZE then [Datagram(s.packet[..s.pendingLen], s.origin, s.port)] else []
  }

  /** -1 is an error and 0 a full socket; an exhausted script is full. */
  function SendResult(sends: seq<int>): int {
    if sends == [] then 0 else if sends[0] < 0 then -1 else sends[0]
  }

  /** pico_socket_recvfrom cuts a datagram to the read size, and an empty one reads as empty. */
  function RecvResult(recvs: seq<RecvFrom>): (r: RecvFrom)
    ensures r.Received? ==> 0 < |r.datagram.payload| <= UDP_READ_SIZE
  {
    if recvs == [] then RecvEmpty
    else if !recvs[0].Received? then recvs[0]
    else
      var d := recvs[0].datagram;
      if d.payload == [] then RecvEmpty
      else if |d.payload| > UDP_READ_SIZE then Received(d.(payload := d.payload[..UDP_READ_SIZE]))
      else Received(d)
  }

  /** The buffer and peer address after a successful receive. */
  function Stored(s: State, d: Datagram): State
    requires |d.payload| <= UDP_READ_SIZE
  {
    s.(packet := d.payload + s.packet[|d.payload|..], origin := d.address, port := d.port)
  }

  /** What a call did: datagrams received and echoed, and calls made to recvfrom. */
  datatype Outcome = Outcome(state: State, received: seq<Datagram>, echoed: seq<Datagram>, recvCalls: nat)

  function ReceiveLoop(s: State, sends: seq<int>, recvs: seq<RecvFrom>): Outcome
    decreases s.rxQueued
  {
    if s.rxQueued == 0 then Outcome(s, [], [], 0)
    else
      var t := s.(rxQueued := s.rxQueued - 1);
      match RecvResult(recvs)
      case Received(d) =>
        var u := Stored(t, d);
        if SendResult(sends) <= 0 then Outcome(u.(pendingLen := |d.payload|), [d], [], 1)
        else
          var o := ReceiveLoop(u, Rest(sends), Rest(recvs));
          o.(received := [d] + o.received, echoed := [d] + o.echoed, recvCalls := 1 + o.recvCalls)
      case _ => Outcome(t, [], [], 1)
  }

  function Counted(s: State, e: Events): State {
    if e.rd then s.(rxQueued := (s.rxQueued + 1) % COUNTER_RANGE) else s
  }

  function Handle(s: State, c: Call): Outcome {
    var t := Counted(s, c.events);
    if c.events.wr && t.pendingLen != -1 then
      if SendResult(c.sends) <= 0 then Outcome(t, [], [], 0)
      else
        var o := ReceiveLoop(t.(pendingLen := -1), Rest(c.sends), c.recvs);
        o.(echoed := Pending(t) + o.echoed)
    else ReceiveLoop(t, c.sends, c.recvs)
  }

  // ------------------------------------------------------------------ one call

  /** Datagrams are echoed in the order received, each whole and to its own peer. */
  predicate Kept(s: State, c: Call) {
    var o := Handle(s, c);
    Pending(s) + o.received == o.echoed + Pending(o.state)
  }

  /** With nothing pending, or a write event, or no receive to do, a call is safe. */
  predicate Safe(s: State, e: Events) {
    s.pendingLen == -1 || e.wr || Counted(s, e).rxQueued == 0
  }

  lemma StoredIsPending(s: State, d: Datagram)
    requires |d.payload| <= UDP_READ_SIZE
    ensures Pending(Stored(s, d).(pendingLen := |d.payload|)) == [d]
  {
    var u := Stored(s, d);
    assert u.packet[..|d.payload|] == d.payload;
  }

  lemma {:induction false} ReceiveLoopKeeps(s: State, sends: seq<int>, recvs: seq<RecvFrom>)
    requires StateOk(s)
    ensures var o := ReceiveLoop(s, sends, recvs);
      && StateOk(o.state)
      && o.state.rxQueued + o.recvCalls == s.rxQueued
      && (s.pendingLen == -1 ==> o.received == o.echoed + Pending(o.state))
    decreases s.rxQueued
  {
    if s.rxQueued > 0 {
      var t := s.(rxQueued := s.rxQueued - 1);
      match RecvResult(recvs)
      case Received(d) =>
        var u := Stored(t, d);
        StoredIsPending(t, d);
        if SendResult(sends) > 0 {
          ReceiveLoopKeeps(u, Rest(sends), Rest(recvs));
          var o := ReceiveLoop(u, Rest(sends), Rest(recvs));
          Assoc([d], o.echoed, Pending(o.state));
        }
      case _ =>
    }
  }

  /** Every read event is owed one recvfrom call, whatever the socket answers. */
  lemma HandleCountsReads(s: State, c: Call)
    requires StateOk(s)
    ensures var o := Handle(s, c);
      && StateOk(o.state)
      && (o.state.rxQueued + o.recvCalls) % COUNTER_RANGE
           == (s.rxQueued + if c.events.rd then 1 else 0) % COUNTER_RANGE
  {
    var t := Counted(s, c.events);
    HandleKeepsCount(s, c);
    assert t.rxQueued == (s.rxQueued + if c.events.rd then 1 else 0) % COUNTER_RANGE;
  }

  lemma HandleKeepsCount(s: State, c: Call)
    requires StateOk(s)
    ensures StateOk(Counted(s, c.events)) && StateOk(Handle(s, c).state)
    ensures Handle(s, c).state.rxQueued + Handle(s, c).recvCalls == Counted(s, c.events).rxQueued
  {
    var t := Counted(s, c.events);
    if c.events.wr && t.pendingLen != -1 {
      ReceiveLoopKeeps(t.(pendingLen := -1), Rest(c.sends), c.recvs);
    } else {
      ReceiveLoopKeeps(t, c.sends, c.recvs);
    }
  }

  lemma SafeCallKeeps(s: State, c: Call)
    requires StateOk(s) && Safe(s, c.events)
    ensures Kept(s, c)
  {
    var t := Counted(s, c.events);
    assert Pending(t) == Pending(s);
    if c.events.wr && t.pendingLen != -1 {
      if SendResult(c.sends) <= 0 {
        assert Pending(s) + [] == [] + Pending(s);
      } else {
        var u := t.(pendingLen := -1);
        ReceiveLoopKeeps(u, Rest(c.sends), c.recvs);
        var o := ReceiveLoop(u, Rest(c.sends), c.recvs);
        Assoc(Pending(s), o.echoed, Pending(o.state));
      }
    } else if t.rxQueued == 0 {
      assert Pending(s) + [] == [] + Pending(s);
    } else {
      ReceiveLoopKeeps(t, c.sends, c.recvs);
      var o := ReceiveLoop(t, c.sends, c.recvs);
      assert [] + o.received == o.received;
    }
  }

  /** The answers that overwrite a pending datagram: one more datagram, from another peer. */
  function Clobber(s: State, e: Events): Call {
    Call(e, [1], [Received(FromElsewhere(s))])
  }

  /** A datagram of one byte from another address than the one stored. */
  function FromElsewhere(s: State): Datagram {
    Datagram([0], if s.origin == 0 then 1 else 0, s.port)
  }

  lemma UnsafeCallLoses(s: State, e: Events)
    requires StateOk(s) && !Safe(s, e)
    ensures !Kept(s, Clobber(s, e))
  {
    var c := Clobber(s, e);
    var d := FromElsewhere(s);
    var t := Counted(s, e);
    assert RecvResult(c.recvs) == Received(d);
    assert Rest(c.recvs) == [] && RecvResult([]) == RecvEmpty;
    var o := Handle(s, c);
    assert o == ReceiveLoop(t, c.sends, c.recvs);
    assert o.echoed[0] == d;
    assert (o.echoed + Pending(o.state))[0] == d;
    assert (Pending(s) + o.received)[0] == Pending(s)[0] != d;
  }

  /**
   The handler's header says it stops receiving while a send is blocked, but the receive loop
   does not test for that.  The echo holds for every answer of the socket exactly for the
   calls in which a pending datagram is either resent first or not followed by a receive.
   */
  lemma KeptIffSafe(s: State, e: Events)
    requires StateOk(s)
    ensures Safe(s, e) <==> forall sends, recvs :: Kept(s, Call(e, sends, recvs))
  {
    if Safe(s, e) {
      forall sends, recvs ensures Kept(s, Call(e, sends, recvs)) {
        SafeCallKeeps(s, Call(e, sends, recvs));
      }
    } else {
      UnsafeCallLoses(s, e);
      var c := Clobber(s, e);
      assert !Kept(s, Call(e, c.sends, c.recvs));
    }
  }

  // ------------------------------------------------------------------ what a call does

  /** How many of the first `n` rounds bring a datagram and have its send taken, without a gap. */
  function Rounds(sends: seq<int>, recvs: seq<RecvFrom>, n: nat): (k: nat)
    ensures k <= n
  {
    if n == 0 || recvs == [] || !RecvResult(recvs).Received? || sends == [] || sends[0] <= 0 then 0
    else 1 + Rounds(sends[1..], recvs[1..], n - 1)
  }

  /** The datagrams among the first `n` answers. */
  function Incoming(recvs: seq<RecvFrom>, n: nat): seq<Datagram> {
    if n == 0 then []
    else
      (match RecvResult(recvs) case Received(d) => [d] case _ => []) + Incoming(Rest(recvs), n - 1)
  }

  /**
   The receive loop goes on while read events are queued, datagrams come and their sends are
   taken; each such datagram is echoed, and the round that ends the loop early is counted too.
   */
  lemma {:induction false} ReceiveLoopMeans(s: State, sends: seq<int>, recvs: seq<RecvFrom>)
    ensures var o := ReceiveLoop(s, sends, recvs); var k := Rounds(sends, recvs, s.rxQueued);
      && o.recvCalls == (if k < s.rxQueued then k + 1 else k)
      && o.received == Incoming(recvs, o.recvCalls)
      && o.echoed == Incoming(recvs, k)
    decreases s.rxQueued
  {
    if s.rxQueued > 0 {
      match RecvResult(recvs)
      case Received(d) =>
        if SendResult(sends) > 0 {
          ReceiveLoopMeans(Stored(s.(rxQueued := s.rxQueued - 1), d), Rest(sends), Rest(recvs));
        }
      case _ =>
    }
  }

  /**
   A write event resends the pending datagram first; if that is refused nothing else happens.
   Otherwise the queued read events are served until an answer ends the loop.
   */
  lemma HandleMeans(s: State, c: Call)
    requires StateOk(s)
    ensures var o, t := Handle(s, c), Counted(s, c.events);
      var resends := c.events.wr && s.pendingLen != -1;
      var pending := if resends then [Datagram(s.packet[..s.pendingLen], s.origin, s.port)] else [];
      var sends := if resends then Rest(c.sends) else c.sends;
      if resends && (c.sends == [] || c.sends[0] <= 0) then o == Outcome(t, [], [], 0)
      else
        && var k := Rounds(sends, c.recvs, t.rxQueued);
        && o.recvCalls == (if k < t.rxQueued then k + 1 else k)
        && o.received == Incoming(c.recvs, o.recvCalls)
        && o.echoed == pending + Incoming(c.recvs, k)
  {
    var t := Counted(s, c.events);
    if c.events.wr && t.pendingLen != -1 {
      ReceiveLoopMeans(t.(pendingLen := -1), Rest(c.sends), c.recvs);
    } else {
      ReceiveLoopMeans(t, c.sends, c.recvs);
      var echoed := Incoming(c.recvs, Rounds(c.sends, c.recvs, t.rxQueued));
      assert [] + echoed == echoed;
    }
  }

  /** A read event adds one to the counter, which is 64 bits wide, and nothing else changes. */
  lemma CountedMeans(s: State, e: Events)
    requires StateOk(s)
    ensures Counted(s, e) == s.(rxQueued := Counted(s, e).rxQueued)
    ensures Counted(s, e).rxQueued ==
      if !e.rd then s.rxQueued else if s.rxQueued == 0xffff_ffff_ffff_ffff then 0 else s.rxQueued + 1
  {
  }

  // ------------------------------------------------------------------ whole runs

  datatype Log = Log(received: seq<Datagram>, echoed: seq<Datagram>, readEvents: nat, recvCalls: nat)

  function Logged(l: Log, s: State, c: Call): Log {
    var o := Handle(s, c);
    Log(l.received + o.received, l.echoed + o.echoed,
        l.readEvents + (if c.events.rd then 1 else 0), l.recvCalls + o.recvCalls)
  }

  function Run(s: State, l: Log, cs: seq<Call>): (State, Log)
    decreases |cs|
  {
    if cs == [] then (s, l) else Run(Handle(s, cs[0]).state, Logged(l, s, cs[0]), cs[1..])
  }

  predicate SafeRun(s: State, cs: seq<Call>)
    decreases |cs|
  {
    cs == [] || (Safe(s, cs[0].events) && SafeRun(Handle(s, cs[0]).state, cs[1..]))
  }

  predicate Accounted(s: State, l: Log) {
    (s.rxQueued + l.recvCalls) % COUNTER_RANGE == l.readEvents % COUNTER_RANGE
  }

  lemma ModAdd(a: nat, b: nat, c: nat)
    requires a % COUNTER_RANGE == b % COUNTER_RANGE
    ensures (a + c) % COUNTER_RANGE == (b + c) % COUNTER_RANGE
  {
    assert (a - b) % COUNTER_RANGE == 0;
    assert (a + c) - (b + c) == a - b;
  }

  /** Over every run: queued read events plus recvfrom calls are the read events seen. */
  lemma {:induction false} RunCountsReads(s: State, l: Log, cs: seq<Call>)
    requires StateOk(s) && Accounted(s, l)
    ensures var (t, m) := Run(s, l, cs);
      StateOk(t) && Accounted(t, m)
    decreases |cs|
  {
    if cs != [] {
      var c := cs[0];
      var o := Handle(s, c);
      HandleCountsReads(s, c);
      var rd := if c.events.rd then 1 else 0;
      ModAdd(s.rxQueued + l.recvCalls, l.readEvents, rd);
      ModAdd(o.state.rxQueued + o.recvCalls, s.rxQueued + rd, l.recvCalls);
      RunCountsReads(o.state, Logged(l, s, c), cs[1..]);
    }
  }

  /** Over every run of safe calls: received is echoed, in order, then at most one pending. */
  lemma {:induction false} SafeRunEchoes(s: State, l: Log, cs: seq<Call>)
    requires StateOk(s) && SafeRun(s, cs)
    requires l.received == l.echoed + Pending(s)
    ensures var (t, m) := Run(s, l, cs);
      m.received == m.echoed + Pending(t)
    decreases |cs|
  {
    if cs != [] {
      var c := cs[0];
      var o := Handle(s, c);
      HandleCountsReads(s, c);
      SafeCallKeeps(s, c);
      FlowOn(l.received, l.echoed, Pending(s), o.received, o.echoed, Pending(o.state));
      SafeRunEchoes(o.state, Logged(l, s, c), cs[1..]);
    }
  }

  // ------------------------------------------------------------------ the handler

  class Server {
    var udpDataPacket: Packet
    var pendingLen: int
    var udpOrig: Address
    var udpRemotePort: Port
    var rxQueued: nat

    ghost function View(): State
      reads this
    {
      State(udpDataPacket, pendingLen, udpOrig, udpRemotePort, rxQueued)
    }

    constructor ()
      ensures StateOk(View()) && Pending(View()) == [] && rxQueued == 0
    {
      udpDataPacket := seq(PACKET_SIZE, _ => 0 as byte);
      pendingLen, udpOrig, udpRemotePort, rxQueued := -1, 0, 0, 0;
    }

    /** handle_udp_picoserver_notification */
    method HandleNotification(c: Call) returns (received: seq<Datagram>, echoed: seq<Datagram>, recvCalls: nat)
      requires StateOk(View())
      modifies this
      ensures Outcome(View(), received, echoed, recvCalls) == Handle(old(View()), c)
    {
      received, echoed, recvCalls := [], [], 0;
      var sends := c.sends;
      if c.events.rd {
        rxQueued := (rxQueued + 1) % COUNTER_RANGE;
      }
      if c.events.wr && pendingLen != -1 {
        var sent := SendResult(sends);
        if sent == -1 {
          return;
        }
        if sent == 0 {
          return;
        }
        sends := Rest(sends);
        echoed := [Datagram(udpDataPacket[..pendingLen], udpOrig, udpRemotePort)];
        pendingLen := -1;
      }
      var out;
      received, out, recvCalls := Receive(sends, c.recvs);
      echoed := echoed + out;
    }

    /** The receive loop: one datagram in, and out again, for each queued read event. */
    method Receive(sends: seq<int>, recvs: seq<RecvFrom>)
      returns (received: seq<Datagram>, echoed: seq<Datagram>, recvCalls: nat)
      modifies this
      ensures Outcome(View(), received, echoed, recvCalls) == ReceiveLoop(old(View()), sends, recvs)
    {
      received, echoed, recvCalls := [], [], 0;
      ghost var whole := ReceiveLoop(View(), sends, recvs);
      var sendsLeft, recvsLeft := sends, recvs;
      Starts(whole);
      while rxQueued > 0
        invariant Continues(whole, received, echoed, recvCalls, ReceiveLoop(View(), sendsLeft, recvsLeft))
        decreases rxQueued
      {
        OneReceive(whole, received, echoed, recvCalls, View(), sendsLeft, recvsLeft);
        var ret, sent := ReceiveOne(sendsLeft, recvsLeft);
        recvCalls := recvCalls + 1;
        if !ret.Received? {
          return;
        }
        received := received + [ret.datagram];
        if sent <= 0 {
          return;
        }
        sendsLeft, recvsLeft := Rest(sendsLeft), Rest(recvsLeft);
        echoed := echoed + [ret.datagram];
      }
    }

    /** One pass of the receive loop, up to the answer of its send. */
    method ReceiveOne(sends: seq<int>, recvs: seq<RecvFrom>) returns (ret: RecvFrom, sent: int)
      requires rxQueued > 0
      modifies this
      ensures ret == RecvResult(recvs) && sent == SendResult(sends)
      ensures var t := old(View()).(rxQueued := old(rxQueued) - 1);
        View() == if !ret.Received? then t
                  else if sent <= 0 then Stored(t, ret.datagram).(pendingLen := |ret.datagram.payload|)
                  else Stored(t, ret.datagram)
    {
      ret, sent := RecvResult(recvs), SendResult(sends);
      rxQueued := rxQueued - 1;
      if !ret.Received? {
        return;
      }
      var d := ret.datagram;
      udpDataPacket := d.payload + udpDataPacket[|d.payload|..];
      udpOrig, udpRemotePort := d.address, d.port;
      if sent == -1 {
        pendingLen := |d.payload|;
        return;
      }
      if sent == 0 {
        pendingLen := |d.payload|;
        return;
      }
    }
  }

  ghost predicate Continues(whole: Outcome, received: seq<Datagram>, echoed: seq<Datagram>, calls: nat, rest: Outcome) {
    whole == Outcome(rest.state, received + rest.received, echoed + rest.echoed, calls + rest.recvCalls)
  }

  lemma Starts(whole: Outcome)
    ensures Continues(whole, [], [], 0, whole)
  {
  }

  /** One pass of the receive loop ends it as ReceiveLoop says, or carries it on. */
  lemma OneReceive(whole: Outcome, received: seq<Datagram>, echoed: seq<Datagram>, calls: nat,
                   s: State, sends: seq<int>, recvs: seq<RecvFrom>)
    requires s.rxQueued > 0
    requires Continues(whole, received, echoed, calls, ReceiveLoop(s, sends, recvs))
    ensures var t := s.(rxQueued := s.rxQueued - 1);
      match RecvResult(recvs)
      case Received(d) =>
        if SendResult(sends) <= 0 then
          whole == Outcome(Stored(t, d).(pendingLen := |d.payload|), received + [d], echoed, calls + 1)
        else
          Continues(whole, received + [d], echoed + [d], calls + 1,
                    ReceiveLoop(Stored(t, d), Rest(sends), Rest(recvs)))
      case _ => whole == Outcome(t, received, echoed, calls + 1)
  {
    var t := s.(rxQueued := s.rxQueued - 1);
    match RecvResult(recvs)
    case Received(d) =>
      if SendResult(sends) > 0 {
        var o := ReceiveLoop(Stored(t, d), Rest(sends), Rest(recvs));
        Assoc(received, [d], o.received);
        Assoc(echoed, [d], o.echoed);
      }
    case _ =>
  }
}
