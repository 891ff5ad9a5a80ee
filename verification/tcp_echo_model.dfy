/**
 The TCP echo server of the single-component application, stated on values.  A client slot
 holds a socket and the bytes received from it that a blocked send has left over.  The
 environment is a script: `sends` are the answers of the successive pico_socket_send calls
 and `recvs` those of pico_socket_recv, any integers and any data at all.
 */
module TcpEchoModel {
  import opened Bytes
  import opened Streams

  const MAX_TCP_CLIENTS: nat := 5
  const TCP_READ_SIZE: nat := 1400
  const PACKET_SIZE: nat := 0x1000

  type Socket = nat
  const NO_SOCKET: Socket := 0

  type Stream = seq<byte>

  datatype Recv = RecvError | RecvData(data: Stream)

  // -------------------------------------------------------------- one send loop

  datatype PushStatus = Drained | Blocked | Failed
  datatype Pushed = Pushed(sent: Stream, rest: Stream, status: PushStatus, left: seq<int>)

  /** The bytes the stack takes of `len` offered; an exhausted script refuses. */
  function SendResult(sends: seq<int>, len: nat): (n: int)
    ensures -1 <= n <= len
  {
    if sends == [] then 0
    else if sends[0] < 0 then -1
    else if sends[0] > len then len
    else sends[0]
  }

  /** Offering `data` again and again until it is gone, or the stack blocks or fails. */
  function Push(data: Stream, sends: seq<int>): Pushed
    decreases |data|
  {
    var n := SendResult(sends, |data|);
    if data == [] then Pushed([], [], Drained, sends)
    else if n == -1 then Pushed([], data, Failed, Rest(sends))
    else if n == 0 then Pushed([], data, Blocked, Rest(sends))
    else
      var p := Push(data[n..], Rest(sends));
      p.(sent := data[..n] + p.sent)
  }

  /** Nothing is skipped, repeated or reordered by a send loop. */
  lemma {:induction false} PushSplits(data: Stream, sends: seq<int>)
    ensures var p := Push(data, sends);
      && p.sent + p.rest == data
      && (p.status.Drained? <==> p.rest == [])
    decreases |data|
  {
    var n := SendResult(sends, |data|);
    if data != [] && n > 0 {
      PushSplits(data[n..], Rest(sends));
      var p := Push(data[n..], Rest(sends));
      Assoc(data[..n], p.sent, p.rest);
    }
  }

  /** How many bytes the stack takes in all before it first answers with zero or an error. */
  function Takes(sends: seq<int>): (n: nat) {
    if sends == [] || sends[0] <= 0 then 0 else sends[0] + Takes(sends[1..])
  }

  /** A send loop goes on as long as the stack takes anything: it sends all that fits. */
  lemma {:induction false} PushSendsWhatFits(data: Stream, sends: seq<int>)
    ensures var p := Push(data, sends);
      && p.sent == data[..if Takes(sends) < |data| then Takes(sends) else |data|]
      && p.rest == data[|p.sent|..]
      && (p.status.Drained? <==> |data| <= Takes(sends))
    decreases |data|
  {
    var n := SendResult(sends, |data|);
    if data != [] && n > 0 {
      PushSendsWhatFits(data[n..], Rest(sends));
      var p := Push(data[n..], Rest(sends));
      assert data[n..][..|p.sent|] == data[n..n + |p.sent|];
      assert data[..n] + data[n..n + |p.sent|] == data[..n + |p.sent|];
      assert data[n..][|p.sent|..] == data[n + |p.sent|..];
    }
  }

  /** Among the answers to an offer of `n` bytes there is an error before it is gone or blocked. */
  predicate SendFails(n: nat, sends: seq<int>)
    decreases n
  {
    var k := SendResult(sends, n);
    n > 0 && (k == -1 || (k > 0 && SendFails(n - k, Rest(sends))))
  }

  lemma {:induction false} PushFailsIff(data: Stream, sends: seq<int>)
    ensures Push(data, sends).status.Failed? <==> SendFails(|data|, sends)
    decreases |data|
  {
    var n := SendResult(sends, |data|);
    if data != [] && n > 0 {
      PushFailsIff(data[n..], Rest(sends));
    }
  }

  // -------------------------------------------------------------- the read loop

  /** `recvCalls` counts the calls to pico_socket_recv, also those that bring nothing. */
  datatype Echoed = Echoed(sent: Stream, received: Stream, pending: Stream, lost: nat, recvCalls: nat,
                           sendsLeft: seq<int>, recvsLeft: seq<Recv>)

  /** pico_socket_recv never returns more than the read size it is given. */
  function Clip(data: Stream): (d: Stream)
    ensures |d| <= TCP_READ_SIZE
  {
    if |data| > TCP_READ_SIZE then data[..TCP_READ_SIZE] else data
  }

  /** Receiving and echoing until there is nothing to read or a send blocks. */
  function Echo(sends: seq<int>, recvs: seq<Recv>): Echoed
    decreases |recvs|
  {
    if recvs == [] then Echoed([], [], [], 0, 1, sends, recvs)
    else if recvs[0].RecvError? || Clip(recvs[0].data) == [] then Echoed([], [], [], 0, 1, sends, recvs[1..])
    else
      var chunk := Clip(recvs[0].data);
      var p := Push(chunk, sends);
      if p.status.Blocked? then Echoed(p.sent, chunk, p.rest, 0, 1, p.left, recvs[1..])
      else
        var e := Echo(p.left, recvs[1..]);
        Echoed(p.sent + e.sent, chunk + e.received, e.pending, |p.rest| + e.lost, 1 + e.recvCalls,
               e.sendsLeft, e.recvsLeft)
  }

  /**
   What the read loop receives is what it sends, then what it leaves pending; only a send
   error discards anything, and then the counts still add up.
   */
  lemma {:induction false} EchoKeepsStream(sends: seq<int>, recvs: seq<Recv>)
    ensures var e := Echo(sends, recvs);
      && |e.received| == |e.sent| + |e.pending| + e.lost
      && (e.lost == 0 ==> e.received == e.sent + e.pending)
    decreases |recvs|
  {
    if recvs != [] && recvs[0].RecvData? && Clip(recvs[0].data) != [] {
      var chunk := Clip(recvs[0].data);
      var p := Push(chunk, sends);
      PushSplits(chunk, sends);
      if !p.status.Blocked? {
        EchoKeepsStream(p.left, recvs[1..]);
        var e := Echo(p.left, recvs[1..]);
        if p.rest == [] {
          assert p.sent == chunk;
          Assoc(p.sent, e.sent, e.pending);
        }
      }
    }
  }

  /** Some chunk that the read loop receives meets a send error. */
  predicate ReadFails(sends: seq<int>, recvs: seq<Recv>)
    decreases |recvs|
  {
    recvs != [] && recvs[0].RecvData? && Clip(recvs[0].data) != [] &&
    var chunk := Clip(recvs[0].data);
    SendFails(|chunk|, sends)
    || (Push(chunk, sends).status.Drained? && ReadFails(Push(chunk, sends).left, recvs[1..]))
  }

  /** The read loop discards bytes exactly when a send of a received chunk fails. */
  lemma {:induction false} EchoLosesIffReadFails(sends: seq<int>, recvs: seq<Recv>)
    ensures Echo(sends, recvs).lost == 0 <==> !ReadFails(sends, recvs)
    decreases |recvs|
  {
    if recvs != [] && recvs[0].RecvData? && Clip(recvs[0].data) != [] {
      var chunk := Clip(recvs[0].data);
      PushFailsIff(chunk, sends);
      PushSplits(chunk, sends);
      if !Push(chunk, sends).status.Blocked? {
        EchoLosesIffReadFails(Push(chunk, sends).left, recvs[1..]);
      }
    }
  }

  /** The failing branch at its simplest: a byte is received, its send fails, and it is gone. */
  lemma SendErrorLosesChunk()
    ensures var e := Echo([-1], [RecvData([7])]);
      && ReadFails([-1], [RecvData([7])])
      && e.received == [7] && e.sent == [] && e.pending == [] && e.lost == 1
  {
    assert Clip([7]) == [7];
    assert Push([7], [-1]) == Pushed([], [7], Failed, []);
    assert [RecvData([7])][1..] == [];
  }

  /**
   Once a send blocks, recv is not called again: the bytes left pending are the end of the
   chunk that the last call brought, and every answer after that one is still unread.
   */
  lemma {:induction false} BlockedReadIsLast(sends: seq<int>, recvs: seq<Recv>)
    ensures var e := Echo(sends, recvs);
      e.pending != [] ==>
        && 1 <= e.recvCalls <= |recvs| && e.recvsLeft == recvs[e.recvCalls..]
        && recvs[e.recvCalls - 1].RecvData?
        && EndsWith(Clip(recvs[e.recvCalls - 1].data), e.pending)
    decreases |recvs|
  {
    if recvs != [] && recvs[0].RecvData? && Clip(recvs[0].data) != [] {
      var chunk := Clip(recvs[0].data);
      var p := Push(chunk, sends);
      PushSplits(chunk, sends);
      if p.status.Blocked? {
        assert chunk[|p.sent|..] == p.rest;
      } else {
        BlockedReadIsLast(p.left, recvs[1..]);
        var e := Echo(p.left, recvs[1..]);
        if e.pending != [] {
          assert recvs[1..][e.recvCalls..] == recvs[e.recvCalls + 1..];
          assert recvs[1..][e.recvCalls - 1] == recvs[e.recvCalls];
        }
      }
    }
  }

  /** The answers used up, of which the last was zero unless there were no more. */
  ghost predicate RefusedAfter(sends: seq<int>, left: seq<int>) {
    |left| <= |sends| && left == sends[|sends| - |left|..]
    && (left == [] || (|left| < |sends| && sends[|sends| - |left| - 1] == 0))
  }

  lemma {:induction false} PushBlockedByZero(data: Stream, sends: seq<int>)
    ensures var p := Push(data, sends);
      && |p.left| <= |sends| && p.left == sends[|sends| - |p.left|..]
      && (p.status.Blocked? ==> RefusedAfter(sends, p.left))
    decreases |data|
  {
    var n := SendResult(sends, |data|);
    if data != [] && n > 0 {
      PushBlockedByZero(data[n..], Rest(sends));
    }
  }

  /** The read loop leaves bytes pending only because a send took none. */
  lemma {:induction false} EchoBlockedByZero(sends: seq<int>, recvs: seq<Recv>)
    ensures var e := Echo(sends, recvs);
      && |e.sendsLeft| <= |sends| && e.sendsLeft == sends[|sends| - |e.sendsLeft|..]
      && (e.pending != [] ==> RefusedAfter(sends, e.sendsLeft))
    decreases |recvs|
  {
    if recvs != [] && recvs[0].RecvData? && Clip(recvs[0].data) != [] {
      var p := Push(Clip(recvs[0].data), sends);
      PushBlockedByZero(Clip(recvs[0].data), sends);
      if !p.status.Blocked? {
        EchoBlockedByZero(p.left, recvs[1..]);
      }
    }
  }

  /** The bytes of a list of answers, each cut to the read size. */
  function AllData(recvs: seq<Recv>): Stream {
    if recvs == [] then []
    else (if recvs[0].RecvData? then Clip(recvs[0].data) else []) + AllData(recvs[1..])
  }

  predicate Brings(r: Recv) {
    r.RecvData? && r.data != []
  }

  /**
   The read loop goes on while there is data and sends do not block: every recv call but the
   last brings some, all of it counts as received, and with nothing left pending the last call
   is one that brought none.
   */
  lemma {:induction false} EchoReadsOn(sends: seq<int>, recvs: seq<Recv>)
    ensures var e := Echo(sends, recvs); var n := e.recvCalls;
      && 1 <= n <= |recvs| + 1 && e.recvsLeft == recvs[if n <= |recvs| then n else |recvs|..]
      && (forall i :: 0 <= i < n - 1 ==> Brings(recvs[i]))
      && (e.pending == [] && n <= |recvs| ==> !Brings(recvs[n - 1]))
      && e.received == AllData(recvs[..if n <= |recvs| then n else |recvs|])
    decreases |recvs|
  {
    if recvs == [] {
      assert recvs[..0] == [];
    } else if recvs[0].RecvError? || Clip(recvs[0].data) == [] {
      assert recvs[..1] == [recvs[0]] && [recvs[0]][1..] == [];
    } else {
      var chunk := Clip(recvs[0].data);
      var p := Push(chunk, sends);
      PushSplits(chunk, sends);
      if p.status.Blocked? {
        assert recvs[..1] == [recvs[0]] && [recvs[0]][1..] == [] && chunk + [] == chunk;
      } else {
        EchoReadsOn(p.left, recvs[1..]);
        var m := Echo(p.left, recvs[1..]).recvCalls;
        var k := if m <= |recvs| - 1 then m else |recvs| - 1;
        assert recvs[..k + 1][0] == recvs[0] && recvs[..k + 1][1..] == recvs[1..][..k];
        assert recvs[1..][k..] == recvs[k + 1..];
      }
    }
  }

  predicate EndsWith(data: Stream, end: Stream) {
    |end| <= |data| && data[|data| - |end|..] == end
  }

  // -------------------------------------------------------------- the callback

  datatype Events = Events(rd: bool, wr: bool, conn: bool, close: bool, fin: bool)

  /** One call of the notification handler, with everything the stack answers during it. */
  datatype Call = Call(events: Events, socket: Socket, accepted: Socket, sends: seq<int>, recvs: seq<Recv>)

  datatype Slot = Slot(socket: Socket, pending: Stream)
  type Server = s: seq<Slot> | |s| == MAX_TCP_CLIENTS
    witness seq(MAX_TCP_CLIENTS, _ => Slot(NO_SOCKET, []))

  /** What a call moved for its client. */
  datatype Traffic = Traffic(sent: Stream, received: Stream, lost: nat, recvCalls: nat)

  function FirstWith(s: seq<Slot>, socket: Socket, from: nat): (i: nat)
    requires from <= |s|
    ensures from <= i <= |s|
    ensures i < |s| ==> s[i].socket == socket
    ensures forall j :: from <= j < i ==> s[j].socket != socket
    decreases |s| - from
  {
    if from == |s| || s[from].socket == socket then from else FirstWith(s, socket, from + 1)
  }

  function ClientOf(s: Server, socket: Socket): (i: nat)
    ensures i < |s| ==> s[i].socket == socket
    ensures i == |s| <==> forall j :: 0 <= j < |s| ==> s[j].socket != socket
  {
    FirstWith(s, socket, 0)
  }

  function AfterAccept(s: Server, c: Call): Server {
    var free := ClientOf(s, NO_SOCKET);
    if c.events.conn && free < |s| then s[free := Slot(c.accepted, [])] else s
  }

  function Resumed(slot: Slot, c: Call): Pushed {
    if c.events.wr && slot.pending != [] then Push(slot.pending, c.sends)
    else Pushed([], slot.pending, if slot.pending == [] then Drained else Blocked, c.sends)
  }

  /** Reading happens on a read event, and after a resumed send has drained. */
  predicate Reads(slot: Slot, c: Call) {
    && Resumed(slot, c).rest == []
    && (c.events.rd || (c.events.wr && slot.pending != []))
  }

  function Served(slot: Slot, c: Call): (Slot, Traffic) {
    var p := Resumed(slot, c);
    if Reads(slot, c) then
      var e := Echo(p.left, c.recvs);
      (slot.(pending := e.pending), Traffic(p.sent + e.sent, e.received, e.lost, e.recvCalls))
    else
      (slot.(pending := p.rest), Traffic(p.sent, [], 0, 0))
  }

  /** The client's slot after its events: closing frees the socket. */
  function AfterEvents(slot: Slot, c: Call): Slot {
    var served := Served(slot, c).0;
    if c.events.fin then served.(socket := NO_SOCKET) else served
  }

  /**
   What the handler demands of its caller: its own two assertions, a client for every event
   that indexes the per-client arrays, and a stack that hands out a socket once at a time.
   */
  predicate CallOk(s: Server, c: Call) {
    && c.socket != NO_SOCKET
    && (c.events.conn ==> ClientOf(s, c.socket) == |s|)
    && (c.events.rd || c.events.wr || c.events.fin ==> ClientOf(s, c.socket) < |s|)
    && (c.accepted != NO_SOCKET ==> ClientOf(s, c.accepted) == |s|)
  }

  function Handle(s: Server, c: Call): (Server, Traffic) {
    var i := ClientOf(s, c.socket);
    var t := AfterAccept(s, c);
    if i == |s| then (t, Traffic([], [], 0, 0))
    else (t[i := AfterEvents(t[i], c)], Served(t[i], c).1)
  }

  /**
   What a call does for a client.  With a write event the pending bytes are sent on as far as
   the stack takes them; when they are all gone, or on a read event with nothing pending, recv
   is called; otherwise nothing is sent, received or forgotten.
   */
  lemma ServedMeans(slot: Slot, c: Call)
    ensures var (after, t) := Served(slot, c);
      var k := if Takes(c.sends) < |slot.pending| then Takes(c.sends) else |slot.pending|;
      && after.socket == slot.socket
      && if c.events.wr && slot.pending != [] then
           && k <= |t.sent| && t.sent[..k] == slot.pending[..k]
           && (k < |slot.pending| ==> |t.sent| == k && after.pending == slot.pending[k..] && t.recvCalls == 0)
           && (k == |slot.pending| ==> t.recvCalls >= 1)
         else if c.events.rd && slot.pending == [] then t.recvCalls >= 1
         else after == slot && t == Traffic([], [], 0, 0)
  {
    if c.events.wr && slot.pending != [] {
      PushSendsWhatFits(slot.pending, c.sends);
    }
    if Reads(slot, c) {
      EchoReadsOn(Resumed(slot, c).left, c.recvs);
    }
  }

  /** The first slot free for a connection, or none. */
  predicate FirstFree(s: Server, i: nat) {
    i < |s| && s[i].socket == NO_SOCKET && forall j :: 0 <= j < i ==> s[j].socket != NO_SOCKET
  }

  /**
   What a call does to the slots: its client is served, and gives up its slot when the
   connection finishes; a new connection takes the first free slot, with nothing pending, or is
   turned away; every other slot stays.
   */
  lemma HandleMeans(s: Server, c: Call, i: nat)
    requires Distinct(s) && CallOk(s, c) && i < |s|
    ensures var (r, t) := Handle(s, c);
      if s[i].socket == c.socket then
        && t == Served(s[i], c).1 && r[i].pending == Served(s[i], c).0.pending
        && r[i].socket == if c.events.fin then NO_SOCKET else c.socket
      else
        r[i] == if c.events.conn && FirstFree(s, i) then Slot(c.accepted, []) else s[i]
    ensures (forall j :: 0 <= j < |s| ==> s[j].socket != c.socket) ==> Handle(s, c).1 == Traffic([], [], 0, 0)
  {
  }

  /** Whether a send error makes this call discard bytes, on the answers it gets. */
  predicate CallFails(slot: Slot, c: Call) {
    Reads(slot, c) && ReadFails(Resumed(slot, c).left, c.recvs)
  }

  lemma ServedLosesIffFails(slot: Slot, c: Call)
    ensures Served(slot, c).1.lost == 0 <==> !CallFails(slot, c)
  {
    EchoLosesIffReadFails(Resumed(slot, c).left, c.recvs);
  }

  /**
   recv is called not once while a send is left pending; and if this call leaves bytes pending
   after reading, they are the end of what the last recv brought.
   */
  lemma NoReadWhilePending(slot: Slot, c: Call)
    ensures Resumed(slot, c).rest != [] ==>
      Served(slot, c).1.recvCalls == 0 && Served(slot, c).0.pending == Resumed(slot, c).rest
    ensures var n := Served(slot, c).1.recvCalls;
      n > 0 && Served(slot, c).0.pending != [] ==>
        n <= |c.recvs| && c.recvs[n - 1].RecvData?
        && EndsWith(Clip(c.recvs[n - 1].data), Served(slot, c).0.pending)
  {
    BlockedReadIsLast(Resumed(slot, c).left, c.recvs);
  }

  /** One call keeps the echo stream of its client. */
  lemma ServedKeepsStream(slot: Slot, c: Call)
    ensures var (slot', t) := Served(slot, c);
      && |slot.pending| + |t.received| == |t.sent| + |slot'.pending| + t.lost
      && (t.lost == 0 ==> slot.pending + t.received == t.sent + slot'.pending)
  {
    var p := Resumed(slot, c);
    PushSplits(slot.pending, c.sends);
    if Reads(slot, c) {
      EchoKeepsStream(p.left, c.recvs);
      assert p.sent == p.sent + p.rest == slot.pending;
      ReadStream(p.sent, Echo(p.left, c.recvs));
    } else {
      assert p.sent + p.rest == slot.pending == slot.pending + [];
    }
  }

  lemma ReadStream(sent: Stream, e: Echoed)
    requires |e.received| == |e.sent| + |e.pending| + e.lost
    requires e.lost == 0 ==> e.received == e.sent + e.pending
    ensures |sent| + |e.received| == |sent + e.sent| + |e.pending| + e.lost
    ensures e.lost == 0 ==> sent + e.received == (sent + e.sent) + e.pending
  {
    Assoc(sent, e.sent, e.pending);
  }

  /** A call touches no slot but its client's, except the free one a new connection takes. */
  lemma OthersUntouched(s: Server, c: Call, j: nat)
    requires j < |s| && j != ClientOf(s, c.socket)
    requires c.events.conn ==> j != ClientOf(s, NO_SOCKET)
    ensures Handle(s, c).0[j] == s[j]
  {
  }

  // -------------------------------------------------------------- whole runs

  /** Everything each live connection has received, sent and lost since it was accepted. */
  datatype World = World(server: Server, received: map<Socket, Stream>, sent: map<Socket, Stream>,
                         lost: map<Socket, nat>)

  function At<T>(m: map<Socket, T>, s: Socket, default: T): T {
    if s in m then m[s] else default
  }

  function Opened(w: World, c: Call): World {
    if c.events.conn && ClientOf(w.server, NO_SOCKET) < MAX_TCP_CLIENTS then
      w.(received := w.received[c.accepted := []], sent := w.sent[c.accepted := []],
         lost := w.lost[c.accepted := 0])
    else w
  }

  function Next(w: World, c: Call): World {
    var (s, t) := Handle(w.server, c);
    var o := Opened(w, c);
    World(s,
          o.received[c.socket := At(o.received, c.socket, []) + t.received],
          o.sent[c.socket := At(o.sent, c.socket, []) + t.sent],
          o.lost[c.socket := At(o.lost, c.socket, 0) + t.lost])
  }

  predicate CallsOk(w: World, cs: seq<Call>)
    decreases |cs|
  {
    cs == [] || (CallOk(w.server, cs[0]) && CallsOk(Next(w, cs[0]), cs[1..]))
  }

  function Run(w: World, cs: seq<Call>): World
    decreases |cs|
  {
    if cs == [] then w else Run(Next(w, cs[0]), cs[1..])
  }

  predicate StreamKept(w: World, i: nat)
    requires i < MAX_TCP_CLIENTS
  {
    var k := w.server[i].socket;
    k != NO_SOCKET ==>
      && |At(w.received, k, [])| == |At(w.sent, k, [])| + |w.server[i].pending| + At(w.lost, k, 0)
      && (At(w.lost, k, 0) == 0 ==> At(w.received, k, []) == At(w.sent, k, []) + w.server[i].pending)
  }

  predicate Distinct(s: Server) {
    forall i, j :: 0 <= i < j < |s| && s[i].socket == s[j].socket ==> s[i].socket == NO_SOCKET
  }

  predicate WorldOk(w: World) {
    Distinct(w.server) && forall i :: 0 <= i < MAX_TCP_CLIENTS ==> StreamKept(w, i)
  }

  /** The slots the zero-initialised globals describe. */
  function NoClients(): Server {
    seq(MAX_TCP_CLIENTS, _ => Slot(NO_SOCKET, []))
  }

  /** Before any connection. */
  function Start(): World {
    World(NoClients(), map[], map[], map[])
  }

  lemma StartIsOk()
    ensures WorldOk(Start())
  {
  }

  lemma HandleKeepsDistinct(s: Server, c: Call)
    requires Distinct(s) && CallOk(s, c)
    ensures Distinct(Handle(s, c).0)
  {
    var t := AfterAccept(s, c);
    assert Distinct(t);
    forall j | 0 <= j < |s|
      ensures Handle(s, c).0[j].socket == t[j].socket || Handle(s, c).0[j].socket == NO_SOCKET
    {
    }
  }

  /** The slot of the call's own client. */
  lemma ClientStreamKept(w: World, c: Call)
    requires WorldOk(w) && CallOk(w.server, c)
    requires ClientOf(w.server, c.socket) < MAX_TCP_CLIENTS
    ensures StreamKept(Next(w, c), ClientOf(w.server, c.socket))
  {
    var i := ClientOf(w.server, c.socket);
    assert StreamKept(w, i);
    var slot := w.server[i];
    ServedKeepsStream(slot, c);
    var (slot', t) := Served(slot, c);
    var v := Next(w, c);
    assert v.server[i].pending == slot'.pending;
    assert v.received[c.socket] == At(w.received, c.socket, []) + t.received;
    assert v.sent[c.socket] == At(w.sent, c.socket, []) + t.sent;
    if v.lost[c.socket] == 0 {
      FlowOn(At(w.received, c.socket, []), At(w.sent, c.socket, []), slot.pending,
             t.received, t.sent, slot'.pending);
    }
  }

  /** The free slot a connection takes, and every other slot. */
  lemma OtherStreamKept(w: World, c: Call, j: nat)
    requires WorldOk(w) && CallOk(w.server, c)
    requires j < MAX_TCP_CLIENTS && j != ClientOf(w.server, c.socket)
    ensures StreamKept(Next(w, c), j)
  {
    assert StreamKept(w, j);
    var v := Next(w, c);
    if c.events.conn && j == ClientOf(w.server, NO_SOCKET) {
      assert v.server[j] == Slot(c.accepted, []);
    } else {
      OthersUntouched(w.server, c, j);
      if w.server[j].socket != NO_SOCKET {
        SameLogs(w, c, w.server[j].socket);
      }
    }
  }

  /** The logs of a connected socket that is neither the call's nor newly accepted. */
  lemma SameLogs(w: World, c: Call, k: Socket)
    requires k != c.socket && (c.events.conn ==> k != c.accepted)
    ensures var v := Next(w, c);
      && At(v.received, k, []) == At(w.received, k, [])
      && At(v.sent, k, []) == At(w.sent, k, [])
      && At(v.lost, k, 0) == At(w.lost, k, 0)
  {
  }

  predicate Opens(w: World, c: Call, k: Socket) {
    c.events.conn && c.accepted == k && ClientOf(w.server, NO_SOCKET) < MAX_TCP_CLIENTS
  }

  /** The call is for connection `k`, and among its answers is an error for a received chunk. */
  predicate FailsFor(w: World, c: Call, k: Socket) {
    var i := ClientOf(w.server, k);
    c.socket == k && i < MAX_TCP_CLIENTS && CallFails(w.server[i], c)
  }

  /** Some call has failed for the connection that `k` names, since it was accepted. */
  predicate ReadFailed(w: World, cs: seq<Call>, k: Socket, before: bool)
    decreases |cs|
  {
    if cs == [] then before
    else ReadFailed(Next(w, cs[0]), cs[1..], k, FailsFor(w, cs[0], k) || (before && !Opens(w, cs[0], k)))
  }

  lemma LostIffFailsFor(w: World, c: Call, k: Socket)
    requires CallOk(w.server, c)
    ensures At(Next(w, c).lost, k, 0) != 0 <==>
              FailsFor(w, c, k) || (At(w.lost, k, 0) != 0 && !Opens(w, c, k))
  {
    var i := ClientOf(w.server, c.socket);
    if i < MAX_TCP_CLIENTS {
      ServedLosesIffFails(w.server[i], c);
    }
  }

  lemma {:induction false} LostIffReadFailed(w: World, cs: seq<Call>, k: Socket)
    requires CallsOk(w, cs)
    ensures At(Run(w, cs).lost, k, 0) != 0 <==> ReadFailed(w, cs, k, At(w.lost, k, 0) != 0)
    decreases |cs|
  {
    if cs != [] {
      LostIffFailsFor(w, cs[0], k);
      LostIffReadFailed(Next(w, cs[0]), cs[1..], k);
    }
  }

  /**
   The echo promise over every run, from start-up: for each live connection the bytes received
   are the bytes sent followed by exactly those pending, if and only if no send of a received
   chunk has answered with an error since the connection was accepted.
   */
  lemma {:induction false} RunEchoesStream(cs: seq<Call>, i: nat)
    requires CallsOk(Start(), cs) && i < MAX_TCP_CLIENTS
    ensures var v := Run(Start(), cs);
      var k := v.server[i].socket;
      k != NO_SOCKET ==>
        (At(v.received, k, []) == At(v.sent, k, []) + v.server[i].pending
         <==> !ReadFailed(Start(), cs, k, false))
  {
    StartIsOk();
    RunKeepsWorld(Start(), cs);
    assert StreamKept(Run(Start(), cs), i);
    LostIffReadFailed(Start(), cs, Run(Start(), cs).server[i].socket);
  }

  const CONNECTS := Call(Events(false, false, true, false, false), 1, 2, [], [])
  const LOSES_BYTE := Call(Events(true, false, false, false, false), 2, NO_SOCKET, [-1], [RecvData([7])])

  /** A run that breaks the promise: one connection, one byte received, and an error for its send. */
  lemma ErrorBreaksEcho() returns (v: World)
    ensures CallsOk(Start(), [CONNECTS, LOSES_BYTE]) && v == Run(Start(), [CONNECTS, LOSES_BYTE])
    ensures v.server[0] == Slot(2, [])
    ensures At(v.received, 2, []) == [7] && At(v.sent, 2, []) == []
  {
    var w := Next(Start(), CONNECTS);
    assert ClientOf(Start().server, NO_SOCKET) == 0;
    assert w.server[0] == Slot(2, []) && ClientOf(w.server, 2) == 0;
    SendErrorLosesChunk();
    v := Next(w, LOSES_BYTE);
    assert [CONNECTS, LOSES_BYTE][1..] == [LOSES_BYTE] && [LOSES_BYTE][1..] == [];
    assert Run(v, []) == v && Run(w, [LOSES_BYTE]) == v;
  }

  lemma {:induction false} RunKeepsWorld(w: World, cs: seq<Call>)
    requires WorldOk(w) && CallsOk(w, cs)
    ensures WorldOk(Run(w, cs))
    decreases |cs|
  {
    if cs != [] {
      NextKeepsWorld(w, cs[0]);
      RunKeepsWorld(Next(w, cs[0]), cs[1..]);
    }
  }

  lemma NextKeepsWorld(w: World, c: Call)
    requires WorldOk(w) && CallOk(w.server, c)
    ensures WorldOk(Next(w, c))
  {
    HandleKeepsDistinct(w.server, c);
    forall i | 0 <= i < MAX_TCP_CLIENTS ensures StreamKept(Next(w, c), i) {
      if i == ClientOf(w.server, c.socket) {
        ClientStreamKept(w, c);
      } else {
        OtherStreamKept(w, c, i);
      }
    }
  }
}
