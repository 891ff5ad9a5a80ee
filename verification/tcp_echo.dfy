/**
 The TCP echo handler as it runs: a first-match search over the clients, and the send and
 receive loops that update a client's saved-write fields in place.  The source keeps these
 fields in five parallel arrays indexed by client; here each index is one object.
 */
module TcpEcho {
  import opened Bytes
  import opened Streams
  import opened TcpEchoModel

  type Packet = p: Stream | |p| == PACKET_SIZE witness seq(PACKET_SIZE, _ => 0 as byte)

  /** Index `i` of connected, write_pending, remaining_payload, sent_payload and data_packet. */
  class Client {
    var connected: Socket
    var writePending: bool
    var remainingPayload: nat
    var sentPayload: nat
    var dataPacket: Packet

    ghost predicate Valid()
      reads this
    {
      && sentPayload + remainingPayload <= PACKET_SIZE
      && (writePending ==> remainingPayload > 0)
    }

    ghost function Saved(): Stream
      requires sentPayload + remainingPayload <= PACKET_SIZE
      reads this
    {
      dataPacket[sentPayload..sentPayload + remainingPayload]
    }

    /** The bytes this client still has to send. */
    ghost function Pending(): Stream
      requires Valid()
      reads this
    {
      if writePending then Saved() else []
    }

    ghost function View(): Slot
      requires Valid()
      reads this
    {
      Slot(connected, Pending())
    }

    constructor ()
      ensures Valid() && View() == Slot(NO_SOCKET, [])
    {
      connected, writePending, remainingPayload, sentPayload := NO_SOCKET, false, 0, 0;
      dataPacket := seq(PACKET_SIZE, _ => 0 as byte);
    }

    /**
     Resending a saved write on a write event: from `sentPayload` on, until it is all gone
     (which clears the flag), the stack blocks, or the send fails.
     */
    method ResumeWrite(sends: seq<int>) returns (sent: Stream, left: seq<int>)
      requires Valid() && writePending
      modifies this
      ensures Valid() && connected == old(connected)
      ensures var p := Push(old(Pending()), sends);
        sent == p.sent && left == p.left && Pending() == p.rest
    {
      ghost var whole := Push(Pending(), sends);
      sent, left := [], sends;
      while remainingPayload > 0
        invariant sentPayload + remainingPayload <= PACKET_SIZE && writePending && connected == old(connected)
        invariant PushContinues(whole, sent, Saved(), left)
        decreases remainingPayload
      {
        PushOneAnswer(whole, sent, Saved(), left);
        var n, out := SendSaved(left);
        left := Rest(left);
        if n == -1 {
          return;
        }
        if n == 0 {
          writePending := true;
          return;
        }
        sent := sent + out;
      }
      writePending := false;
    }

    /** One pico_socket_send of the saved bytes, and the bookkeeping for what it took. */
    method SendSaved(sends: seq<int>) returns (n: int, out: Stream)
      requires sentPayload + remainingPayload <= PACKET_SIZE
      modifies this`remainingPayload, this`sentPayload
      ensures n == SendResult(sends, |old(Saved())|)
      ensures var m := if n > 0 then n else 0;
        && sentPayload + remainingPayload <= PACKET_SIZE && remainingPayload == old(remainingPayload) - m
        && out == old(Saved())[..m] && Saved() == old(Saved())[m..]
    {
      n, out := SendResult(sends, remainingPayload), [];
      if n > 0 {
        out := dataPacket[sentPayload..sentPayload + n];
        remainingPayload := remainingPayload - n;
        sentPayload := sentPayload + n;
      }
    }

    /** Receiving and echoing while no send is left pending. */
    method ReadEcho(sends: seq<int>, recvs: seq<Recv>)
      returns (sent: Stream, received: Stream, lost: nat, recvCalls: nat, sendsLeft: seq<int>, recvsLeft: seq<Recv>)
      requires Valid() && !writePending
      modifies this
      ensures Valid() && connected == old(connected)
      ensures Echoed(sent, received, Pending(), lost, recvCalls, sendsLeft, recvsLeft) == Echo(sends, recvs)
    {
      sent, received, lost, recvCalls, sendsLeft, recvsLeft := [], [], 0, 0, sends, recvs;
      ghost var whole := Echo(sends, recvs);
      while !writePending
        invariant Valid() && connected == old(connected)
        invariant !writePending ==> EchoContinues(whole, sent, received, lost, recvCalls, Echo(sendsLeft, recvsLeft))
        invariant writePending ==> whole == Echoed(sent, received, Pending(), lost, recvCalls, sendsLeft, recvsLeft)
        decreases |recvsLeft|, !writePending
      {
        EchoOneChunk(whole, sent, received, lost, recvCalls, sendsLeft, recvsLeft);
        recvCalls := recvCalls + 1;
        if recvsLeft == [] {
          break;
        }
        var r := recvsLeft[0];
        recvsLeft := recvsLeft[1..];
        if r.RecvError? || Clip(r.data) == [] {
          break;
        }
        var chunk := Clip(r.data);
        var out, status;
        out, status, sendsLeft := EchoChunk(chunk, sendsLeft);
        sent, received := sent + out, received + chunk;
        if status.Failed? {
          lost := lost + (|chunk| - |out|);
        }
      }
    }

    /** The write branch, which turns into a read once it drains, and the read branch. */
    method WriteAndRead(c: Call) returns (t: Traffic)
      requires Valid()
      modifies this
      ensures Valid()
      ensures (View(), t) == Served(old(View()), c)
    {
      var rd, sendsLeft, recvsLeft := c.events.rd, c.sends, c.recvs;
      var sent, received, lost, recvCalls := [], [], 0, 0;
      if c.events.wr && writePending {
        sent, sendsLeft := ResumeWrite(sendsLeft);
        if !writePending {
          rd := true;
        }
      }
      if rd && !writePending {
        var out;
        out, received, lost, recvCalls, sendsLeft, recvsLeft := ReadEcho(sendsLeft, recvsLeft);
        sent := sent + out;
      }
      t := Traffic(sent, received, lost, recvCalls);
    }

    /** The branches of the handler for this client's own events. */
    method ServeEvents(c: Call) returns (t: Traffic)
      requires Valid()
      modifies this
      ensures Valid()
      ensures View() == AfterEvents(old(View()), c) && t == Served(old(View()), c).1
    {
      t := WriteAndRead(c);
      if c.events.fin {
        connected := NO_SOCKET;
      }
    }

    /** Remembering the part of the packet that is still to be sent. */
    method Save(ghost chunk: Stream, done: nat, ret: nat)
      requires Valid() && 0 < ret && done + ret == |chunk| <= PACKET_SIZE && dataPacket[..|chunk|] == chunk
      modifies this`writePending, this`remainingPayload, this`sentPayload
      ensures Valid() && writePending && Pending() == chunk[done..]
    {
      CopiedChunk(dataPacket, chunk, done, ret);
      writePending, remainingPayload, sentPayload := true, ret, done;
    }

    /** One received chunk: sent at once, or saved for the next write event if sending blocks. */
    method EchoChunk(chunk: Stream, sends: seq<int>)
      returns (sent: Stream, status: PushStatus, left: seq<int>)
      requires Valid() && !writePending && 0 < |chunk| <= TCP_READ_SIZE
      modifies this
      ensures Valid() && connected == old(connected)
      ensures var p := Push(chunk, sends);
        && sent == p.sent && status == p.status && left == p.left
        && writePending == p.status.Blocked?
        && Pending() == if p.status.Blocked? then p.rest else []
    {
      dataPacket := chunk + dataPacket[|chunk|..];
      ghost var packet := dataPacket;
      var ret: nat, done: nat := |chunk|, 0;
      sent, status, left := [], Drained, sends;
      ghost var whole := Push(chunk, sends);
      while ret > 0
        invariant done + ret == |chunk| && dataPacket == packet && packet[..|chunk|] == chunk
        invariant !writePending && Valid() && connected == old(connected) && status == Drained
        invariant PushContinues(whole, sent, chunk[done..], left)
        decreases ret
      {
        PushOneAnswer(whole, sent, chunk[done..], left);
        var n := SendResult(left, ret);
        left := Rest(left);
        if n == -1 {
          status := Failed;
          return;
        }
        if n == 0 {
          Save(chunk, done, ret);
          status := Blocked;
          return;
        }
        CopiedChunk(packet, chunk, done, n);
        sent := sent + dataPacket[done..done + n];
        ret, done := ret - n, done + n;
      }
    }
  }

  class EchoServer {
    ghost var model: Server
    var clients: array<Client>

    /** Each index of the client arrays holds its slot of the model. */
    ghost predicate Valid()
      reads this, clients, clients[..]
    {
      && clients.Length == MAX_TCP_CLIENTS
      && (forall i, j :: 0 <= i < j < MAX_TCP_CLIENTS ==> clients[i] != clients[j])
      && (forall i :: 0 <= i < MAX_TCP_CLIENTS ==> clients[i].Valid() && clients[i].View() == model[i])
    }

    /** The globals at start-up: no client anywhere. */
    constructor ()
      ensures Valid() && model == NoClients()
      ensures fresh(clients) && fresh(clients[..])
    {
      var first := new Client();
      clients := new Client[MAX_TCP_CLIENTS](_ => first);
      model := NoClients();
      new;
      for i := 1 to MAX_TCP_CLIENTS
        invariant fresh(clients) && fresh(clients[..]) && clients.Length == MAX_TCP_CLIENTS && model == NoClients()
        invariant forall j, k :: 0 <= j < k < i ==> clients[j] != clients[k]
        invariant forall j :: 0 <= j < MAX_TCP_CLIENTS ==>
          clients[j].Valid() && clients[j].View() == Slot(NO_SOCKET, [])
      {
        clients[i] := new Client();
      }
    }

    /** The search loops of the handler: the first client with this socket, or the count. */
    method FindClient(socket: Socket) returns (i: nat)
      requires Valid()
      ensures i == ClientOf(model, socket)
    {
      i := 0;
      while i < MAX_TCP_CLIENTS
        invariant i <= MAX_TCP_CLIENTS
        invariant ClientOf(model, socket) == FirstWith(model, socket, i)
      {
        if clients[i].connected == socket {
          assert model[i].socket == socket;
          return;
        }
        assert model[i].socket != socket;
        i := i + 1;
      }
    }

    /** handle_tcp_picoserver_notification, returning what it sent, received and discarded. */
    method HandleNotification(c: Call) returns (t: Traffic)
      requires Valid() && CallOk(model, c)
      modifies this`model, clients[..]
      ensures Valid()
      ensures (model, t) == Handle(old(model), c)
    {
      var clientId := FindClient(c.socket);
      if c.events.conn {
        Accept(c);
      }
      t := Traffic([], [], 0, 0);
      if clientId < MAX_TCP_CLIENTS {
        t := Serve(clientId, c);
      }
    }

    /** The new-connection branch: the first free index takes the accepted socket. */
    method Accept(c: Call)
      requires Valid() && c.events.conn
      modifies this`model, clients[..]
      ensures Valid()
      ensures model == AfterAccept(old(model), c)
    {
      var free := FindClient(NO_SOCKET);
      if free < MAX_TCP_CLIENTS {
        var client := clients[free];
        client.connected := c.accepted;
        client.writePending := false;
        model := model[free := Slot(c.accepted, [])];
      }
    }

    /** The branches for a known client. */
    method Serve(i: nat, c: Call) returns (t: Traffic)
      requires Valid() && i < MAX_TCP_CLIENTS
      modifies this`model, clients[i]
      ensures Valid()
      ensures model == old(model)[i := AfterEvents(old(model)[i], c)]
      ensures t == Served(old(model)[i], c).1
    {
      t := clients[i].ServeEvents(c);
      model := model[i := clients[i].View()];
    }
  }

  /** The chunk as it lies in the packet buffer, from `done` on. */
  lemma CopiedChunk(packet: Packet, chunk: Stream, done: nat, n: nat)
    requires |chunk| <= PACKET_SIZE && packet[..|chunk|] == chunk
    requires done + n <= |chunk|
    ensures packet[done..done + n] == chunk[done..][..n]
    ensures chunk[done..][n..] == chunk[done + n..]
  {
    forall i | 0 <= i < n ensures packet[done..done + n][i] == chunk[done..][..n][i] {
      assert packet[..|chunk|][done + i] == chunk[done + i];
    }
  }

  /** The accumulated traffic plus what `rest` still brings is `whole`. */
  ghost predicate EchoContinues(whole: Echoed, sent: Stream, received: Stream, lost: nat, calls: nat, rest: Echoed) {
    whole == rest.(sent := sent + rest.sent, received := received + rest.received, lost := lost + rest.lost,
                   recvCalls := calls + rest.recvCalls)
  }

  /** One answer of pico_socket_recv ends the loop as Echo says, or carries it on. */
  lemma EchoOneChunk(whole: Echoed, sent: Stream, received: Stream, lost: nat, calls: nat,
                     sends: seq<int>, recvs: seq<Recv>)
    requires EchoContinues(whole, sent, received, lost, calls, Echo(sends, recvs))
    ensures if recvs == [] then
        whole == Echoed(sent, received, [], lost, calls + 1, sends, recvs)
      else if recvs[0].RecvError? || Clip(recvs[0].data) == [] then
        whole == Echoed(sent, received, [], lost, calls + 1, sends, recvs[1..])
      else
        var chunk := Clip(recvs[0].data);
        var p := Push(chunk, sends);
        && |p.rest| == |chunk| - |p.sent|
        && (p.status.Drained? ==> p.rest == [])
        && if p.status.Blocked? then
             whole == Echoed(sent + p.sent, received + chunk, p.rest, lost, calls + 1, p.left, recvs[1..])
           else
             EchoContinues(whole, sent + p.sent, received + chunk, lost + |p.rest|, calls + 1,
                           Echo(p.left, recvs[1..]))
  {
    if recvs != [] && recvs[0].RecvData? && Clip(recvs[0].data) != [] {
      var chunk := Clip(recvs[0].data);
      var p := Push(chunk, sends);
      PushSplits(chunk, sends);
      assert |p.sent + p.rest| == |p.sent| + |p.rest|;
      if !p.status.Blocked? {
        var e := Echo(p.left, recvs[1..]);
        Assoc(sent, p.sent, e.sent);
        Assoc(received, chunk, e.received);
      }
    }
  }

  /** A send loop that will end as `whole` has sent `sent` so far and has `rest` left to offer. */
  ghost predicate PushContinues(whole: Pushed, sent: Stream, rest: Stream, left: seq<int>) {
    var p := Push(rest, left);
    whole == p.(sent := sent + p.sent)
  }

  /** One answer of the stack either ends the loop as Push says, or carries it on. */
  lemma PushOneAnswer(whole: Pushed, sent: Stream, rest: Stream, left: seq<int>)
    requires rest != [] && PushContinues(whole, sent, rest, left)
    ensures var n := SendResult(left, |rest|);
      if n == -1 then whole == Pushed(sent, rest, Failed, Rest(left))
      else if n == 0 then whole == Pushed(sent, rest, Blocked, Rest(left))
      else PushContinues(whole, sent + rest[..n], rest[n..], Rest(left))
  {
    var n := SendResult(left, |rest|);
    if n > 0 {
      Assoc(sent, rest[..n], Push(rest[n..], Rest(left)).sent);
    }
  }
}
