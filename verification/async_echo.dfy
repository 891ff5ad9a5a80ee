/**
 The asynchronous echo component as it runs: the idle pool is an array used as a stack, the
 message fields are overwritten in place, and the virtqueues give and take buffers.  Handing
 a buffer to a virtqueue fails when it is full; none of the calls here ever does.
 */
module AsyncEcho {
  import opened AsyncEchoModel
  import opened Ownership

  class EchoApp {
    ghost var model: App

    var rxBufPool: array<Id>
    var numRxBufs: nat
    var msgs: array<Msg>
    var tcpEchoClient: int
    var rxAvail: multiset<Id>
    var rxUsed: seq<Id>
    var txAvail: multiset<Id>
    var txUsed: seq<Id>

    ghost predicate Represents()
      reads this, rxBufPool, msgs
    {
      && rxBufPool.Length == NUM_TCP_BUFS && msgs.Length == MSGS && numRxBufs <= NUM_TCP_BUFS
      && model.pool == rxBufPool[..numRxBufs]
      && model.rxAvail == rxAvail && model.rxUsed == rxUsed
      && model.txAvail == txAvail && model.txUsed == txUsed
      && model.msgs == msgs[..]
      && model.client == tcpEchoClient
    }

    ghost predicate Valid()
      reads this, rxBufPool, msgs
    {
      Represents() && Conserved(model)
    }

    /** Either virtqueue has room for one more buffer. */
    ghost predicate Room()
      reads this
    {
      && |rxAvail| + |rxUsed| < QUEUE_LEN && |txAvail| + |txUsed| < QUEUE_LEN
    }

    /** The set-up loops: TCP messages idle, UDP messages ready to receive. */
    constructor ()
      ensures Valid() && Isolated(model)
      ensures |model.pool| == NUM_TCP_BUFS && model.epoch == 0
      ensures model.rxAvail == AllIds(MSGS) - AllIds(NUM_TCP_BUFS)
      ensures fresh(rxBufPool) && fresh(msgs)
    {
      rxBufPool := new Id[NUM_TCP_BUFS](_ => 0);
      msgs := new Msg[MSGS](_ => Msg(-1, 0, 0, []));
      numRxBufs, tcpEchoClient := 0, 0;
      rxAvail, rxUsed, txAvail, txUsed := multiset{}, [], multiset{}, [];
      new;
      model := App([], multiset{}, [], multiset{}, [], msgs[..], 0, 0, map[]);
      AddTcpMessages();
      AddUdpMessages();
    }

    /** The loop of setup_tcp_echo_socket. */
    method AddTcpMessages()
      requires Represents() && numRxBufs == 0
      modifies this`numRxBufs, this`model, rxBufPool
      ensures Represents() && model == old(model).(pool := model.pool)
      ensures |model.pool| == NUM_TCP_BUFS && multiset(model.pool) == AllIds(NUM_TCP_BUFS) && PoolIsTcp(model)
    {
      ghost var s := model;
      for i := 0 to NUM_TCP_BUFS
        invariant Represents() && numRxBufs == |model.pool| == i
        invariant model == s.(pool := model.pool)
        invariant forall j :: 0 <= j < i ==> model.pool[j] == j
      {
        PushPool(i);
      }
      FilledInOrder(model.pool);
    }

    /** The loop of setup_udp_echo_socket. */
    method AddUdpMessages()
      requires Represents() && multiset(model.pool) == AllIds(NUM_TCP_BUFS) && PoolIsTcp(model)
      requires model.rxAvail == model.txAvail == multiset{} && model.rxUsed == model.txUsed == []
      requires model.epoch == 0 && model.connOf == map[]
      modifies this`rxAvail, this`model, msgs
      ensures Valid() && Isolated(model) && model.epoch == 0
      ensures model.pool == old(model).pool && model.rxAvail == AllIds(MSGS) - AllIds(NUM_TCP_BUFS)
    {
      ghost var s := model;
      for i := NUM_TCP_BUFS to MSGS
        invariant Represents() && model == s.(rxAvail := model.rxAvail, msgs := model.msgs)
        invariant |model.rxAvail| == i - NUM_TCP_BUFS
        invariant AllIds(NUM_TCP_BUFS) + model.rxAvail == AllIds(i)
      {
        AllIdsNext(i);
        AddRx(i, msgs[i].(totalLen := READ_SIZE));
      }
      assert model.rxAvail == (AllIds(NUM_TCP_BUFS) + model.rxAvail) - AllIds(NUM_TCP_BUFS);
    }

    /** virtqueue_add_available_buf on the receive queue, with the message's new fields. */
    method AddRx(id: Id, m: Msg)
      requires Represents() && |rxAvail| + |rxUsed| < QUEUE_LEN
      modifies this`rxAvail, this`model, msgs
      ensures Represents() && model == ToRx(old(model), id, m)
    {
      msgs[id] := m;
      rxAvail := rxAvail + multiset{id};
      model := ToRx(model, id, m);
    }

    method AddTx(id: Id, m: Msg)
      requires Represents() && |txAvail| + |txUsed| < QUEUE_LEN
      modifies this`txAvail, this`model, msgs
      ensures Represents() && model == ToTx(old(model), id, m)
    {
      msgs[id] := m;
      txAvail := txAvail + multiset{id};
      model := ToTx(model, id, m);
    }

    method PushPool(id: Id)
      requires Represents() && numRxBufs < NUM_TCP_BUFS
      modifies this`numRxBufs, this`model, rxBufPool
      ensures Represents() && model == ToPool(old(model), id)
    {
      rxBufPool[numRxBufs] := id;
      numRxBufs := numRxBufs + 1;
      model := ToPool(model, id);
    }

    /** tcp_socket_handle_async_received */
    method TcpReceived(id: Id)
      requires Represents() && Room() && IsTcp(id) && numRxBufs < NUM_TCP_BUFS
      modifies this`numRxBufs, this`rxAvail, this`txAvail, this`model, rxBufPool, msgs
      ensures Represents() && model == Received(old(model), id)
    {
      var m := msgs[id];
      if m.fd != tcpEchoClient {
        if tcpEchoClient == NO_CLIENT {
          PushPool(id);
          return;
        } else {
          m := m.(fd := tcpEchoClient, doneLen := -1);
        }
      }
      if m.doneLen == -1 || m.doneLen == 0 {
        AddRx(id, m.(totalLen := READ_SIZE, doneLen := 0));
      } else {
        AddTx(id, m.(totalLen := m.doneLen, doneLen := 0));
      }
    }

    /** tcp_socket_handle_async_sent */
    method TcpSent(id: Id)
      requires Represents() && Room() && IsTcp(id) && numRxBufs < NUM_TCP_BUFS
      modifies this`numRxBufs, this`rxAvail, this`model, rxBufPool, msgs
      ensures Represents() && model == Sent(old(model), id)
    {
      var m := msgs[id].(totalLen := READ_SIZE, doneLen := 0);
      if m.fd != tcpEchoClient {
        if tcpEchoClient == NO_CLIENT {
          msgs[id] := m;
          model := model.(msgs := model.msgs[id := m]);
          PushPool(id);
          return;
        } else {
          m := m.(fd := tcpEchoClient);
        }
      }
      AddRx(id, m);
    }

    /** udp_socket_handle_async_received */
    method UdpReceived(id: Id)
      requires Represents() && Room() && !IsTcp(id)
      modifies this`rxAvail, this`txAvail, this`model, msgs
      ensures Represents() && model == Received(old(model), id)
    {
      var m := msgs[id];
      if m.doneLen == -1 || m.doneLen == 0 {
        AddRx(id, m.(totalLen := READ_SIZE, doneLen := 0));
      } else {
        AddTx(id, m.(totalLen := m.doneLen, doneLen := 0));
      }
    }

    /** udp_socket_handle_async_sent */
    method UdpSent(id: Id)
      requires Represents() && Room() && !IsTcp(id)
      modifies this`rxAvail, this`model, msgs
      ensures Represents() && model == Sent(old(model), id)
    {
      AddRx(id, msgs[id].(totalLen := READ_SIZE, doneLen := 0));
    }

    /** One pass of async_event's first loop. */
    method OneSent()
      requires Valid() && txUsed != []
      modifies this`numRxBufs, this`rxAvail, this`txUsed, this`model, rxBufPool, msgs
      ensures Valid() && model == Next(old(model), HandleSent)
    {
      Sizes(model);
      if IsTcp(txUsed[0]) {
        PoolHasRoom(model, txUsed[0]);
      }
      StepKeepsStock(model, HandleSent);
      StepKeepsPool(model, HandleSent);
      var id := txUsed[0];
      txUsed := txUsed[1..];
      model := model.(txUsed := model.txUsed[1..]);
      if IsTcp(id) {
        TcpSent(id);
      } else {
        UdpSent(id);
      }
    }

    /** One pass of async_event's second loop. */
    method OneReceived()
      requires Valid() && rxUsed != []
      modifies this`numRxBufs, this`rxAvail, this`txAvail, this`rxUsed, this`model, rxBufPool, msgs
      ensures Valid() && model == Next(old(model), HandleReceived)
    {
      Sizes(model);
      if IsTcp(rxUsed[0]) {
        PoolHasRoom(model, rxUsed[0]);
      }
      StepKeepsStock(model, HandleReceived);
      StepKeepsPool(model, HandleReceived);
      var id := rxUsed[0];
      rxUsed := rxUsed[1..];
      model := model.(rxUsed := model.rxUsed[1..]);
      if IsTcp(id) {
        TcpReceived(id);
      } else {
        UdpReceived(id);
      }
    }

    /** async_event: every sent buffer is handled, then every received one. */
    method AsyncEvent()
      requires Valid()
      modifies this`numRxBufs, this`rxAvail, this`txAvail, this`rxUsed, this`txUsed, this`model, rxBufPool, msgs
      ensures Valid()
      ensures model == ReceivedHandled(SentHandled(old(model)))
      ensures rxUsed == [] && txUsed == []
    {
      HandleAllSent();
      HandleAllReceived();
    }

    method HandleAllSent()
      requires Valid()
      modifies this`numRxBufs, this`rxAvail, this`txUsed, this`model, rxBufPool, msgs
      ensures Valid() && model == SentHandled(old(model)) && txUsed == []
    {
      ghost var whole := SentHandled(model);
      while txUsed != []
        invariant Valid() && whole == SentHandled(model)
        decreases |txUsed|
      {
        SentHandledUnfolds(model);
        OneSent();
      }
    }

    method HandleAllReceived()
      requires Valid()
      modifies this`numRxBufs, this`rxAvail, this`txAvail, this`rxUsed, this`model, rxBufPool, msgs
      ensures Valid() && model == ReceivedHandled(old(model)) && rxUsed == [] && txUsed == old(txUsed)
    {
      ghost var whole := ReceivedHandled(model);
      while rxUsed != []
        invariant Valid() && whole == ReceivedHandled(model)
        decreases |rxUsed|
      {
        ReceivedHandledUnfolds(model);
        OneReceived();
      }
    }

    /** handle_tcp_echo_notification, given the descriptor the accept returns. */
    method HandleNotification(conn: bool, fin: bool, fd: int)
      requires Valid()
      modifies this`numRxBufs, this`rxAvail, this`tcpEchoClient, this`model, msgs
      ensures Valid()
      ensures model == Notified(old(model), conn, fin, fd)
    {
      if conn {
        Accept(fd);
      }
      if fin {
        FinishKeeps(model);
        tcpEchoClient := NO_CLIENT;
        model := model.(client := NO_CLIENT);
      }
    }

    /** The connection branch: the pool is emptied from its top into the receive queue. */
    method Accept(fd: int)
      requires Valid()
      modifies this`numRxBufs, this`rxAvail, this`tcpEchoClient, this`model, msgs
      ensures Valid()
      ensures model == Connected(old(model), fd)
    {
      Sizes(model);
      ConnectedKeeps(model, fd);
      EmptyPool(fd);
    }

    method EmptyPool(fd: int)
      requires Represents() && |model.pool| + |model.rxAvail| + |model.rxUsed| < QUEUE_LEN
      modifies this`numRxBufs, this`rxAvail, this`tcpEchoClient, this`model, msgs
      ensures Represents() && model == Connected(old(model), fd)
    {
      ghost var s := model;
      tcpEchoClient := fd;
      NothingMovedYet(s, fd);
      model := PartlyConnected(s, fd, numRxBufs);
      assert Represents();
      while numRxBufs > 0
        invariant Represents() && numRxBufs <= |s.pool|
        invariant model == PartlyConnected(s, fd, numRxBufs)
        decreases numRxBufs
      {
        MoveTop(s, fd);
      }
      EverythingMoved(s, fd);
    }

    /** One pass of the connection loop, as seen from the state `s` before it. */
    method MoveTop(ghost s: App, fd: int)
      requires Represents() && 0 < numRxBufs <= |s.pool| && model == PartlyConnected(s, fd, numRxBufs)
      requires |s.pool| + |s.rxAvail| + |s.rxUsed| < QUEUE_LEN
      modifies this`numRxBufs, this`rxAvail, this`model, msgs
      ensures Represents() && numRxBufs == old(numRxBufs) - 1 && model == PartlyConnected(s, fd, numRxBufs)
    {
      PartlyConnectedOne(s, fd, numRxBufs);
      TopToRx(fd);
    }

    /** One pass of the connection loop: the pool's top message is readied and queued. */
    method TopToRx(fd: int)
      requires Represents() && numRxBufs > 0 && |rxAvail| + |rxUsed| < QUEUE_LEN
      modifies this`numRxBufs, this`rxAvail, this`model, msgs
      ensures Represents() && numRxBufs == old(numRxBufs) - 1
      ensures var t, n := old(model), old(numRxBufs) - 1;
        model == ToRx(t.(pool := t.pool[..n]), t.pool[n],
                      t.msgs[t.pool[n]].(totalLen := READ_SIZE, doneLen := 0, fd := fd))
    {
      numRxBufs := numRxBufs - 1;
      var id := rxBufPool[numRxBufs];
      model := model.(pool := model.pool[..numRxBufs]);
      AddRx(id, msgs[id].(totalLen := READ_SIZE, doneLen := 0, fd := fd));
    }
  }

  lemma SentHandledUnfolds(s: App)
    ensures s.txUsed != [] ==> SentHandled(s) == SentHandled(Next(s, HandleSent))
    ensures s.txUsed != [] ==> |Next(s, HandleSent).txUsed| == |s.txUsed| - 1
  {
  }

  lemma ReceivedHandledUnfolds(s: App)
    ensures s.rxUsed != [] ==> ReceivedHandled(s) == ReceivedHandled(Next(s, HandleReceived))
    ensures s.rxUsed != [] ==> |Next(s, HandleReceived).rxUsed| == |s.rxUsed| - 1
  {
  }

  lemma NothingMovedYet(s: App, fd: int)
    ensures var t := PartlyConnected(s, fd, |s.pool|);
      t.pool == s.pool && t.rxAvail == s.rxAvail && t.msgs == s.msgs
  {
    assert s.pool[..|s.pool|] == s.pool;
    assert s.pool[|s.pool|..] == [];
  }

  /** A connection half-way through emptying the pool: its first `n` messages still idle. */
  ghost function PartlyConnected(s: App, fd: int, n: nat): App
    requires n <= |s.pool|
  {
    s.(pool := s.pool[..n], rxAvail := s.rxAvail + multiset(s.pool[n..]),
       msgs := Readied(s.msgs, s.pool[n..], fd),
       client := fd, epoch := s.epoch + 1, connOf := s.connOf[fd := s.epoch + 1])
  }

  lemma EverythingMoved(s: App, fd: int)
    ensures PartlyConnected(s, fd, 0) == Connected(s, fd)
  {
    assert s.pool[0..] == s.pool;
  }

  lemma PartlyConnectedOne(s: App, fd: int, n: nat)
    requires 0 < n <= |s.pool| && |s.pool| + |s.rxAvail| + |s.rxUsed| < QUEUE_LEN
    ensures var t, id := PartlyConnected(s, fd, n), s.pool[n - 1];
      && t.pool[..n - 1] == s.pool[..n - 1] && t.pool[n - 1] == id
      && |t.rxAvail| + |t.rxUsed| < QUEUE_LEN
      && PartlyConnected(s, fd, n - 1)
           == ToRx(t.(pool := s.pool[..n - 1]), id,
                   t.msgs[id].(totalLen := READ_SIZE, doneLen := 0, fd := fd))
  {
    var id := s.pool[n - 1];
    assert s.pool[n - 1..] == [id] + s.pool[n..];
    var t := PartlyConnected(s, fd, n);
    assert PartlyConnected(s, fd, n - 1).msgs
           == t.msgs[id := t.msgs[id].(totalLen := READ_SIZE, doneLen := 0, fd := fd)];
  }

  lemma FinishKeeps(s: App)
    requires Conserved(s)
    ensures Conserved(s.(client := NO_CLIENT))
  {
  }

  lemma ConnectedKeeps(s: App, fd: int)
    requires Conserved(s)
    ensures Conserved(Connected(s, fd))
  {
  }
}
