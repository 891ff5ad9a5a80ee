/**
 The asynchronous echo server, stated on values.  Message buffers circulate between the idle
 pool, the receive queue and the transmit queue; each virtqueue holds buffers the picoserver
 still has (`avail`) and buffers it has completed (`used`).  Every byte carries the number of
 the connection it arrived on, so that echoing to the wrong client is visible.
 */
module AsyncEchoModel {
  import opened Ownership

  const NUM_TCP_BUFS: nat := 510
  const NUM_UDP_BUFS: nat := 510
  const MSGS: nat := NUM_TCP_BUFS + NUM_UDP_BUFS - 1
  const READ_SIZE: int := 1400
  const QUEUE_LEN: nat := 1024
  const NO_CLIENT: int := -1

  /** Identifiers below NUM_TCP_BUFS are the TCP messages, the others the UDP ones. */
  type Id = i: nat | i < MSGS

  predicate IsTcp(id: Id) {
    id < NUM_TCP_BUFS
  }

  /** A received byte, reduced to the connection that brought it. */
  type Origin = nat

  datatype Msg = Msg(fd: int, totalLen: int, doneLen: int, data: seq<Origin>)
  type Msgs = m: seq<Msg> | |m| == MSGS witness seq(MSGS, _ => Msg(-1, 0, 0, []))

  /** `epoch` numbers the connections accepted so far; `connOf` is what each descriptor names. */
  datatype App = App(pool: seq<Id>, rxAvail: multiset<Id>, rxUsed: seq<Id>,
                     txAvail: multiset<Id>, txUsed: seq<Id>, msgs: Msgs,
                     client: int, epoch: nat, connOf: map<int, nat>)

  // ------------------------------------------------------------------ the handlers

  function ToPool(s: App, id: Id): App {
    s.(pool := s.pool + [id])
  }

  function ToRx(s: App, id: Id, m: Msg): App {
    s.(rxAvail := s.rxAvail + multiset{id}, msgs := s.msgs[id := m])
  }

  function ToTx(s: App, id: Id, m: Msg): App {
    s.(txAvail := s.txAvail + multiset{id}, msgs := s.msgs[id := m])
  }

  /** A message whose connection is gone while no client is connected waits in the pool. */
  predicate Idles(s: App, id: Id) {
    IsTcp(id) && s.msgs[id].fd != s.client && s.client == NO_CLIENT
  }

  /** A TCP message left over from an earlier connection. */
  predicate Stale(s: App, id: Id) {
    IsTcp(id) && s.msgs[id].fd != s.client
  }

  /** tcp_ and udp_socket_handle_async_received, for the message in hand. */
  function Received(s: App, id: Id): App {
    var m := s.msgs[id];
    if Idles(s, id) then ToPool(s, id)
    else if Stale(s, id) then ToRx(s, id, m.(fd := s.client, totalLen := READ_SIZE, doneLen := 0))
    else if m.doneLen == -1 || m.doneLen == 0 then ToRx(s, id, m.(totalLen := READ_SIZE, doneLen := 0))
    else ToTx(s, id, m.(totalLen := m.doneLen, doneLen := 0))
  }

  /** tcp_ and udp_socket_handle_async_sent, for the message in hand. */
  function Sent(s: App, id: Id): App {
    var m := s.msgs[id].(totalLen := READ_SIZE, doneLen := 0);
    if Idles(s, id) then ToPool(s.(msgs := s.msgs[id := m]), id)
    else ToRx(s, id, if Stale(s, id) then m.(fd := s.client) else m)
  }

  /** The pool's messages made ready to receive for `fd`. */
  function Readied(msgs: Msgs, pool: seq<Id>, fd: int): (r: Msgs)
    ensures forall i :: 0 <= i < MSGS ==>
      r[i] == if i in pool then msgs[i].(fd := fd, totalLen := READ_SIZE, doneLen := 0) else msgs[i]
  {
    seq(MSGS, i requires 0 <= i < MSGS =>
      if i in pool then msgs[i].(fd := fd, totalLen := READ_SIZE, doneLen := 0) else msgs[i])
  }

  /** A connection accepted on descriptor `fd`: the whole pool goes to the receive queue. */
  function Connected(s: App, fd: int): App {
    s.(pool := [], rxAvail := s.rxAvail + multiset(s.pool), msgs := Readied(s.msgs, s.pool, fd),
       client := fd, epoch := s.epoch + 1, connOf := s.connOf[fd := s.epoch + 1])
  }

  /** handle_tcp_echo_notification; CLOSE and ERR events change nothing here. */
  function Notified(s: App, conn: bool, fin: bool, fd: int): App {
    var t := if conn then Connected(s, fd) else s;
    if fin then t.(client := NO_CLIENT) else t
  }

  // ------------------------------------------------------------------ runs

  datatype Step =
    | PeerReceives(id: Id, doneLen: int, data: seq<Origin>)  // the picoserver fills a buffer
    | PeerSends(id: Id, doneLen: int)                        // the picoserver has sent one
    | HandleReceived                                         // async_event takes a filled buffer
    | HandleSent                                             // async_event takes a sent one
    | Notify(conn: bool, fin: bool, fd: int)                 // a socket event

  predicate AllFrom(data: seq<Origin>, n: int, conn: nat) {
    n <= |data| && forall i :: 0 <= i < n ==> data[i] == conn
  }

  /** What the picoserver promises, and what must be there for a step to happen. */
  ghost predicate Legal(s: App, e: Step) {
    match e
    case PeerReceives(id, doneLen, data) =>
      && id in s.rxAvail && doneLen >= -1
      && (IsTcp(id) && doneLen > 0 ==>
            s.msgs[id].fd in s.connOf && AllFrom(data, doneLen, s.connOf[s.msgs[id].fd]))
    case PeerSends(id, _) => id in s.txAvail
    case HandleReceived => s.rxUsed != []
    case HandleSent => s.txUsed != []
    case Notify(conn, _, fd) => conn ==> fd >= 0
  }

  ghost function Next(s: App, e: Step): App
    requires Legal(s, e)
  {
    match e
    case PeerReceives(id, doneLen, data) =>
      s.(rxAvail := s.rxAvail - multiset{id}, rxUsed := s.rxUsed + [id],
         msgs := s.msgs[id := s.msgs[id].(doneLen := doneLen, data := data)])
    case PeerSends(id, doneLen) =>
      s.(txAvail := s.txAvail - multiset{id}, txUsed := s.txUsed + [id],
         msgs := s.msgs[id := s.msgs[id].(doneLen := doneLen)])
    case HandleReceived => Received(s.(rxUsed := s.rxUsed[1..]), s.rxUsed[0])
    case HandleSent => Sent(s.(txUsed := s.txUsed[1..]), s.txUsed[0])
    case Notify(conn, fin, fd) => Notified(s, conn, fin, fd)
  }

  ghost predicate LegalRun(s: App, es: seq<Step>)
    decreases |es|
  {
    es == [] || (Legal(s, es[0]) && LegalRun(Next(s, es[0]), es[1..]))
  }

  ghost function Run(s: App, es: seq<Step>): App
    requires LegalRun(s, es)
    decreases |es|
  {
    if es == [] then s else Run(Next(s, es[0]), es[1..])
  }

  /** async_event's loops: every sent buffer handled, then every received one. */
  ghost function SentHandled(s: App): App
    decreases |s.txUsed|
  {
    if s.txUsed == [] then s else SentHandled(Next(s, HandleSent))
  }

  ghost function ReceivedHandled(s: App): App
    decreases |s.rxUsed|
  {
    if s.rxUsed == [] then s else ReceivedHandled(Next(s, HandleReceived))
  }

  /** The loops are runs, so what holds of every run holds across an async_event. */
  lemma {:induction false} SentHandledIsRun(s: App) returns (es: seq<Step>)
    ensures LegalRun(s, es) && FreshRun(s, es) && Run(s, es) == SentHandled(s)
    decreases |s.txUsed|
  {
    es := [];
    if s.txUsed != [] {
      var rest := SentHandledIsRun(Next(s, HandleSent));
      es := [HandleSent] + rest;
      assert es[1..] == rest;
    }
  }

  lemma {:induction false} ReceivedHandledIsRun(s: App) returns (es: seq<Step>)
    ensures LegalRun(s, es) && FreshRun(s, es) && Run(s, es) == ReceivedHandled(s)
    decreases |s.rxUsed|
  {
    es := [];
    if s.rxUsed != [] {
      var rest := ReceivedHandledIsRun(Next(s, HandleReceived));
      es := [HandleReceived] + rest;
      assert es[1..] == rest;
    }
  }

  // ------------------------------------------------------------------ what the handlers do

  /** Only this message is written, and the queues of completions are left alone. */
  ghost predicate OnlyTouches(s: App, id: Id, t: App) {
    && (forall i :: 0 <= i < MSGS && i != id ==> t.msgs[i] == s.msgs[i])
    && t.rxUsed == s.rxUsed && t.txUsed == s.txUsed
    && t.client == s.client && t.epoch == s.epoch && t.connOf == s.connOf
  }

  /** The message has gone to the receive queue, ready to read a full size for `fd`. */
  ghost predicate GoesToReceive(s: App, id: Id, fd: int, t: App) {
    && t.rxAvail == s.rxAvail + multiset{id} && t.txAvail == s.txAvail && t.pool == s.pool
    && t.msgs[id] == Msg(fd, 1400, 0, s.msgs[id].data)
  }

  /**
   Where a received message goes.  A TCP message of a closed connection is kept idle until
   there is a client, and otherwise reads for that client; any other message reads again if it
   brought nothing, and is sent back whole to where it came from if it brought something.
   */
  lemma ReceivedMeans(s: App, id: Id)
    ensures var t, m := Received(s, id), s.msgs[id];
      && OnlyTouches(s, id, t)
      && if id < NUM_TCP_BUFS && m.fd != s.client && s.client == -1 then
           t == s.(pool := s.pool + [id])
         else if id < NUM_TCP_BUFS && m.fd != s.client then GoesToReceive(s, id, s.client, t)
         else if m.doneLen == -1 || m.doneLen == 0 then GoesToReceive(s, id, m.fd, t)
         else
           && t.txAvail == s.txAvail + multiset{id} && t.rxAvail == s.rxAvail && t.pool == s.pool
           && t.msgs[id] == Msg(m.fd, m.doneLen, 0, m.data)
  {
  }

  /** A sent message reads again, for the client that is connected now; or it is kept idle. */
  lemma SentMeans(s: App, id: Id)
    ensures var t, m := Sent(s, id), s.msgs[id];
      && OnlyTouches(s, id, t)
      && if id < NUM_TCP_BUFS && m.fd != s.client && s.client == -1 then
           && t.pool == s.pool + [id] && t.rxAvail == s.rxAvail && t.txAvail == s.txAvail
           && t.msgs[id] == Msg(m.fd, 1400, 0, m.data)
         else GoesToReceive(s, id, if id < NUM_TCP_BUFS then s.client else m.fd, t)
  {
  }

  /** Connecting readies every idle message for the new client; finishing leaves none. */
  lemma NotifiedMeans(s: App, conn: bool, fin: bool, fd: int)
    ensures var t := Notified(s, conn, fin, fd);
      && t.client == (if fin then -1 else if conn then fd else s.client)
      && t.rxUsed == s.rxUsed && t.txUsed == s.txUsed && t.txAvail == s.txAvail
      && (conn ==> t.pool == [] && t.rxAvail == s.rxAvail + multiset(s.pool))
      && (!conn ==> t.pool == s.pool && t.rxAvail == s.rxAvail)
      && forall id: Id :: t.msgs[id] ==
           if conn && id in s.pool then Msg(fd, 1400, 0, s.msgs[id].data) else s.msgs[id]
  {
  }

  /**
   With a client connected, an async_event leaves nothing unhandled, and every TCP message it
   handled names that client, whatever connection it belonged to.
   */
  lemma AsyncEventServesClient(s: App)
    requires s.client != NO_CLIENT
    ensures var t := ReceivedHandled(SentHandled(s));
      && t.rxUsed == [] && t.txUsed == [] && t.client == s.client && t.pool == s.pool
      && forall id: Id :: IsTcp(id) && (id in s.rxUsed || id in s.txUsed) ==> t.msgs[id].fd == s.client
  {
    SentHandledServes(s);
    ReceivedHandledServes(SentHandled(s));
  }

  lemma {:induction false} SentHandledServes(s: App)
    requires s.client != NO_CLIENT
    ensures var t := SentHandled(s);
      && t.txUsed == [] && t.rxUsed == s.rxUsed && t.client == s.client && t.pool == s.pool
      && forall id: Id :: IsTcp(id) && (id in s.txUsed || s.msgs[id].fd == s.client) ==> t.msgs[id].fd == s.client
    decreases |s.txUsed|
  {
    if s.txUsed != [] {
      SentHandledServes(Next(s, HandleSent));
    }
  }

  lemma {:induction false} ReceivedHandledServes(s: App)
    requires s.client != NO_CLIENT
    ensures var t := ReceivedHandled(s);
      && t.rxUsed == [] && t.txUsed == s.txUsed && t.client == s.client && t.pool == s.pool
      && forall id: Id :: IsTcp(id) && (id in s.rxUsed || s.msgs[id].fd == s.client) ==> t.msgs[id].fd == s.client
    decreases |s.rxUsed|
  {
    if s.rxUsed != [] {
      ReceivedHandledServes(Next(s, HandleReceived));
    }
  }

  // ------------------------------------------------------------------ conservation

  ghost function Stock(s: App): multiset<nat> {
    multiset(s.pool) + s.rxAvail + multiset(s.rxUsed) + s.txAvail + multiset(s.txUsed)
  }

  ghost predicate PoolIsTcp(s: App) {
    forall i :: 0 <= i < |s.pool| ==> IsTcp(s.pool[i])
  }

  /** While a client is connected the pool is empty. */
  predicate PoolIdle(s: App) {
    s.epoch > 0 && s.client != NO_CLIENT ==> s.pool == []
  }

  /** A message in hand is put into exactly one place. */
  lemma ReceivedAdds(s: App, id: Id)
    ensures Stock(Received(s, id)) == Stock(s) + multiset{id}
  {
    assert multiset(s.pool + [id]) == multiset(s.pool) + multiset{id};
  }

  lemma SentAdds(s: App, id: Id)
    ensures Stock(Sent(s, id)) == Stock(s) + multiset{id}
  {
    assert multiset(s.pool + [id]) == multiset(s.pool) + multiset{id};
  }

  lemma PopFront(q: seq<Id>)
    requires q != []
    ensures multiset(q) == multiset(q[1..]) + multiset{q[0]}
  {
    assert q == [q[0]] + q[1..];
  }

  lemma CompletionKeepsStock(avail: multiset<nat>, used: seq<Id>, id: Id)
    requires id in avail
    ensures (avail - multiset{id}) + multiset(used + [id]) == avail + multiset(used)
  {
    assert multiset(used + [id]) == multiset(used) + multiset{id};
  }

  lemma PeerKeepsStock(s: App, e: Step)
    requires Legal(s, e) && (e.PeerReceives? || e.PeerSends?)
    ensures Stock(Next(s, e)) == Stock(s)
  {
    if e.PeerReceives? {
      CompletionKeepsStock(s.rxAvail, s.rxUsed, e.id);
    } else {
      CompletionKeepsStock(s.txAvail, s.txUsed, e.id);
    }
  }

  lemma HandlingKeepsStock(s: App, e: Step)
    requires Legal(s, e) && (e.HandleReceived? || e.HandleSent?)
    ensures Stock(Next(s, e)) == Stock(s)
  {
    if e.HandleReceived? {
      PopFront(s.rxUsed);
      ReceivedAdds(s.(rxUsed := s.rxUsed[1..]), s.rxUsed[0]);
    } else {
      PopFront(s.txUsed);
      SentAdds(s.(txUsed := s.txUsed[1..]), s.txUsed[0]);
    }
  }

  lemma StepKeepsStock(s: App, e: Step)
    requires Legal(s, e)
    ensures Stock(Next(s, e)) == Stock(s)
  {
    match e
    case PeerReceives(_, _, _) => PeerKeepsStock(s, e);
    case PeerSends(_, _) => PeerKeepsStock(s, e);
    case HandleReceived => HandlingKeepsStock(s, e);
    case HandleSent => HandlingKeepsStock(s, e);
    case Notify(_, _, _) =>
  }

  lemma StepKeepsPool(s: App, e: Step)
    requires PoolIsTcp(s) && PoolIdle(s) && Legal(s, e)
    ensures PoolIsTcp(Next(s, e)) && PoolIdle(Next(s, e))
  {
  }

  ghost predicate Conserved(s: App) {
    Stock(s) == AllIds(MSGS) && PoolIsTcp(s) && PoolIdle(s)
  }

  lemma {:induction false} RunKeepsConserved(s: App, es: seq<Step>)
    requires Conserved(s) && LegalRun(s, es)
    ensures Conserved(Run(s, es))
    decreases |es|
  {
    if es != [] {
      StepKeepsStock(s, es[0]);
      StepKeepsPool(s, es[0]);
      RunKeepsConserved(Next(s, es[0]), es[1..]);
    }
  }

  lemma OnePlace(s: App, id: Id)
    requires Conserved(s)
    ensures multiset(s.pool)[id] + s.rxAvail[id] + multiset(s.rxUsed)[id]
              + s.txAvail[id] + multiset(s.txUsed)[id] == 1
  {
    AllIdsOnce(MSGS, id);
    assert Stock(s)[id] == AllIds(MSGS)[id];
  }

  /** The pool's array has room for every TCP message, and the queues for every message. */
  lemma Sizes(s: App)
    requires Conserved(s)
    ensures |s.pool| + |s.rxAvail| + |s.rxUsed| + |s.txAvail| + |s.txUsed| == MSGS < QUEUE_LEN
    ensures |s.pool| <= NUM_TCP_BUFS
  {
    AllIdsSize(MSGS);
    assert |Stock(s)| == |AllIds(MSGS)|;
    PoolFits(s);
  }

  lemma PoolFits(s: App)
    requires Conserved(s)
    ensures |s.pool| <= NUM_TCP_BUFS
  {
    var all := AllIds(NUM_TCP_BUFS);
    var pool: multiset<nat> := multiset(s.pool);
    AllIdsSize(NUM_TCP_BUFS);
    forall i: nat ensures pool[i] <= all[i] {
      AllIdsOnce(NUM_TCP_BUFS, i);
      if i in pool {
        OnePlace(s, i);
      }
    }
    assert all == pool + (all - pool);
    assert |all| == |pool| + |all - pool|;
  }

  /**
   Conservation over every order of connects, disconnects and completions: each message is in
   exactly one place, the idle pool never outgrows its 510 slots and is empty while a client
   is connected, and the two queues together never reach the 1024 entries of either.
   */
  lemma {:induction false} RunConservesMessages(s: App, es: seq<Step>)
    requires Conserved(s) && LegalRun(s, es)
    ensures var t := Run(s, es);
      && (forall id: Id :: multiset(t.pool)[id] + t.rxAvail[id] + multiset(t.rxUsed)[id]
                             + t.txAvail[id] + multiset(t.txUsed)[id] == 1)
      && |t.pool| <= NUM_TCP_BUFS
      && (t.epoch > 0 && t.client != NO_CLIENT ==> t.pool == [])
      && |t.rxAvail| + |t.rxUsed| + |t.txAvail| + |t.txUsed| <= MSGS < QUEUE_LEN
  {
    RunKeepsConserved(s, es);
    var t := Run(s, es);
    forall id: Id
      ensures multiset(t.pool)[id] + t.rxAvail[id] + multiset(t.rxUsed)[id]
                + t.txAvail[id] + multiset(t.txUsed)[id] == 1
    {
      OnePlace(t, id);
    }
    Sizes(t);
  }

  /** While a TCP message is elsewhere, the pool's array has a free slot for it. */
  lemma PoolHasRoom(s: App, id: Id)
    requires Conserved(s) && IsTcp(id) && (id in s.rxUsed || id in s.txUsed)
    ensures |s.pool| < NUM_TCP_BUFS
  {
    OnePlace(s, id);
    assert id in s.rxUsed <==> id in multiset(s.rxUsed);
    assert id in s.txUsed <==> id in multiset(s.txUsed);
    var all := AllIds(NUM_TCP_BUFS);
    var pool: multiset<nat> := multiset(s.pool);
    AllIdsSize(NUM_TCP_BUFS);
    forall i: nat ensures (pool + multiset{id as nat})[i] <= all[i] {
      AllIdsOnce(NUM_TCP_BUFS, i);
      if i in pool {
        OnePlace(s, i);
      }
    }
    var with := pool + multiset{id as nat};
    assert all == with + (all - with);
    assert |all| == |with| + |all - with|;
  }

  // ------------------------------------------------------------------ isolation

  /** Completed receives hold bytes of the connection their descriptor names. */
  ghost predicate Labelled(s: App, id: Id) {
    && s.msgs[id].doneLen >= -1
    && (IsTcp(id) && s.msgs[id].doneLen > 0 ==>
          && s.msgs[id].fd in s.connOf
          && AllFrom(s.msgs[id].data, s.msgs[id].doneLen, s.connOf[s.msgs[id].fd]))
  }

  ghost predicate AllLabelled(s: App) {
    forall i :: 0 <= i < |s.rxUsed| ==> Labelled(s, s.rxUsed[i])
  }

  /** A message to be sent holds bytes of the connection its descriptor names. */
  ghost predicate SendLabelled(s: App, id: Id) {
    IsTcp(id) && s.msgs[id].totalLen > 0 ==>
      && s.msgs[id].fd in s.connOf
      && AllFrom(s.msgs[id].data, s.msgs[id].totalLen, s.connOf[s.msgs[id].fd])
  }

  ghost predicate AllSendsLabelled(s: App) {
    forall id: Id :: id in s.txAvail ==> SendLabelled(s, id)
  }

  /** The descriptor a connected client has names the newest connection. */
  ghost predicate Named(s: App) {
    && (s.epoch > 0 && s.client != NO_CLIENT ==> s.client in s.connOf && s.connOf[s.client] == s.epoch)
    && (s.epoch == 0 ==> s.connOf == map[])
    && (forall fd :: fd in s.connOf ==> fd >= 0 && s.connOf[fd] <= s.epoch)
  }

  ghost predicate Isolated(s: App) {
    AllLabelled(s) && AllSendsLabelled(s) && Named(s)
  }

  /** No completed receive still waiting to be handled names the new connection's descriptor. */
  ghost predicate NotReceived(s: App, fd: int) {
    forall i :: 0 <= i < |s.rxUsed| && IsTcp(s.rxUsed[i]) && s.msgs[s.rxUsed[i]].doneLen > 0 ==>
      s.msgs[s.rxUsed[i]].fd != fd
  }

  /** Nor does a message that is still to be sent. */
  ghost predicate NotToSend(s: App, fd: int) {
    forall id: Id :: id in s.txAvail && IsTcp(id) && s.msgs[id].totalLen > 0 ==> s.msgs[id].fd != fd
  }

  ghost predicate FreshFd(s: App, fd: int) {
    NotReceived(s, fd) && NotToSend(s, fd)
  }

  ghost predicate FreshFds(s: App, e: Step) {
    e.Notify? && e.conn ==> FreshFd(s, e.fd)
  }

  /** A message that is elsewhere is not waiting among the completed receives. */
  lemma NotWaiting(s: App, id: Id)
    requires Conserved(s)
    requires id in s.pool || id in s.rxAvail || id in s.txAvail || id in s.txUsed
    ensures id !in s.rxUsed
  {
    OnePlace(s, id);
    assert id in s.rxUsed <==> id in multiset(s.rxUsed);
    assert id in s.txUsed <==> id in multiset(s.txUsed);
    assert id in s.pool <==> id in multiset(s.pool);
  }

  lemma FrontOnce(s: App)
    requires Conserved(s) && s.rxUsed != []
    ensures s.rxUsed[0] !in s.rxUsed[1..]
  {
    OnePlace(s, s.rxUsed[0]);
    PopFront(s.rxUsed);
    assert s.rxUsed[0] in s.rxUsed[1..] <==> s.rxUsed[0] in multiset(s.rxUsed[1..]);
  }

  /** Changing a message that is not waiting changes no label. */
  lemma LabelsElsewhere(s: App, t: App, id: Id)
    requires AllLabelled(s)
    requires forall i :: 0 <= i < MSGS && i != id ==> t.msgs[i] == s.msgs[i]
    requires id !in t.rxUsed && t.connOf == s.connOf
    requires forall i :: 0 <= i < |t.rxUsed| ==> t.rxUsed[i] in s.rxUsed
    ensures AllLabelled(t)
  {
    forall i | 0 <= i < |t.rxUsed| ensures Labelled(t, t.rxUsed[i]) {
      var j :| 0 <= j < |s.rxUsed| && s.rxUsed[j] == t.rxUsed[i];
      assert Labelled(s, s.rxUsed[j]);
    }
  }

  /** Changing a message that is not to be sent changes no label of those that are. */
  lemma SendLabelsElsewhere(s: App, t: App, id: Id)
    requires AllSendsLabelled(s)
    requires forall i :: 0 <= i < MSGS && i != id ==> t.msgs[i] == s.msgs[i]
    requires id !in t.txAvail && t.connOf == s.connOf && t.txAvail <= s.txAvail
    ensures AllSendsLabelled(t)
  {
    forall i: Id | i in t.txAvail ensures SendLabelled(t, i) {
      assert i in s.txAvail && SendLabelled(s, i);
    }
  }

  /** A message that is elsewhere is not waiting to be sent. */
  lemma NotSending(s: App, id: Id)
    requires Conserved(s) && (id in s.pool || id in s.rxAvail || id in s.rxUsed || id in s.txUsed)
    ensures id !in s.txAvail
  {
    OnePlace(s, id);
    assert id in s.rxUsed <==> id in multiset(s.rxUsed);
    assert id in s.txUsed <==> id in multiset(s.txUsed);
    assert id in s.pool <==> id in multiset(s.pool);
  }

  /** A received message goes to the transmit queue with the label it was received with. */
  lemma ReceivedKeepsSendLabels(s: App)
    requires Conserved(s) && Isolated(s) && s.rxUsed != []
    ensures AllSendsLabelled(Next(s, HandleReceived))
  {
    var id, t := s.rxUsed[0], Next(s, HandleReceived);
    NotSending(s, id);
    assert Labelled(s, id);
    forall i: Id | i in t.txAvail ensures SendLabelled(t, i) {
      if i != id {
        assert i in s.txAvail && SendLabelled(s, i);
      }
    }
  }

  lemma PeerSendsKeepsSendLabels(s: App, id: Id, doneLen: int)
    requires Conserved(s) && Isolated(s) && id in s.txAvail
    ensures AllSendsLabelled(Next(s, PeerSends(id, doneLen)))
  {
    OnePlace(s, id);
    SendLabelsElsewhere(s, Next(s, PeerSends(id, doneLen)), id);
  }

  lemma ConnectKeepsSendLabels(s: App, fd: int)
    requires Conserved(s) && Isolated(s) && NotToSend(s, fd)
    ensures AllSendsLabelled(Connected(s, fd))
  {
    var t := Connected(s, fd);
    forall id: Id | id in t.txAvail ensures SendLabelled(t, id) {
      assert SendLabelled(s, id);
      if id in s.pool {
        NotSending(s, id);
      }
      assert t.msgs[id] == s.msgs[id];
    }
  }

  lemma NotifyKeepsSendLabels(s: App, conn: bool, fin: bool, fd: int)
    requires Conserved(s) && Isolated(s) && (conn ==> FreshFd(s, fd))
    ensures AllSendsLabelled(Notified(s, conn, fin, fd))
  {
    if conn {
      ConnectKeepsSendLabels(s, fd);
    }
    var t := if conn then Connected(s, fd) else s;
    forall id: Id | id in t.txAvail ensures SendLabelled(Notified(s, conn, fin, fd), id) {
      assert SendLabelled(t, id);
    }
  }

  lemma StepKeepsSendLabels(s: App, e: Step)
    requires Conserved(s) && Isolated(s) && Legal(s, e) && FreshFds(s, e)
    ensures AllSendsLabelled(Next(s, e))
  {
    match e
    case PeerReceives(id, _, _) =>
      NotSending(s, id);
      SendLabelsElsewhere(s, Next(s, e), id);
    case PeerSends(id, doneLen) => PeerSendsKeepsSendLabels(s, id, doneLen);
    case HandleReceived => ReceivedKeepsSendLabels(s);
    case HandleSent =>
      NotSending(s, s.txUsed[0]);
      SendLabelsElsewhere(s, Next(s, e), s.txUsed[0]);
    case Notify(conn, fin, fd) => NotifyKeepsSendLabels(s, conn, fin, fd);
  }

  lemma PeerReceivesKeepsLabels(s: App, id: Id, doneLen: int, data: seq<Origin>)
    requires Conserved(s) && Isolated(s) && Legal(s, PeerReceives(id, doneLen, data))
    ensures AllLabelled(Next(s, PeerReceives(id, doneLen, data)))
  {
    var t := Next(s, PeerReceives(id, doneLen, data));
    NotWaiting(s, id);
    LabelsElsewhere(s, t.(rxUsed := s.rxUsed), id);
    forall i | 0 <= i < |t.rxUsed| ensures Labelled(t, t.rxUsed[i]) {
      if i < |s.rxUsed| {
        assert Labelled(t.(rxUsed := s.rxUsed), s.rxUsed[i]);
      }
    }
  }

  lemma ConnectKeepsLabels(s: App, fd: int)
    requires Conserved(s) && Isolated(s) && NotReceived(s, fd)
    ensures AllLabelled(Connected(s, fd))
  {
    var t := Connected(s, fd);
    forall i | 0 <= i < |t.rxUsed| ensures Labelled(t, t.rxUsed[i]) {
      var id := s.rxUsed[i];
      assert Labelled(s, id);
      assert id !in s.pool by {
        if id in s.pool {
          NotWaiting(s, id);
        }
      }
      assert t.msgs[id] == s.msgs[id];
    }
  }

  lemma NotifyKeepsLabels(s: App, conn: bool, fin: bool, fd: int)
    requires Conserved(s) && Isolated(s) && (conn ==> FreshFd(s, fd))
    ensures AllLabelled(Notified(s, conn, fin, fd))
  {
    if conn {
      ConnectKeepsLabels(s, fd);
    }
    var t := if conn then Connected(s, fd) else s;
    forall i | 0 <= i < |t.rxUsed| ensures Labelled(Notified(s, conn, fin, fd), t.rxUsed[i]) {
      assert Labelled(t, t.rxUsed[i]);
    }
  }

  lemma HandleReceivedKeepsLabels(s: App)
    requires Conserved(s) && Isolated(s) && s.rxUsed != []
    ensures AllLabelled(Next(s, HandleReceived))
  {
    FrontOnce(s);
    ReceivedMeans(s.(rxUsed := s.rxUsed[1..]), s.rxUsed[0]);
    LabelsElsewhere(s, Next(s, HandleReceived), s.rxUsed[0]);
  }

  lemma HandleSentKeepsLabels(s: App)
    requires Conserved(s) && Isolated(s) && s.txUsed != []
    ensures AllLabelled(Next(s, HandleSent))
  {
    NotWaiting(s, s.txUsed[0]);
    SentMeans(s.(txUsed := s.txUsed[1..]), s.txUsed[0]);
    LabelsElsewhere(s, Next(s, HandleSent), s.txUsed[0]);
  }

  lemma PeerSendsKeepsLabels(s: App, id: Id, doneLen: int)
    requires Conserved(s) && Isolated(s) && id in s.txAvail
    ensures AllLabelled(Next(s, PeerSends(id, doneLen)))
  {
    NotWaiting(s, id);
    LabelsElsewhere(s, Next(s, PeerSends(id, doneLen)), id);
  }

  lemma StepKeepsLabels(s: App, e: Step)
    requires Conserved(s) && Isolated(s) && Legal(s, e) && FreshFds(s, e)
    ensures AllLabelled(Next(s, e))
  {
    match e
    case PeerReceives(id, doneLen, data) => PeerReceivesKeepsLabels(s, id, doneLen, data);
    case PeerSends(id, doneLen) => PeerSendsKeepsLabels(s, id, doneLen);
    case HandleReceived => HandleReceivedKeepsLabels(s);
    case HandleSent => HandleSentKeepsLabels(s);
    case Notify(conn, fin, fd) => NotifyKeepsLabels(s, conn, fin, fd);
  }

  lemma StepKeepsNamed(s: App, e: Step)
    requires Named(s) && Legal(s, e)
    ensures Named(Next(s, e))
  {
  }

  lemma StepKeepsIsolated(s: App, e: Step)
    requires Conserved(s) && Isolated(s) && Legal(s, e) && FreshFds(s, e)
    ensures Isolated(Next(s, e))
  {
    StepKeepsLabels(s, e);
    StepKeepsSendLabels(s, e);
    StepKeepsNamed(s, e);
  }

  ghost predicate FreshRun(s: App, es: seq<Step>)
    requires LegalRun(s, es)
    decreases |es|
  {
    es == [] || (FreshFds(s, es[0]) && FreshRun(Next(s, es[0]), es[1..]))
  }

  lemma {:induction false} RunKeepsIsolated(s: App, es: seq<Step>)
    requires Conserved(s) && Isolated(s) && LegalRun(s, es) && FreshRun(s, es)
    ensures Conserved(Run(s, es)) && Isolated(Run(s, es))
    decreases |es|
  {
    if es != [] {
      StepKeepsStock(s, es[0]);
      StepKeepsPool(s, es[0]);
      StepKeepsIsolated(s, es[0]);
      RunKeepsIsolated(Next(s, es[0]), es[1..]);
    }
  }

  /** Handling a received TCP message: it is echoed only if it is not stale and not empty. */
  ghost predicate EchoesOwnBytes(before: App, id: Id, after: App) {
    && (Stale(before, id) || before.msgs[id].doneLen <= 0 ==> after.txAvail == before.txAvail)
    && (!Stale(before, id) && before.msgs[id].doneLen > 0 ==>
          && after.txAvail == before.txAvail + multiset{id}
          && after.msgs[id].fd == before.client != NO_CLIENT
          && after.msgs[id].totalLen == before.msgs[id].doneLen
          && AllFrom(after.msgs[id].data, after.msgs[id].totalLen, before.epoch))
  }

  lemma HandlesOwnBytes(s: App)
    requires Isolated(s) && s.rxUsed != [] && IsTcp(s.rxUsed[0])
    ensures EchoesOwnBytes(s, s.rxUsed[0], Next(s, HandleReceived))
  {
    assert Labelled(s, s.rxUsed[0]);
  }

  /**
   Connection isolation, at any point of any run that reuses no descriptor too early: a TCP
   message put on the transmit queue holds exactly as many bytes as were received, all of
   them from the connection of the client now connected; a stale one goes back to receiving
   or to the pool.
   */
  lemma {:induction false} EchoesOnlyItsConnection(s: App, es: seq<Step>)
    requires Conserved(s) && Isolated(s) && LegalRun(s, es) && FreshRun(s, es)
    requires Run(s, es).rxUsed != [] && IsTcp(Run(s, es).rxUsed[0])
    ensures var t := Run(s, es); EchoesOwnBytes(t, t.rxUsed[0], Next(t, HandleReceived))
  {
    RunKeepsIsolated(s, es);
    HandlesOwnBytes(Run(s, es));
  }

  /** The bytes that a PeerSends step puts on the connection its message names. */
  function Transmitted(s: App, id: Id): seq<Origin>
    requires 0 <= s.msgs[id].totalLen <= |s.msgs[id].data|
  {
    s.msgs[id].data[..s.msgs[id].totalLen]
  }

  /**
   At any point of any such run, what the picoserver sends for a message was received on the
   very connection that the message's descriptor names at that moment.
   */
  lemma {:induction false} SendsOnlyItsConnection(s: App, es: seq<Step>, id: Id, doneLen: int)
    requires Conserved(s) && Isolated(s) && LegalRun(s, es) && FreshRun(s, es)
    requires Legal(Run(s, es), PeerSends(id, doneLen)) && IsTcp(id) && Run(s, es).msgs[id].totalLen > 0
    ensures var t := Run(s, es);
      && t.msgs[id].fd in t.connOf && t.msgs[id].totalLen <= |t.msgs[id].data|
      && forall i :: 0 <= i < t.msgs[id].totalLen ==> Transmitted(t, id)[i] == t.connOf[t.msgs[id].fd]
  {
    RunKeepsIsolated(s, es);
    assert SendLabelled(Run(s, es), id);
  }

  /**
   The freshness condition is exact: accepting a connection on `fd` keeps the completed
   receives and the messages to be sent correctly labelled if and only if none of them still
   names `fd`.
   */
  lemma IsolatedIffFresh(s: App, fd: int)
    requires Conserved(s) && Isolated(s) && fd >= 0
    ensures Isolated(Connected(s, fd)) <==> FreshFd(s, fd)
  {
    if FreshFd(s, fd) {
      ConnectKeepsLabels(s, fd);
      ConnectKeepsSendLabels(s, fd);
    } else if !NotReceived(s, fd) {
      var i :| 0 <= i < |s.rxUsed| && IsTcp(s.rxUsed[i]) && s.msgs[s.rxUsed[i]].doneLen > 0
               && s.msgs[s.rxUsed[i]].fd == fd;
      StaleKeepsOrigin(s, fd, i);
      assert !Labelled(Connected(s, fd), Connected(s, fd).rxUsed[i]);
    } else {
      var id: Id :| id in s.txAvail && IsTcp(id) && s.msgs[id].totalLen > 0 && s.msgs[id].fd == fd;
      StaleSendReachesNextClient(s, fd, id);
      assert !SendLabelled(Connected(s, fd), id);
    }
  }

  /** A message still to be sent when its descriptor is accepted again goes to the new client. */
  lemma StaleSendReachesNextClient(s: App, fd: int, id: Id)
    requires Conserved(s) && Isolated(s) && fd >= 0
    requires id in s.txAvail && IsTcp(id) && s.msgs[id].totalLen > 0 && s.msgs[id].fd == fd
    ensures var t := Connected(s, fd);
      && id in t.txAvail && t.client == t.msgs[id].fd == fd && t.msgs[id].totalLen > 0
      && !AllFrom(t.msgs[id].data, t.msgs[id].totalLen, t.connOf[fd])
  {
    assert SendLabelled(s, id);
    if id in s.pool {
      NotSending(s, id);
    }
    var t := Connected(s, fd);
    assert t.msgs[id] == s.msgs[id];
    assert s.msgs[id].data[0] == s.connOf[fd] < t.connOf[fd];
  }

  lemma StaleKeepsOrigin(s: App, fd: int, i: nat)
    requires Conserved(s) && Isolated(s) && i < |s.rxUsed| && IsTcp(s.rxUsed[i])
    requires s.msgs[s.rxUsed[i]].doneLen > 0 && s.msgs[s.rxUsed[i]].fd == fd
    ensures var t, id := Connected(s, fd), s.rxUsed[i];
      t.msgs[id] == s.msgs[id] && t.msgs[id].data != [] && t.msgs[id].data[0] < t.epoch
  {
    var id := s.rxUsed[i];
    assert Labelled(s, id);
    if id in s.pool {
      NotWaiting(s, id);
    }
  }

  /** And the failure is real: a receive completed too late is echoed to the next client. */
  lemma EarlyReuseEchoesStaleBytes(s: App, fd: int)
    requires Conserved(s) && Isolated(s) && fd >= 0
    requires s.rxUsed != [] && IsTcp(s.rxUsed[0])
    requires s.msgs[s.rxUsed[0]].doneLen > 0 && s.msgs[s.rxUsed[0]].fd == fd
    ensures var t, id := Next(Connected(s, fd), HandleReceived), s.rxUsed[0];
      && id in t.txAvail && t.client == t.msgs[id].fd == fd
      && !AllFrom(t.msgs[id].data, t.msgs[id].totalLen, t.epoch)
  {
    StaleKeepsOrigin(s, fd, 0);
  }
}
