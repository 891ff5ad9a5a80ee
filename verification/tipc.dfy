/**
 The TIPC token ring: four clients and, between clients 0 and 1, a filter pass one payload
 round, each client adding one to it, until it has reached a limit.  Every poll, send,
 notification and return of a buffer is a step of its own, and the steps of the five
 components interleave in any order.
 */
module TokenRing {
  // Node c is client c; the last node is the filter.
  const CLIENTS := 4
  const FILTER := 4
  const NODES := 5

  // The program's own number of deliveries.
  const COUNT_LIMIT := 20

  /**
   A virtqueue from one node to the next: payloads sent and not yet taken, buffers the
   receiver has taken and not returned, and buffers returned and not freed by the sender.
   */
  datatype Queue = Queue(available: seq<int>, held: nat, used: nat)

  datatype Node =
    | Idle                   // waiting for a notification
    | Checking               // at the poll of the receive queue
    | Signalling(v: int)     // filter only: has taken and returned a buffer, about to say so
    | Handling(v: int)       // has taken a payload, about to forward it
    | Notifying              // has sent, about to notify the receiver
    | Returning              // about to return the buffer it took
    | NotifyingBack          // has returned it, about to notify the sender
    | CheckingUsed           // at the poll of the send queue

  /** Client 0's main thread, which sends the first payload. */
  datatype Starter = ToSend | ToNotify | Started

  datatype Delivery = Delivery(client: nat, v: int)

  datatype State = State(queues: seq<Queue>, nodes: seq<Node>, notified: seq<bool>, starter: Starter,
                         delivered: seq<Delivery>)

  datatype Step = Start | StartNotify | Wake(p: nat) | Act(p: nat)

  /** The node that receives on the queue node `q` sends on. */
  function Receiver(q: nat): (p: nat)
    requires q < NODES
    ensures p < NODES
  {
    if q == 0 then FILTER else if q == FILTER then 1 else (q + 1) % CLIENTS
  }

  /** The queue a node receives on. */
  function Incoming(p: nat): (q: nat)
    requires p < NODES
    ensures q < NODES && Receiver(q) == p
  {
    if p == FILTER then 0 else if p == 1 then FILTER else if p == 0 then 3 else p - 1
  }

  predicate Shaped(s: State) {
    |s.queues| == NODES && |s.nodes| == NODES && |s.notified| == NODES
  }

  predicate Enabled(s: State, e: Step) {
    && Shaped(s)
    && match e
       case Start => s.starter.ToSend?
       case StartNotify => s.starter.ToNotify?
       case Wake(p) => p < NODES && s.nodes[p].Idle? && s.notified[p]
       case Act(p) => p < NODES && !s.nodes[p].Idle?
  }

  // ------------------------------------------------------------------ operations on a queue

  function Flushed(q: Queue): Queue {
    if q.used > 0 then q.(used := q.used - 1) else q
  }

  /** send_payload_message: free one returned buffer if there is one, then send. */
  function Sent(q: Queue, v: int): Queue {
    var f := Flushed(q);
    f.(available := f.available + [v])
  }

  /** The receiver takes the oldest payload. */
  function Taken(q: Queue): Queue
    requires q.available != []
  {
    Queue(q.available[1..], q.held + 1, q.used)
  }

  function Returned(q: Queue): Queue {
    Queue(q.available, if q.held > 0 then q.held - 1 else 0, q.used + 1)
  }

  // ------------------------------------------------------------------ steps

  function Goto(s: State, p: nat, pc: Node): State
    requires Shaped(s) && p < NODES
  {
    s.(nodes := s.nodes[p := pc])
  }

  function WithQueue(s: State, q: nat, queue: Queue): State
    requires Shaped(s) && q < NODES
  {
    s.(queues := s.queues[q := queue])
  }

  function Notified(s: State, p: nat): State
    requires Shaped(s) && p < NODES
  {
    s.(notified := s.notified[p := true])
  }

  /** A client at its poll: take a payload if there is one, and report it. */
  function ClientCheck(s: State, p: nat): State
    requires Shaped(s) && p < CLIENTS
  {
    var q := Incoming(p);
    if s.queues[q].available == [] then Goto(s, p, CheckingUsed)
    else
      var v := s.queues[q].available[0];
      Goto(WithQueue(s, q, Taken(s.queues[q])), p, Handling(v)).(delivered := s.delivered + [Delivery(p, v)])
  }

  /** The filter at its poll: it takes a payload and returns the buffer at once. */
  function FilterCheck(s: State): State
    requires Shaped(s)
  {
    var q := Incoming(FILTER);
    if s.queues[q].available == [] then Goto(s, FILTER, CheckingUsed)
    else Goto(WithQueue(s, q, Returned(Taken(s.queues[q]))), FILTER, Signalling(s.queues[q].available[0]))
  }

  /** Forward a payload, plus one; or stop at the limit. */
  function ClientForward(limit: int, s: State, p: nat, v: int): State
    requires Shaped(s) && p < CLIENTS
  {
    if v == limit then Goto(s, p, Returning)
    else Goto(WithQueue(s, p, Sent(s.queues[p], v + 1)), p, Notifying)
  }

  function FilterForward(s: State, v: int): State
    requires Shaped(s)
  {
    var q := s.queues[FILTER];
    Goto(WithQueue(s, FILTER, q.(available := q.available + [v])), FILTER, Notifying)
  }

  function ClientAct(limit: int, s: State, p: nat): State
    requires Shaped(s) && p < CLIENTS
  {
    match s.nodes[p]
    case Idle => s
    case Checking => ClientCheck(s, p)
    case Signalling(_) => s
    case Handling(v) => ClientForward(limit, s, p, v)
    case Notifying => Goto(Notified(s, Receiver(p)), p, Returning)
    case Returning => Goto(WithQueue(s, Incoming(p), Returned(s.queues[Incoming(p)])), p, NotifyingBack)
    case NotifyingBack => Goto(Notified(s, Incoming(p)), p, CheckingUsed)
    case CheckingUsed => Goto(WithQueue(s, p, Flushed(s.queues[p])), p, Idle)
  }

  /** The filter's select loop goes on until neither queue has anything for it. */
  function FilterAct(s: State): State
    requires Shaped(s)
  {
    match s.nodes[FILTER]
    case Checking => FilterCheck(s)
    case Signalling(v) => Goto(Notified(s, Incoming(FILTER)), FILTER, Handling(v))
    case Handling(v) => FilterForward(s, v)
    case Notifying => Goto(Notified(s, Receiver(FILTER)), FILTER, Checking)
    case CheckingUsed =>
      if s.queues[FILTER].used == 0 then Goto(s, FILTER, Idle)
      else Goto(WithQueue(s, FILTER, Flushed(s.queues[FILTER])), FILTER, Checking)
    case _ => s
  }

  function Next(limit: int, s: State, e: Step): State
    requires Enabled(s, e)
  {
    match e
    case Start => WithQueue(s, 0, Sent(s.queues[0], 1)).(starter := ToNotify)
    case StartNotify => Notified(s, Receiver(0)).(starter := Started)
    case Wake(p) => Goto(s.(notified := s.notified[p := false]), p, Checking)
    case Act(p) => if p == FILTER then FilterAct(s) else ClientAct(limit, s, p)
  }

  ghost predicate Initial(s: State) {
    && Shaped(s) && s.starter.ToSend? && s.delivered == []
    && forall p :: 0 <= p < NODES ==> s.nodes[p].Idle? && s.queues[p] == Queue([], 0, 0)
  }

  predicate Runs(limit: int, s: State, es: seq<Step>)
    decreases |es|
  {
    es == [] || (Enabled(s, es[0]) && Runs(limit, Next(limit, s, es[0]), es[1..]))
  }

  function Run(limit: int, s: State, es: seq<Step>): State
    requires Runs(limit, s, es)
    decreases |es|
  {
    if es == [] then s else Run(limit, Next(limit, s, es[0]), es[1..])
  }

  // ------------------------------------------------------------------ the one payload

  /** Where the payload is, and its value. */
  datatype Token = NotSent | InQueue(q: nat, v: int) | AtNode(p: nat, v: int) | Finished

  predicate Carries(n: Node, v: int) {
    n == Handling(v) || n == Signalling(v)
  }

  predicate CarriesNone(n: Node) {
    !n.Handling? && !n.Signalling?
  }

  /** The client a payload on this queue is bound for. */
  function BoundFor(q: nat): nat
    requires q < NODES
  {
    if q == FILTER then 1 else (q + 1) % CLIENTS
  }

  /** Every queue is empty but the one the payload is on. */
  ghost predicate OnQueue(s: State, t: Token) {
    && Shaped(s) && (t.InQueue? ==> t.q < NODES)
    && forall q :: 0 <= q < NODES ==>
         s.queues[q].available == if t.InQueue? && t.q == q then [t.v] else []
  }

  predicate OnQueueAt(s: State, t: Token, q: nat)
    requires Shaped(s) && q < NODES
  {
    s.queues[q].available == if t.InQueue? && t.q == q then [t.v] else []
  }

  /** Only the node that has the payload is handling one. */
  ghost predicate WithNode(s: State, t: Token) {
    && Shaped(s) && (t.AtNode? ==> t.p < NODES)
    && forall p :: 0 <= p < NODES ==>
         if t.AtNode? && t.p == p then Carries(s.nodes[p], t.v) else CarriesNone(s.nodes[p])
  }

  /** Clients and the filter each stay within their own program. */
  ghost predicate InRole(s: State) {
    && Shaped(s)
    && (forall p :: 0 <= p < CLIENTS ==> !s.nodes[p].Signalling?)
    && !s.nodes[FILTER].Returning? && !s.nodes[FILTER].NotifyingBack?
  }

  /** The payload is where the token says, and nowhere else. */
  ghost predicate OnlyThere(s: State, t: Token) {
    OnQueue(s, t) && WithNode(s, t) && InRole(s) && (s.starter.ToSend? <==> t.NotSent?)
  }

  /** The deliveries made so far: 1, 2, 3 and so on, payload v always to client v mod 4. */
  ghost predicate InOrder(ds: seq<Delivery>) {
    forall i :: 0 <= i < |ds| ==> ds[i] == Delivery((i + 1) % CLIENTS, i + 1)
  }

  /** The payload's value fits its place and the deliveries. */
  ghost predicate ValueFits(limit: int, s: State, t: Token) {
    && InOrder(s.delivered)
    && match t
       case NotSent => |s.delivered| == 0
       case InQueue(q, v) => q < NODES && |s.delivered| == v - 1 < limit && BoundFor(q) == v % CLIENTS
       case AtNode(p, v) =>
         if p == FILTER then |s.delivered| == v - 1 < limit && v % CLIENTS == 1
         else |s.delivered| == v <= limit && p == v % CLIENTS
       case Finished => |s.delivered| == limit
  }

  ghost predicate Where(limit: int, s: State, t: Token) {
    OnlyThere(s, t) && ValueFits(limit, s, t)
  }

  /** How a step moves the payload. */
  function Moved(limit: int, s: State, e: Step, t: Token): Token
    requires Enabled(s, e)
  {
    match e
    case Start => InQueue(0, 1)
    case StartNotify => t
    case Wake(_) => t
    case Act(p) =>
      if s.nodes[p].Checking? && s.queues[Incoming(p)].available != [] then
        AtNode(p, s.queues[Incoming(p)].available[0])
      else if s.nodes[p].Handling? then
        var v := s.nodes[p].v;
        if p == FILTER then InQueue(p, v) else if v == limit then Finished else InQueue(p, v + 1)
      else t
  }

  /** A node's step changes its own state and the two queues it is on, and only adds notifications. */
  lemma ActFrame(limit: int, s: State, p: nat, q: nat, j: nat)
    requires Enabled(s, Act(p)) && q < NODES && j < NODES
    ensures var r := Next(limit, s, Act(p));
            && Shaped(r) && r.starter == s.starter
            && (j != p ==> r.nodes[j] == s.nodes[j])
            && (s.notified[j] ==> r.notified[j])
            && (q != p && Incoming(p) != q ==> r.queues[q] == s.queues[q])
  {
  }

  /** On its own queue a node only adds the payload it forwards. */
  lemma SenderMoves(limit: int, s: State, p: nat, t: Token)
    requires Enabled(s, Act(p)) && InRole(s) && OnQueueAt(s, t, p) && OnQueueAt(s, t, Incoming(p))
    requires s.nodes[p].Handling? ==> t == AtNode(p, s.nodes[p].v)
    ensures OnQueueAt(Next(limit, s, Act(p)), Moved(limit, s, Act(p), t), p)
  {
  }

  /** From the queue it receives on, a node only takes the payload. */
  lemma ReceiverMoves(limit: int, s: State, p: nat, t: Token)
    requires Enabled(s, Act(p)) && InRole(s) && OnQueueAt(s, t, Incoming(p))
    requires s.nodes[p].Handling? ==> t == AtNode(p, s.nodes[p].v)
    ensures OnQueueAt(Next(limit, s, Act(p)), Moved(limit, s, Act(p), t), Incoming(p))
  {
  }

  lemma ActMovesOnQueueAt(limit: int, s: State, p: nat, t: Token, q: nat)
    requires Enabled(s, Act(p)) && InRole(s) && q < NODES
    requires OnQueueAt(s, t, q) && OnQueueAt(s, t, Incoming(p))
    requires s.nodes[p].Handling? ==> t == AtNode(p, s.nodes[p].v)
    ensures OnQueueAt(Next(limit, s, Act(p)), Moved(limit, s, Act(p), t), q)
  {
    ActFrame(limit, s, p, q, p);
    if q == p {
      SenderMoves(limit, s, p, t);
    } else if q == Incoming(p) {
      ReceiverMoves(limit, s, p, t);
    }
  }

  lemma ActMovesOnQueue(limit: int, s: State, p: nat, t: Token)
    requires OnlyThere(s, t) && Enabled(s, Act(p))
    ensures OnQueue(Next(limit, s, Act(p)), Moved(limit, s, Act(p), t))
  {
    var r, m := Next(limit, s, Act(p)), Moved(limit, s, Act(p), t);
    assert OnQueueAt(s, t, Incoming(p));
    forall q: nat | q < NODES
      ensures r.queues[q].available == if m.InQueue? && m.q == q then [m.v] else []
    {
      ActMovesOnQueueAt(limit, s, p, t, q);
    }
  }

  lemma StepMovesOnQueue(limit: int, s: State, e: Step, t: Token)
    requires OnlyThere(s, t) && Enabled(s, e)
    ensures OnQueue(Next(limit, s, e), Moved(limit, s, e, t))
  {
    if e.Act? {
      ActMovesOnQueue(limit, s, e.p, t);
    }
  }

  lemma StepMovesWithNode(limit: int, s: State, e: Step, t: Token)
    requires OnlyThere(s, t) && Enabled(s, e)
    ensures WithNode(Next(limit, s, e), Moved(limit, s, e, t))
  {
    if e.Act? {
      assert OnQueueAt(s, t, Incoming(e.p));
      ActMovesWithNode(limit, s, e.p, t);
    }
  }

  lemma ActMovesWithNode(limit: int, s: State, p: nat, t: Token)
    requires WithNode(s, t) && InRole(s) && Enabled(s, Act(p)) && OnQueueAt(s, t, Incoming(p))
    ensures WithNode(Next(limit, s, Act(p)), Moved(limit, s, Act(p), t))
  {
  }

  lemma StepMovesToken(limit: int, s: State, e: Step, t: Token)
    requires OnlyThere(s, t) && Enabled(s, e)
    ensures OnlyThere(Next(limit, s, e), Moved(limit, s, e, t))
  {
    StepMovesOnQueue(limit, s, e, t);
    StepMovesWithNode(limit, s, e, t);
  }

  lemma StepKeepsValue(limit: int, s: State, e: Step, t: Token)
    requires limit >= 1 && Where(limit, s, t) && Enabled(s, e)
    ensures ValueFits(limit, Next(limit, s, e), Moved(limit, s, e, t))
  {
  }

  // ------------------------------------------------------------------ buffers and wakeups

  /** A client holds one buffer from taking a payload until it returns it. */
  predicate Holds(n: Node) {
    n.Handling? || n.Notifying? || n.Returning?
  }

  predicate HeldAt(s: State, p: nat)
    requires Shaped(s) && p < NODES
  {
    s.queues[Incoming(p)].held == if p < CLIENTS && Holds(s.nodes[p]) then 1 else 0
  }

  ghost predicate HeldByReceivers(s: State) {
    Shaped(s) && forall p :: 0 <= p < NODES ==> HeldAt(s, p)
  }

  function Unreturned(q: Queue): nat {
    |q.available| + q.held + q.used
  }

  /** A queue that a client sends on never has more than two buffers it has not freed. */
  ghost predicate TwoBuffers(s: State) {
    Shaped(s) && forall q :: 0 <= q < CLIENTS ==> Unreturned(s.queues[q]) <= 2
  }

  predicate NoticedAt(s: State, q: nat)
    requires Shaped(s) && q < NODES
  {
    s.queues[q].available != [] ==>
      || s.notified[Receiver(q)] || s.nodes[Receiver(q)].Checking?
      || s.nodes[q].Notifying? || (q == 0 && s.starter.ToNotify?)
  }

  /** A payload on a queue is always about to be noticed. */
  ghost predicate NoLostWakeup(s: State) {
    Shaped(s) && forall q :: 0 <= q < NODES ==> NoticedAt(s, q)
  }

  /** How many returned buffers a node may leave when it goes idle: a client frees one a time. */
  function Spare(q: nat): nat {
    if q == FILTER then 0 else 1
  }

  predicate ReturnNoticedAt(s: State, q: nat)
    requires Shaped(s) && q < NODES
  {
    s.queues[q].used > Spare(q) ==>
      || s.notified[q] || !s.nodes[q].Idle?
      || s.nodes[Receiver(q)].NotifyingBack? || s.nodes[Receiver(q)].Signalling?
  }

  /** More returned buffers than that are always about to be noticed. */
  ghost predicate ReturnsNoticed(s: State) {
    Shaped(s) && forall q :: 0 <= q < NODES ==> ReturnNoticedAt(s, q)
  }

  ghost predicate Inv(limit: int, s: State, t: Token) {
    Where(limit, s, t) && HeldByReceivers(s) && TwoBuffers(s) && NoLostWakeup(s) && ReturnsNoticed(s)
  }

  lemma StepKeepsHeldAt(limit: int, s: State, e: Step, p: nat)
    requires Enabled(s, e) && InRole(s) && p < NODES && HeldAt(s, p)
    ensures HeldAt(Next(limit, s, e), p)
  {
    if e.Act? && e.p == p {
      ReceiverKeepsHeld(limit, s, p);
    } else if e.Act? && e.p == Incoming(p) {
      SenderKeepsHeld(limit, s, e.p);
      ActFrame(limit, s, e.p, 0, p);
    } else if e.Act? {
      ActFrame(limit, s, e.p, Incoming(p), p);
    }
  }

  lemma ReceiverKeepsHeld(limit: int, s: State, p: nat)
    requires Enabled(s, Act(p)) && InRole(s) && HeldAt(s, p)
    ensures HeldAt(Next(limit, s, Act(p)), p)
  {
  }

  lemma SenderKeepsHeld(limit: int, s: State, p: nat)
    requires Enabled(s, Act(p)) && Incoming(p) != p
    ensures Next(limit, s, Act(p)).queues[p].held == s.queues[p].held
  {
  }

  lemma StepKeepsNoticedAt(limit: int, s: State, e: Step, q: nat)
    requires Enabled(s, e) && q < NODES && |s.queues[q].available| <= 1 && NoticedAt(s, q)
    ensures NoticedAt(Next(limit, s, e), q)
  {
    if e.Act? && e.p != q && e.p != Receiver(q) {
      ActFrame(limit, s, e.p, q, q);
      ActFrame(limit, s, e.p, q, Receiver(q));
    } else if e.Act? && e.p != q {
      ReceiverActs(limit, s, q);
    } else if e.Act? {
      SenderActs(limit, s, q);
    }
  }

  lemma SenderActs(limit: int, s: State, q: nat)
    requires q < NODES && Enabled(s, Act(q)) && NoticedAt(s, q)
    ensures NoticedAt(Next(limit, s, Act(q)), q)
  {
    ActFrame(limit, s, q, q, Receiver(q));
  }

  lemma ReceiverActs(limit: int, s: State, q: nat)
    requires q < NODES && Enabled(s, Act(Receiver(q))) && |s.queues[q].available| <= 1 && NoticedAt(s, q)
    ensures NoticedAt(Next(limit, s, Act(Receiver(q))), q)
  {
    ActFrame(limit, s, Receiver(q), q, q);
    ActFrame(limit, s, Receiver(q), q, Receiver(q));
  }

  /** Before it sends, a client frees a buffer if it has two, since its receiver holds only one. */
  lemma StepKeepsTwoAt(limit: int, s: State, e: Step, q: nat)
    requires Enabled(s, e) && q < CLIENTS && HeldAt(s, Receiver(q)) && Unreturned(s.queues[q]) <= 2
    requires s.nodes[q].Handling? || s.starter.ToSend? ==> s.queues[q].available == []
    ensures Unreturned(Next(limit, s, e).queues[q]) <= 2
  {
    if e.Act? && e.p != q && e.p != Receiver(q) {
      ActFrame(limit, s, e.p, q, q);
    } else if e.Act? && e.p != q {
      ReceiverKeepsTwo(limit, s, q);
    }
  }

  lemma ReceiverKeepsTwo(limit: int, s: State, q: nat)
    requires q < CLIENTS && Enabled(s, Act(Receiver(q))) && HeldAt(s, Receiver(q)) && Unreturned(s.queues[q]) <= 2
    ensures Unreturned(Next(limit, s, Act(Receiver(q))).queues[q]) <= 2
  {
  }

  lemma StepKeepsReturnNoticedAt(limit: int, s: State, e: Step, q: nat)
    requires Enabled(s, e) && InRole(s) && q < NODES && ReturnNoticedAt(s, q)
    requires q < CLIENTS ==> s.queues[q].used <= 2
    ensures ReturnNoticedAt(Next(limit, s, e), q)
  {
    if e.Act? && e.p != q && e.p != Receiver(q) {
      ActFrame(limit, s, e.p, q, q);
      ActFrame(limit, s, e.p, q, Receiver(q));
    } else if e.Act? && e.p != q {
      ReceiverReturns(limit, s, q);
    } else if e.Act? {
      SenderFrees(limit, s, q);
    }
  }

  lemma ReceiverReturns(limit: int, s: State, q: nat)
    requires q < NODES && Enabled(s, Act(Receiver(q))) && InRole(s) && ReturnNoticedAt(s, q)
    ensures ReturnNoticedAt(Next(limit, s, Act(Receiver(q))), q)
  {
    ActFrame(limit, s, Receiver(q), q, q);
  }

  lemma SenderFrees(limit: int, s: State, q: nat)
    requires q < NODES && Enabled(s, Act(q)) && InRole(s) && (q < CLIENTS ==> s.queues[q].used <= 2)
    ensures ReturnNoticedAt(Next(limit, s, Act(q)), q)
  {
  }

  lemma StepKeepsReturns(limit: int, s: State, e: Step)
    requires Enabled(s, e) && InRole(s) && TwoBuffers(s) && ReturnsNoticed(s)
    ensures ReturnsNoticed(Next(limit, s, e))
  {
    forall q: nat | q < NODES
      ensures ReturnNoticedAt(Next(limit, s, e), q)
    {
      assert q < CLIENTS ==> Unreturned(s.queues[q]) <= 2;
      StepKeepsReturnNoticedAt(limit, s, e, q);
    }
  }

  lemma StepKeepsHeldAndNoticed(limit: int, s: State, e: Step, t: Token)
    requires OnlyThere(s, t) && HeldByReceivers(s) && NoLostWakeup(s) && Enabled(s, e)
    ensures var r := Next(limit, s, e); HeldByReceivers(r) && NoLostWakeup(r)
  {
    var r := Next(limit, s, e);
    forall p: nat | p < NODES
      ensures HeldAt(r, p) && NoticedAt(r, p)
    {
      StepKeepsHeldAt(limit, s, e, p);
      StepKeepsNoticedAt(limit, s, e, p);
    }
  }

  lemma StepKeepsTwoBuffers(limit: int, s: State, e: Step, t: Token)
    requires OnlyThere(s, t) && HeldByReceivers(s) && TwoBuffers(s) && Enabled(s, e)
    ensures TwoBuffers(Next(limit, s, e))
  {
    forall q: nat | q < CLIENTS
      ensures Unreturned(Next(limit, s, e).queues[q]) <= 2
    {
      StepKeepsTwoAt(limit, s, e, q);
    }
  }

  lemma StepKeepsInv(limit: int, s: State, e: Step, t: Token)
    requires limit >= 1 && Inv(limit, s, t) && Enabled(s, e)
    ensures Inv(limit, Next(limit, s, e), Moved(limit, s, e, t))
  {
    StepMovesToken(limit, s, e, t);
    StepKeepsValue(limit, s, e, t);
    StepKeepsHeldAndNoticed(limit, s, e, t);
    StepKeepsTwoBuffers(limit, s, e, t);
    StepKeepsReturns(limit, s, e);
  }

  lemma InitialOk(limit: int, s: State)
    requires limit >= 1 && Initial(s)
    ensures Inv(limit, s, NotSent)
  {
  }

  /**
   In every run there is at most one payload, bound for the client its value names; deliveries
   are in order; client queues have at most two unreturned buffers; and no wakeup is lost.
   */
  lemma {:induction false} RunKeepsInv(limit: int, s: State, es: seq<Step>, t: Token) returns (end: Token)
    requires limit >= 1 && Inv(limit, s, t) && Runs(limit, s, es)
    ensures Inv(limit, Run(limit, s, es), end)
    decreases |es|
  {
    if es == [] {
      end := t;
    } else {
      var e := es[0];
      StepKeepsInv(limit, s, e, t);
      end := RunKeepsInv(limit, Next(limit, s, e), es[1..], Moved(limit, s, e, t));
    }
  }

  /** How many payloads are on their way to a client: on a queue, or with the filter. */
  function Undelivered(s: State): nat
    requires Shaped(s)
  {
    |s.queues[0].available| + |s.queues[1].available| + |s.queues[2].available|
    + |s.queues[3].available| + |s.queues[4].available|
    + if s.nodes[FILTER].Signalling? || s.nodes[FILTER].Handling? then 1 else 0
  }

  /** The number of deliveries never passes the limit, and one payload at most is under way. */
  lemma {:induction false} AtMostOnePayload(limit: int, s: State, es: seq<Step>)
    requires limit >= 1 && Initial(s) && Runs(limit, s, es)
    ensures Shaped(Run(limit, s, es)) && Undelivered(Run(limit, s, es)) <= 1
    ensures InOrder(Run(limit, s, es).delivered) && |Run(limit, s, es).delivered| <= limit
    ensures forall q :: 0 <= q < NODES && Run(limit, s, es).queues[q].available != [] ==>
              BoundFor(q) == Run(limit, s, es).queues[q].available[0] % CLIENTS
  {
    InitialOk(limit, s);
    var end := RunKeepsInv(limit, s, es, NotSent);
    OnePayload(Run(limit, s, es), end);
  }

  lemma OnePayload(s: State, t: Token)
    requires OnlyThere(s, t)
    ensures Undelivered(s) <= 1
  {
  }

  // ------------------------------------------------------------------ nobody gets stuck

  ghost predicate Quiet(s: State) {
    forall e :: !Enabled(s, e)
  }

  /** A payload that is on a queue or with a node is noticed there. */
  lemma TokenNoticed(limit: int, s: State, t: Token)
    requires Inv(limit, s, t)
    ensures t.InQueue? ==> t.q < NODES && s.queues[t.q].available == [t.v] && NoticedAt(s, t.q)
    ensures t.AtNode? ==> t.p < NODES && !s.nodes[t.p].Idle?
  {
    if t.AtNode? {
      assert Carries(s.nodes[t.p], t.v);
    } else if t.InQueue? {
      assert OnQueueAt(s, t, t.q);
    }
  }

  lemma QuietIsFinished(limit: int, s: State, t: Token)
    requires Inv(limit, s, t) && Quiet(s)
    ensures t.Finished?
  {
    TokenNoticed(limit, s, t);
    assert !Enabled(s, Start) && !Enabled(s, StartNotify);
    QuietIsIdle(s);
  }

  /** A run that can go no further has made exactly the limit's number of deliveries. */
  lemma {:induction false} QuietHasDeliveredAll(limit: int, s: State, es: seq<Step>)
    requires limit >= 1 && Initial(s) && Runs(limit, s, es) && Quiet(Run(limit, s, es))
    ensures |Run(limit, s, es).delivered| == limit
    ensures InOrder(Run(limit, s, es).delivered)
    ensures Run(limit, s, es).delivered[limit - 1] == Delivery(limit % CLIENTS, limit)
  {
    InitialOk(limit, s);
    var end := RunKeepsInv(limit, s, es, NotSent);
    QuietIsFinished(limit, Run(limit, s, es), end);
  }

  /**
   And it has returned every buffer; at most one a queue still waits to be freed, and none on
   the filter's own queue.
   */
  lemma {:induction false} QuietHasReturnedAll(limit: int, s: State, es: seq<Step>, q: nat)
    requires limit >= 1 && Initial(s) && Runs(limit, s, es) && Quiet(Run(limit, s, es)) && q < NODES
    ensures var end := Run(limit, s, es);
      && Shaped(end) && end.queues[q].available == [] && end.queues[q].held == 0
      && end.queues[q].used <= if q == FILTER then 0 else 1
  {
    InitialOk(limit, s);
    var t := RunKeepsInv(limit, s, es, NotSent);
    var end := Run(limit, s, es);
    QuietIsFinished(limit, end, t);
    QuietIsIdle(end);
    assert HeldAt(end, Receiver(q)) && Incoming(Receiver(q)) == q && ReturnNoticedAt(end, q);
  }

  lemma QuietIsIdle(s: State)
    requires Shaped(s) && Quiet(s)
    ensures forall p :: 0 <= p < NODES ==> s.nodes[p].Idle? && !s.notified[p]
  {
    forall p | 0 <= p < NODES
      ensures s.nodes[p].Idle? && !s.notified[p]
    {
      assert !Enabled(s, Act(p)) && !Enabled(s, Wake(p));
    }
  }

  // ------------------------------------------------------------------ every run ends

  /** Hops left, counting the filter as one, with thirty steps for each. */
  function TokenWork(limit: int, t: Token): int {
    30 * match t
      case NotSent => 2 * limit
      case InQueue(q, v) => 2 * (limit - v) + if q == 0 then 2 else 1
      case AtNode(p, v) => 2 * (limit - v) + if p == FILTER then 1 else 0
      case Finished => 0
  }

  /** Steps until a node is idle, and those that the notifications it still gives may cause. */
  function NodeWork(n: Node): nat {
    match n
    case Idle => 0
    case CheckingUsed => 1
    case Checking => 2
    case NotifyingBack => 7
    case Returning => 11
    case Notifying => 17
    case Handling(_) => 18
    case Signalling(_) => 24
  }

  function NodesWork(ns: seq<Node>): nat {
    if ns == [] then 0 else NodeWork(ns[0]) + NodesWork(ns[1..])
  }

  function WakeWork(ws: seq<bool>): nat {
    if ws == [] then 0 else (if ws[0] then 5 else 0) + WakeWork(ws[1..])
  }

  function Work(limit: int, s: State, t: Token): int
    requires Shaped(s)
  {
    TokenWork(limit, t) + NodesWork(s.nodes) + WakeWork(s.notified) + 3 * s.queues[FILTER].used
    + match s.starter
      case ToSend => 7
      case ToNotify => 6
      case Started => 0
  }

  lemma {:induction false} NodesWorkUpdate(ns: seq<Node>, p: nat, n: Node)
    requires p < |ns|
    ensures NodesWork(ns[p := n]) == NodesWork(ns) - NodeWork(ns[p]) + NodeWork(n)
  {
    if p == 0 {
      assert ns[p := n][1..] == ns[1..];
    } else {
      assert ns[p := n][1..] == ns[1..][p - 1 := n];
      NodesWorkUpdate(ns[1..], p - 1, n);
    }
  }

  lemma {:induction false} WakeWorkUpdate(ws: seq<bool>, p: nat, w: bool)
    requires p < |ws|
    ensures WakeWork(ws[p := w]) == WakeWork(ws) - (if ws[p] then 5 else 0) + (if w then 5 else 0)
  {
    if p == 0 {
      assert ws[p := w][1..] == ws[1..];
    } else {
      assert ws[p := w][1..] == ws[1..][p - 1 := w];
      WakeWorkUpdate(ws[1..], p - 1, w);
    }
  }

  predicate Takes(s: State, p: nat)
    requires Shaped(s) && p < NODES
  {
    s.nodes[p].Checking? && s.queues[Incoming(p)].available != []
  }

  /** A hop makes the payload's work thirty less; nothing makes it more. */
  lemma ActMovesTokenOn(limit: int, s: State, p: nat, t: Token)
    requires limit >= 1 && Where(limit, s, t) && Enabled(s, Act(p))
    ensures TokenWork(limit, Moved(limit, s, Act(p), t)) <= TokenWork(limit, t) - if Takes(s, p) then 30 else 0
  {
    assert Takes(s, p) ==> t == InQueue(Incoming(p), s.queues[Incoming(p)].available[0]);
    assert s.nodes[p].Handling? ==> t == AtNode(p, s.nodes[p].v);
  }

  /** Whom a step of `p` notifies, if anybody. */
  function Notifies(s: State, p: nat): (j: nat)
    requires Shaped(s) && p < NODES
    ensures j < NODES
  {
    if s.nodes[p].Notifying? then Receiver(p) else Incoming(p)
  }

  /** What a node's step does to its own work, the notifications and the filter's used buffers. */
  lemma ActSpends(limit: int, s: State, p: nat)
    requires Enabled(s, Act(p)) && InRole(s)
    ensures var r := Next(limit, s, Act(p)); var j := Notifies(s, p); var w := r.notified[j];
            && r.nodes == s.nodes[p := r.nodes[p]] && r.notified == s.notified[j := w]
            && NodeWork(r.nodes[p]) + (if w then 5 else 0) + 3 * r.queues[FILTER].used
               < NodeWork(s.nodes[p]) + (if s.notified[j] then 5 else 0) + 3 * s.queues[FILTER].used
                 + if Takes(s, p) then 30 else 0
  {
  }

  lemma ActUsesUpWork(limit: int, s: State, p: nat, t: Token)
    requires limit >= 1 && Where(limit, s, t) && Enabled(s, Act(p))
    ensures Work(limit, Next(limit, s, Act(p)), Moved(limit, s, Act(p), t)) < Work(limit, s, t)
  {
    var r, j := Next(limit, s, Act(p)), Notifies(s, p);
    ActMovesTokenOn(limit, s, p, t);
    ActSpends(limit, s, p);
    ActFrame(limit, s, p, 0, 0);
    NodesWorkUpdate(s.nodes, p, r.nodes[p]);
    WakeWorkUpdate(s.notified, j, r.notified[j]);
  }

  lemma StepUsesUpWork(limit: int, s: State, e: Step, t: Token)
    requires limit >= 1 && Where(limit, s, t) && Enabled(s, e)
    ensures Work(limit, Next(limit, s, e), Moved(limit, s, e, t)) < Work(limit, s, t)
  {
    match e
    case Start =>
    case StartNotify => WakeWorkUpdate(s.notified, Receiver(0), true);
    case Wake(p) =>
      WakeWorkUpdate(s.notified, p, false);
      NodesWorkUpdate(s.nodes, p, Checking);
    case Act(p) => ActUsesUpWork(limit, s, p, t);
  }

  lemma {:induction false} WorkOverRun(limit: int, s: State, es: seq<Step>, t: Token)
    requires limit >= 1 && Inv(limit, s, t) && Runs(limit, s, es)
    ensures |es| <= Work(limit, s, t)
    decreases |es|
  {
    assert TokenWork(limit, t) >= 0;
    if es != [] {
      StepUsesUpWork(limit, s, es[0], t);
      StepKeepsInv(limit, s, es[0], t);
      WorkOverRun(limit, Next(limit, s, es[0]), es[1..], Moved(limit, s, es[0], t));
    }
  }

  lemma {:induction false} NodesIdle(ns: seq<Node>)
    requires forall p :: 0 <= p < |ns| ==> ns[p].Idle?
    ensures NodesWork(ns) == 0
  {
    if ns != [] {
      NodesIdle(ns[1..]);
    }
  }

  lemma {:induction false} WakesAtMost(ws: seq<bool>)
    ensures WakeWork(ws) <= 5 * |ws|
  {
    if ws != [] {
      WakesAtMost(ws[1..]);
    }
  }

  /** However the nodes interleave, no run is longer than this: all of them come to rest. */
  lemma {:induction false} EveryRunEnds(limit: int, s: State, es: seq<Step>)
    requires limit >= 1 && Initial(s) && Runs(limit, s, es)
    ensures |es| <= 60 * limit + 32
  {
    InitialOk(limit, s);
    NodesIdle(s.nodes);
    WakesAtMost(s.notified);
    WorkOverRun(limit, s, es, NotSent);
  }

  /** The program as it is: twenty deliveries, the last one to client 0. */
  lemma {:induction false} TwentyDeliveries(s: State, es: seq<Step>)
    requires Initial(s) && Runs(COUNT_LIMIT, s, es) && Quiet(Run(COUNT_LIMIT, s, es))
    ensures |Run(COUNT_LIMIT, s, es).delivered| == 20
    ensures Run(COUNT_LIMIT, s, es).delivered[19] == Delivery(0, 20)
  {
    QuietHasDeliveredAll(COUNT_LIMIT, s, es);
  }
}
