/**
 What the single-component ethernet driver is meant to do with its buffers, stated on
 values: the receive side is a free pool, a FIFO of completed frames and the buffers the
 NIC holds; the transmit side is a free pool and the buffers the NIC holds.  The driver
 itself (eth_driver.dfy) does no bounds checks, so its memory safety is the conservation
 theorem proved here over every run.
 */
module EthModel {
  import opened Bytes
  import opened Ownership
  import opened Streams

  const RX_BUFS: nat := 510
  const TX_BUFS: nat := 510
  const BUF_SIZE: nat := 2048

  type Frame = seq<byte>

  datatype Option<+T> = None | Some(value: T)

  type RxId = i: nat | i < RX_BUFS
  type TxId = i: nat | i < TX_BUFS

  /** One receive buffer: its DMA memory and the length recorded at completion. */
  datatype RawBuf = RawBuf(data: Frame, len: nat)
  type EthBuf = b: RawBuf | |b.data| == BUF_SIZE && b.len <= BUF_SIZE
    witness RawBuf(seq(BUF_SIZE, _ => 0 as byte), 0)
  type RxMemory = m: seq<EthBuf> | |m| == RX_BUFS
    witness seq(RX_BUFS, _ => RawBuf(seq(BUF_SIZE, _ => 0 as byte), 0))
  type Dma = d: Frame | |d| == BUF_SIZE witness seq(BUF_SIZE, _ => 0 as byte)
  type TxMemory = m: seq<Dma> | |m| == TX_BUFS
    witness seq(TX_BUFS, _ => seq(BUF_SIZE, _ => 0 as byte))

  // ---------------------------------------------------------------- receive side

  datatype Rx = Rx(pool: seq<RxId>, pending: seq<RxId>, nic: multiset<RxId>, mem: RxMemory)

  /** All the buffers some holder has, with multiplicity. */
  ghost function RxStock(s: Rx): multiset<nat> {
    multiset(s.pool) + multiset(s.pending) + s.nic
  }

  ghost predicate RxOwned(s: Rx) {
    && RxStock(s) == AllIds(RX_BUFS)
    && |s.pending| < RX_BUFS
  }

  function Payload(b: EthBuf): Frame {
    b.data[..b.len]
  }

  function Frames(ids: seq<RxId>, mem: RxMemory): (fs: seq<Frame>)
    ensures |fs| == |ids|
  {
    seq(|ids|, i requires 0 <= i < |ids| => Payload(mem[ids[i]]))
  }

  /** The frames waiting for the stack, oldest first. */
  function Queue(s: Rx): seq<Frame> {
    Frames(s.pending, s.mem)
  }

  function Allocate(s: Rx, size: nat): (Rx, Option<RxId>) {
    if size > BUF_SIZE || s.pool == [] then (s, None)
    else
      var b := s.pool[|s.pool| - 1];
      (s.(pool := s.pool[..|s.pool| - 1], nic := s.nic + multiset{b}), Some(b))
  }

  /** A completion carries one frame into the queue, or returns its buffers unread. */
  predicate Queues(s: Rx, cookies: seq<RxId>) {
    |cookies| == 1 && |s.pending| + 1 < RX_BUFS
  }

  ghost predicate CompletionLegal(s: Rx, cookies: seq<RxId>, lens: seq<nat>) {
    && |lens| == |cookies|
    && multiset(cookies) <= s.nic
    && forall i :: 0 <= i < |lens| ==> lens[i] <= BUF_SIZE
  }

  ghost function Complete(s: Rx, cookies: seq<RxId>, lens: seq<nat>): Rx
    requires CompletionLegal(s, cookies, lens)
  {
    var nic := s.nic - multiset(cookies);
    if Queues(s, cookies) then
      var b := cookies[0];
      Rx(s.pool, s.pending + [b], nic, s.mem[b := s.mem[b].(len := lens[0])])
    else
      s.(pool := s.pool + cookies, nic := nic)
  }

  /** How many of the answers come before the first refusal, at most `limit`. */
  function Accepts(answers: seq<int>, limit: int): (k: nat)
    ensures k <= |answers|
    ensures k == 0 || k <= limit
    ensures forall i :: 0 <= i < k ==> answers[i] > 0
    ensures k < |answers| && k < limit ==> answers[k] <= 0
  {
    if answers == [] || limit <= 0 || answers[0] <= 0 then 0
    else 1 + Accepts(answers[1..], limit - 1)
  }

  /** The number of frames one poll delivers: its budget, the queue and the stack bound it. */
  function Delivered(s: Rx, budget: int, answers: seq<int>): (k: nat)
    ensures k <= |s.pending|
  {
    Accepts(answers, if budget < |s.pending| then budget else |s.pending|)
  }

  /** The oldest `k` queued buffers have been read and are free again. */
  function Poll(s: Rx, k: nat): (t: Rx)
    requires k <= |s.pending|
    ensures |t.pool| == |s.pool| + k && |t.pending| == |s.pending| - k
  {
    s.(pool := s.pool + s.pending[..k], pending := s.pending[k..])
  }

  function Front(s: Rx): Frame
    requires s.pending != []
  {
    Payload(s.mem[s.pending[0]])
  }

  function Retire(s: Rx): Rx
    requires s.pending != []
  {
    s.(pool := s.pool + [s.pending[0]], pending := s.pending[1..])
  }

  datatype Polled = Polled(state: Rx, score: int, offered: seq<Frame>)

  /** pico_eth_poll one frame at a time; an exhausted script of answers is a refusal. */
  function PollLoop(s: Rx, budget: int, answers: seq<int>): Polled
    decreases |s.pending|
  {
    if budget <= 0 || s.pending == [] then Polled(s, budget, [])
    else if answers == [] || answers[0] <= 0 then Polled(s, budget, [Front(s)])
    else
      var p := PollLoop(Retire(s), budget - 1, answers[1..]);
      p.(offered := [Front(s)] + p.offered)
  }

  /** The frames a poll shows to the stack: those it accepts, and the one it refuses, if any. */
  function Offered(s: Rx, budget: int, answers: seq<int>): (n: nat)
    ensures n <= |s.pending|
  {
    var k := Delivered(s, budget, answers);
    if k < budget && k < |s.pending| then k + 1 else k
  }

  /**
   A poll delivers the front of the queue, up to its budget or the first refusal; a refused
   frame stays at the front, and the score left is the budget less the number delivered.
   */
  lemma {:induction false} PollLoopDelivers(s: Rx, budget: int, answers: seq<int>)
    ensures var k := Delivered(s, budget, answers);
      PollLoop(s, budget, answers)
        == Polled(Poll(s, k), budget - k, Queue(s)[..Offered(s, budget, answers)])
    decreases |s.pending|
  {
    var k := Delivered(s, budget, answers);
    if budget <= 0 || s.pending == [] || answers == [] || answers[0] <= 0 {
      assert k == 0;
      assert Poll(s, 0) == s;
      if budget > 0 && s.pending != [] {
        assert Queue(s)[..1] == [Front(s)];
      }
    } else {
      PollLoopDelivers(Retire(s), budget - 1, answers[1..]);
      DeliveredOneMore(s, budget, answers);
      PollFirst(s, k);
      QueueFirst(s, Offered(s, budget, answers));
    }
  }

  lemma DeliveredOneMore(s: Rx, budget: int, answers: seq<int>)
    requires budget > 0 && s.pending != [] && answers != [] && answers[0] > 0
    ensures Delivered(s, budget, answers) == Delivered(Retire(s), budget - 1, answers[1..]) + 1
    ensures Offered(s, budget, answers) == Offered(Retire(s), budget - 1, answers[1..]) + 1
  {
  }

  lemma PollFirst(s: Rx, k: nat)
    requires 0 < k <= |s.pending|
    ensures Poll(Retire(s), k - 1) == Poll(s, k)
  {
    assert s.pending[..k] == [s.pending[0]] + s.pending[1..][..k - 1];
    Assoc(s.pool, [s.pending[0]], s.pending[1..][..k - 1]);
  }

  lemma QueueFirst(s: Rx, n: nat)
    requires 0 < n <= |s.pending|
    ensures [Front(s)] + Queue(Retire(s))[..n - 1] == Queue(s)[..n]
  {
  }

  /** The NIC writes only into buffers it holds. */
  function DmaWrite(s: Rx, b: RxId, data: Dma): Rx {
    s.(mem := s.mem[b := s.mem[b].(data := data)])
  }

  datatype RxEvent =
    | EvAllocate(size: nat)
    | EvComplete(cookies: seq<RxId>, lens: seq<nat>)
    | EvDma(b: RxId, data: Dma)
    | EvPoll(budget: int, answers: seq<int>)

  ghost predicate Legal(s: Rx, e: RxEvent) {
    match e
    case EvComplete(cookies, lens) => CompletionLegal(s, cookies, lens)
    case EvDma(b, _) => b in s.nic
    case _ => true
  }

  ghost function Step(s: Rx, e: RxEvent): Rx
    requires Legal(s, e)
  {
    match e
    case EvAllocate(size) => Allocate(s, size).0
    case EvComplete(cookies, lens) => Complete(s, cookies, lens)
    case EvDma(b, data) => DmaWrite(s, b, data)
    case EvPoll(budget, answers) => Poll(s, Delivered(s, budget, answers))
  }

  /** The frame a completion adds to the queue, as it is in memory at that moment. */
  ghost function Enqueued(s: Rx, e: RxEvent): seq<Frame>
    requires Legal(s, e)
  {
    match e
    case EvComplete(cookies, lens) =>
      if Queues(s, cookies) then [s.mem[cookies[0]].data[..lens[0]]] else []
    case _ => []
  }

  /** The frames the stack accepts during an event. */
  ghost function Accepted(s: Rx, e: RxEvent): seq<Frame> {
    match e
    case EvPoll(budget, answers) => Queue(s)[..Delivered(s, budget, answers)]
    case _ => []
  }

  ghost predicate LegalRun(s: Rx, es: seq<RxEvent>)
    decreases |es|
  {
    es == [] || (Legal(s, es[0]) && LegalRun(Step(s, es[0]), es[1..]))
  }

  ghost function Run(s: Rx, es: seq<RxEvent>): Rx
    requires LegalRun(s, es)
    decreases |es|
  {
    if es == [] then s else Run(Step(s, es[0]), es[1..])
  }

  ghost function AllEnqueued(s: Rx, es: seq<RxEvent>): seq<Frame>
    requires LegalRun(s, es)
    decreases |es|
  {
    if es == [] then [] else Enqueued(s, es[0]) + AllEnqueued(Step(s, es[0]), es[1..])
  }

  ghost function AllAccepted(s: Rx, es: seq<RxEvent>): seq<Frame>
    requires LegalRun(s, es)
    decreases |es|
  {
    if es == [] then [] else Accepted(s, es[0]) + AllAccepted(Step(s, es[0]), es[1..])
  }

  /** A queued or pooled buffer is never also on the NIC, and none is held twice. */
  lemma OneHolder(s: Rx, b: RxId)
    requires RxOwned(s)
    ensures multiset(s.pool)[b] + multiset(s.pending)[b] + s.nic[b] == 1
  {
    AllIdsOnce(RX_BUFS, b);
    assert RxStock(s)[b] == AllIds(RX_BUFS)[b];
  }

  lemma Sizes(s: Rx)
    requires RxOwned(s)
    ensures |s.pool| + |s.pending| + |s.nic| == RX_BUFS
  {
    AllIdsSize(RX_BUFS);
    assert |RxStock(s)| == |AllIds(RX_BUFS)|;
  }

  lemma AllocateKeepsStock(s: Rx, size: nat)
    ensures RxStock(Allocate(s, size).0) == RxStock(s)
  {
    if size <= BUF_SIZE && s.pool != [] {
      var n := |s.pool| - 1;
      var b := s.pool[n];
      MultisetSplit(s.pool, n);
      assert s.pool[n..] == [b];
      assert multiset(s.pool) == multiset(s.pool[..n]) + multiset{b};
    }
  }

  lemma CompleteKeepsStock(s: Rx, cookies: seq<RxId>, lens: seq<nat>)
    requires CompletionLegal(s, cookies, lens)
    ensures RxStock(Complete(s, cookies, lens)) == RxStock(s)
  {
    if Queues(s, cookies) {
      assert cookies == [cookies[0]];
      MoveKeepsSum(multiset(s.pool), s.pending, s.nic, cookies);
    } else {
      MoveKeepsSum(multiset(s.pending), s.pool, s.nic, cookies);
    }
  }

  lemma PollKeepsStock(s: Rx, k: nat)
    requires k <= |s.pending|
    ensures RxStock(Poll(s, k)) == RxStock(s)
  {
    MultisetSplit(s.pending, k);
    assert multiset(s.pool + s.pending[..k]) == multiset(s.pool) + multiset(s.pending[..k]);
  }

  lemma StepKeepsOwned(s: Rx, e: RxEvent)
    requires RxOwned(s) && Legal(s, e)
    ensures RxOwned(Step(s, e))
  {
    StepKeepsStock(s, e);
    StepKeepsBound(s, e);
  }

  /** The ring that holds the queue always has its one unused slot. */
  lemma StepKeepsBound(s: Rx, e: RxEvent)
    requires |s.pending| < RX_BUFS && Legal(s, e)
    ensures |Step(s, e).pending| < RX_BUFS
  {
  }

  lemma StepKeepsStock(s: Rx, e: RxEvent)
    requires Legal(s, e)
    ensures RxStock(Step(s, e)) == RxStock(s)
  {
    match e
    case EvAllocate(size) => AllocateKeepsStock(s, size);
    case EvComplete(cookies, lens) => CompleteKeepsStock(s, cookies, lens);
    case EvDma(_, _) =>
    case EvPoll(budget, answers) => PollKeepsStock(s, Delivered(s, budget, answers));
  }

  lemma {:induction false} RunKeepsOwned(s: Rx, es: seq<RxEvent>)
    requires RxOwned(s) && LegalRun(s, es)
    ensures RxOwned(Run(s, es))
    decreases |es|
  {
    if es != [] {
      StepKeepsOwned(s, es[0]);
      RunKeepsOwned(Step(s, es[0]), es[1..]);
    }
  }

  /**
   Conservation over every run: each receive buffer has exactly one holder, the pool never
   holds more than the 510 slots of its array, and a completion never finds it full.
   */
  lemma {:induction false} RunConservesRxBuffers(s: Rx, es: seq<RxEvent>)
    requires RxOwned(s) && LegalRun(s, es)
    ensures var t := Run(s, es);
      && RxOwned(t)
      && (forall b: RxId :: multiset(t.pool)[b] + multiset(t.pending)[b] + t.nic[b] == 1)
      && |t.pool| + |t.pending| + |t.nic| == RX_BUFS
  {
    RunKeepsOwned(s, es);
    var t := Run(s, es);
    forall b: RxId ensures multiset(t.pool)[b] + multiset(t.pending)[b] + t.nic[b] == 1 {
      OneHolder(t, b);
    }
    Sizes(t);
  }

  /** One event: what the stack takes plus what stays queued is the old queue plus arrivals. */
  lemma StepIsFifo(s: Rx, e: RxEvent)
    requires RxOwned(s) && Legal(s, e)
    ensures Accepted(s, e) + Queue(Step(s, e)) == Queue(s) + Enqueued(s, e)
  {
    match e
    case EvAllocate(_) =>
    case EvComplete(cookies, lens) =>
      if Queues(s, cookies) {
        CompleteAppends(s, cookies, lens);
      }
    case EvDma(b, data) =>
      DmaKeepsQueue(s, b, data);
    case EvPoll(budget, answers) =>
      PollTakesFront(s, Delivered(s, budget, answers));
  }

  lemma DmaKeepsQueue(s: Rx, b: RxId, data: Dma)
    requires RxOwned(s) && b in s.nic
    ensures Queue(DmaWrite(s, b, data)) == Queue(s)
  {
    NotQueued(s, b);
  }

  lemma PollTakesFront(s: Rx, k: nat)
    requires k <= |s.pending|
    ensures Queue(s)[..k] + Queue(Poll(s, k)) == Queue(s)
  {
    assert Queue(Poll(s, k)) == Queue(s)[k..];
  }

  /** What the NIC holds is not in the queue. */
  lemma NotQueued(s: Rx, b: RxId)
    requires RxOwned(s) && b in s.nic
    ensures b !in s.pending
  {
    OneHolder(s, b);
    assert b in s.pending <==> b in multiset(s.pending);
  }

  lemma CompleteAppends(s: Rx, cookies: seq<RxId>, lens: seq<nat>)
    requires RxOwned(s) && CompletionLegal(s, cookies, lens) && Queues(s, cookies)
    ensures Queue(Complete(s, cookies, lens)) == Queue(s) + [s.mem[cookies[0]].data[..lens[0]]]
  {
    var b := cookies[0];
    assert b in multiset(cookies);
    NotQueued(s, b);
  }

  /**
   The pending ring is a FIFO over every run: frames accepted by the stack, followed by the
   frames still queued, are the frames queued at the start followed by those completions
   queued, in order, each with the bytes and length it had when it completed.
   */
  lemma {:induction false} RunIsFifo(s: Rx, es: seq<RxEvent>)
    requires RxOwned(s) && LegalRun(s, es)
    ensures AllAccepted(s, es) + Queue(Run(s, es)) == Queue(s) + AllEnqueued(s, es)
    decreases |es|
  {
    if es != [] {
      var t := Step(s, es[0]);
      StepKeepsOwned(s, es[0]);
      StepIsFifo(s, es[0]);
      RunIsFifo(t, es[1..]);
      FifoCompose(Queue(s), Enqueued(s, es[0]), Accepted(s, es[0]), Queue(t),
                  AllEnqueued(t, es[1..]), AllAccepted(t, es[1..]), Queue(Run(t, es[1..])));
    }
  }

  // ---------------------------------------------------------------- what the callbacks do

  /** The NIC gets a buffer exactly when it asks for no more than one holds and one is free. */
  lemma AllocateMeans(s: Rx, size: nat)
    ensures var (t, r) := Allocate(s, size);
      && (r.Some? <==> size <= BUF_SIZE && s.pool != [])
      && (r.Some? ==> t.pool + [r.value] == s.pool && t.nic == s.nic + multiset{r.value})
      && (r.None? ==> t == s)
      && t.pending == s.pending && t.mem == s.mem
  {
  }

  /** Under ownership the buffer handed out was free, and nobody else has it. */
  lemma AllocatedWasFree(s: Rx, size: nat)
    requires RxOwned(s) && Allocate(s, size).1.Some?
    ensures var (t, r) := Allocate(s, size);
      && r.value in s.pool && r.value !in s.nic && r.value !in s.pending
      && r.value !in t.pool && r.value in t.nic
  {
    var (t, r) := Allocate(s, size);
    AllocateKeepsStock(s, size);
    OneHolder(s, r.value);
    OneHolder(t, r.value);
    assert multiset(s.pool)[r.value] > 0 && t.nic[r.value] > 0;
    assert r.value in t.pool <==> multiset(t.pool)[r.value] > 0;
    assert r.value in s.pending <==> multiset(s.pending)[r.value] > 0;
  }

  /**
   A completion of one buffer is queued as it is in memory while fewer than 509 are pending;
   any other goes back to the pool unread, all its buffers, in order.
   */
  lemma CompletionMeans(s: Rx, cookies: seq<RxId>, lens: seq<nat>)
    requires RxOwned(s) && CompletionLegal(s, cookies, lens)
    ensures var t := Complete(s, cookies, lens);
      && t.nic == s.nic - multiset(cookies)
      && if |cookies| == 1 && |s.pending| < RX_BUFS - 1 then
           t.pool == s.pool && t.pending == s.pending + cookies
           && Queue(t) == Queue(s) + [s.mem[cookies[0]].data[..lens[0]]]
         else
           t.pool == s.pool + cookies && t.pending == s.pending && Queue(t) == Queue(s)
  {
    if |cookies| == 1 && |s.pending| < RX_BUFS - 1 {
      CompleteAppends(s, cookies, lens);
      assert cookies == [cookies[0]];
    }
  }

  /**
   A poll goes on while it has budget, frames and acceptances: every answer before the last
   one is an acceptance, and it stops early only at a refusal, which leaves that frame in front.
   */
  lemma PollMeans(s: Rx, budget: int, answers: seq<int>)
    ensures var p := PollLoop(s, budget, answers); var k := budget - p.score;
      && 0 <= k <= |s.pending| && k <= |answers| && (forall i :: 0 <= i < k ==> answers[i] > 0)
      && p.state == s.(pool := s.pool + s.pending[..k], pending := s.pending[k..])
      && if k < budget && k < |s.pending| then
           (k < |answers| ==> answers[k] <= 0) && p.offered == Queue(s)[..k + 1]
         else p.offered == Queue(s)[..k]
  {
    PollLoopDelivers(s, budget, answers);
  }

  // ---------------------------------------------------------------- transmit side

  datatype Tx = Tx(pool: seq<TxId>, nic: multiset<TxId>, mem: TxMemory)
  datatype TxStatus = TxFailed | TxComplete | TxEnqueued

  ghost function TxStock(s: Tx): multiset<nat> {
    multiset(s.pool) + s.nic
  }

  ghost predicate TxOwned(s: Tx) {
    TxStock(s) == AllIds(TX_BUFS)
  }

  function Overlay(buf: Dma, input: Frame): Dma
    requires |input| <= BUF_SIZE
  {
    input + buf[|input|..]
  }

  /** Buffers the NIC hands back, in order. */
  function Returned(s: Tx, done: seq<TxId>): Tx {
    s.(pool := s.pool + done, nic := s.nic - multiset(done))
  }

  /** A buffer taken from the pool's top, filled, and handed to the NIC. */
  function Handed(s: Tx, input: Frame): Tx
    requires s.pool != [] && |input| <= BUF_SIZE
  {
    var b := s.pool[|s.pool| - 1];
    Tx(s.pool[..|s.pool| - 1], s.nic + multiset{b}, s.mem[b := Overlay(s.mem[b], input)])
  }

  /** While raw_tx runs it may complete earlier buffers, and the new one unless it fails. */
  ghost predicate SendLegal(s: Tx, input: Frame, done: seq<TxId>, status: TxStatus) {
    && |input| <= BUF_SIZE
    && (s.pool != [] ==>
          multiset(done) <= if status.TxFailed? then s.nic else Handed(s, input).nic)
  }

  ghost function Send(s: Tx, input: Frame, done: seq<TxId>, status: TxStatus): Tx
    requires SendLegal(s, input, done, status)
  {
    if s.pool == [] then s
    else
      var b := s.pool[|s.pool| - 1];
      Returned(Handed(s, input), if status.TxFailed? then done + [b] else done)
  }

  datatype TxEvent = EvTxDone(b: TxId) | EvSend(input: Frame, done: seq<TxId>, status: TxStatus)

  ghost predicate TxLegal(s: Tx, e: TxEvent) {
    match e
    case EvTxDone(b) => b in s.nic
    case EvSend(input, done, status) => SendLegal(s, input, done, status)
  }

  ghost function TxStep(s: Tx, e: TxEvent): Tx
    requires TxLegal(s, e)
  {
    match e
    case EvTxDone(b) => Returned(s, [b])
    case EvSend(input, done, status) => Send(s, input, done, status)
  }

  ghost predicate TxLegalRun(s: Tx, es: seq<TxEvent>)
    decreases |es|
  {
    es == [] || (TxLegal(s, es[0]) && TxLegalRun(TxStep(s, es[0]), es[1..]))
  }

  ghost function TxRun(s: Tx, es: seq<TxEvent>): Tx
    requires TxLegalRun(s, es)
    decreases |es|
  {
    if es == [] then s else TxRun(TxStep(s, es[0]), es[1..])
  }

  lemma HandedKeepsStock(s: Tx, input: Frame)
    requires s.pool != [] && |input| <= BUF_SIZE
    ensures TxStock(Handed(s, input)) == TxStock(s)
  {
    var n := |s.pool| - 1;
    var b := s.pool[n];
    MultisetSplit(s.pool, n);
    assert s.pool[n..] == [b];
    assert multiset(s.pool) == multiset(s.pool[..n]) + multiset{b};
  }

  lemma ReturnedKeepsStock(s: Tx, done: seq<TxId>)
    requires multiset(done) <= s.nic
    ensures TxStock(Returned(s, done)) == TxStock(s)
  {
    assert multiset(s.pool + done) == multiset(s.pool) + multiset(done);
    assert (s.nic - multiset(done)) + multiset(done) == s.nic;
  }

  lemma TxStepKeepsStock(s: Tx, e: TxEvent)
    requires TxLegal(s, e)
    ensures TxStock(TxStep(s, e)) == TxStock(s)
  {
    match e
    case EvTxDone(b) =>
      ReturnedKeepsStock(s, [b]);
    case EvSend(input, done, status) =>
      if s.pool != [] {
        HandedKeepsStock(s, input);
        var b := s.pool[|s.pool| - 1];
        assert multiset(done + [b]) == multiset(done) + multiset{b};
        ReturnedKeepsStock(Handed(s, input), if status.TxFailed? then done + [b] else done);
      }
  }

  lemma OneTxHolder(s: Tx, b: TxId)
    requires TxOwned(s)
    ensures multiset(s.pool)[b] + s.nic[b] == 1
  {
    AllIdsOnce(TX_BUFS, b);
    assert TxStock(s)[b] == AllIds(TX_BUFS)[b];
  }

  lemma TxSizes(s: Tx)
    requires TxOwned(s)
    ensures |s.pool| + |s.nic| == TX_BUFS
  {
    AllIdsSize(TX_BUFS);
    assert |TxStock(s)| == |AllIds(TX_BUFS)|;
  }

  lemma {:induction false} TxRunKeepsStock(s: Tx, es: seq<TxEvent>)
    requires TxLegalRun(s, es)
    ensures TxStock(TxRun(s, es)) == TxStock(s)
    decreases |es|
  {
    if es != [] {
      TxStepKeepsStock(s, es[0]);
      TxRunKeepsStock(TxStep(s, es[0]), es[1..]);
    }
  }

  lemma {:induction false} TxRunKeepsOwned(s: Tx, es: seq<TxEvent>)
    requires TxOwned(s) && TxLegalRun(s, es)
    ensures TxOwned(TxRun(s, es))
  {
    TxRunKeepsStock(s, es);
  }

  /** Conservation over every run of the transmit side. */
  lemma {:induction false} RunConservesTxBuffers(s: Tx, es: seq<TxEvent>)
    requires TxOwned(s) && TxLegalRun(s, es)
    ensures var t := TxRun(s, es);
      && TxOwned(t)
      && (forall b: TxId :: multiset(t.pool)[b] + t.nic[b] == 1)
      && |t.pool| + |t.nic| == TX_BUFS
  {
    TxRunKeepsOwned(s, es);
    var t := TxRun(s, es);
    forall b: TxId ensures multiset(t.pool)[b] + t.nic[b] == 1 {
      OneTxHolder(t, b);
    }
    TxSizes(t);
  }

  /** Buffer `b`, which was free, now holds the frame; the rest is as the completions leave it. */
  ghost predicate SentIn(s: Tx, b: TxId, input: Frame, done: seq<TxId>, status: TxStatus, t: Tx) {
    && b in s.pool && b !in s.nic
    && |input| <= BUF_SIZE && t.mem[b][..|input|] == input
    && (forall c: TxId :: c != b ==> t.mem[c] == s.mem[c])
    && t.nic == (if status.TxFailed? then s.nic else s.nic + multiset{b}) - multiset(done)
  }

  lemma TopCarriesFrame(s: Tx, input: Frame, done: seq<TxId>, status: TxStatus)
    requires TxOwned(s) && SendLegal(s, input, done, status) && s.pool != []
    ensures SentIn(s, s.pool[|s.pool| - 1], input, done, status, Send(s, input, done, status))
  {
    var b := s.pool[|s.pool| - 1];
    OneTxHolder(s, b);
    assert b in multiset(s.pool);
    assert Overlay(s.mem[b], input)[..|input|] == input;
    if status.TxFailed? {
      assert multiset(done + [b]) == multiset(done) + multiset{b};
    }
  }

  /**
   An accepted send leaves the frame itself in a buffer that was free, which the NIC then has
   unless it completed it at once; a failed one leaves that buffer free.  No other buffer
   changes, and without a free buffer nothing does.
   */
  lemma SendCarriesFrame(s: Tx, input: Frame, done: seq<TxId>, status: TxStatus)
    requires TxOwned(s) && SendLegal(s, input, done, status)
    ensures s.pool == [] ==> Send(s, input, done, status) == s
    ensures s.pool != [] ==> exists b: TxId :: SentIn(s, b, input, done, status, Send(s, input, done, status))
  {
    if s.pool != [] {
      TopCarriesFrame(s, input, done, status);
    }
  }

  /** A completed buffer is free again, and nothing else moves. */
  lemma CompletedIsFree(s: Tx, b: TxId)
    requires TxOwned(s) && b in s.nic
    ensures var t := TxStep(s, EvTxDone(b));
      t.pool == s.pool + [b] && t.mem == s.mem && b !in t.nic && t.nic + multiset{b} == s.nic
  {
    OneTxHolder(s, b);
  }

  /** A frame handed to the NIC is never overwritten while the NIC still holds its buffer. */
  lemma TxFrameStableOnNic(s: Tx, e: TxEvent, b: TxId)
    requires TxOwned(s) && TxLegal(s, e) && b in s.nic
    ensures TxStep(s, e).mem[b] == s.mem[b]
  {
    OneTxHolder(s, b);
    if e.EvSend? && s.pool != [] {
      var top := s.pool[|s.pool| - 1];
      assert top in multiset(s.pool);
    }
  }
}
