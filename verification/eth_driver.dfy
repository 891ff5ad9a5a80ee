/**
 The single-component ethernet driver: arrays used as stacks of free buffers, a ring of
 completed receive buffers, and the counters that delimit them, all changed in place by the
 driver's callbacks.  Each callback is proved to act as the corresponding step of EthModel
 and to stay inside its arrays although it never checks a bound.  The receive and transmit
 globals never meet, so each half is a class of its own.
 */
module EthDriver {
  import opened Bytes
  import opened EthModel
  import opened Ownership
  import opened Rings
  import opened Streams

  class RxSide {
    ghost var model: Rx  // the state of EthModel this object represents

    var rxBufs: array<EthBuf>
    var rxPool: array<RxId>
    var numRxBufs: nat
    var pendingRx: array<RxId>
    var pendingRxHead: nat
    var pendingRxTail: nat

    /** The arrays and counters hold the model's pool, queue and buffer memory. */
    ghost predicate Represents()
      reads this, rxBufs, rxPool, pendingRx
    {
      && rxBufs.Length == rxPool.Length == pendingRx.Length == RX_BUFS
      && rxPool != pendingRx
      && numRxBufs <= RX_BUFS
      && pendingRxHead < RX_BUFS && pendingRxTail < RX_BUFS
      && model.pool == rxPool[..numRxBufs]
      && model.pending == Contents(pendingRx[..], pendingRxTail, pendingRxHead)
      && model.mem == rxBufs[..]
    }

    ghost predicate Valid()
      reads this, rxBufs, rxPool, pendingRx
    {
      Represents() && RxOwned(model)
    }

    /** The pool-filling loop: every buffer starts free, and the pending ring is empty. */
    constructor ()
      ensures Valid()
      ensures fresh(rxBufs) && fresh(rxPool) && fresh(pendingRx)
      ensures model.pending == [] && model.nic == multiset{}
      ensures |model.pool| == RX_BUFS && forall i :: 0 <= i < RX_BUFS ==> model.pool[i] == i
    {
      rxBufs := new EthBuf[RX_BUFS](_ => RawBuf(seq(BUF_SIZE, _ => 0 as byte), 0));
      rxPool := new RxId[RX_BUFS](_ => 0);
      pendingRx := new RxId[RX_BUFS](_ => 0);
      numRxBufs, pendingRxHead, pendingRxTail := 0, 0, 0;
      new;
      for i := 0 to RX_BUFS
        invariant rxBufs.Length == rxPool.Length == pendingRx.Length == RX_BUFS && rxPool != pendingRx
        invariant fresh(rxBufs) && fresh(rxPool) && fresh(pendingRx)
        invariant numRxBufs == i && pendingRxHead == pendingRxTail == 0
        invariant forall j :: 0 <= j < i ==> rxPool[j] == j
      {
        rxPool[numRxBufs] := i;
        numRxBufs := numRxBufs + 1;
      }
      model := Rx(rxPool[..numRxBufs], [], multiset{}, rxBufs[..]);
      FilledInOrder(rxPool[..numRxBufs]);
    }

    /** eth_allocate_rx_buf: the top of the pool, or nothing (the C code returns address 0). */
    method AllocateRxBuf(size: nat) returns (r: Option<RxId>)
      requires Valid()
      modifies this`numRxBufs, this`model
      ensures Valid()
      ensures (model, r) == Allocate(old(model), size)
      ensures r.Some? <==> size <= BUF_SIZE && old(numRxBufs) > 0
      ensures r.Some? ==> r.value in old(model).pool && r.value !in old(model).nic && r.value in model.nic
    {
      StepKeepsOwned(model, EvAllocate(size));
      if size <= BUF_SIZE && numRxBufs > 0 {
        AllocatedWasFree(model, size);
      }
      if size > BUF_SIZE {
        return None;
      }
      if numRxBufs == 0 {
        return None;
      }
      numRxBufs := numRxBufs - 1;
      r := Some(rxPool[numRxBufs]);
      model := Allocate(model, size).0;
    }

    /** eth_rx_complete: queue a single-buffer completion, or put all the buffers back. */
    method RxComplete(cookies: seq<RxId>, lens: seq<nat>)
      requires Valid() && CompletionLegal(model, cookies, lens)
      modifies this`numRxBufs, this`model, this`pendingRxHead, rxBufs, rxPool, pendingRx
      ensures Valid()
      ensures model == Complete(old(model), cookies, lens)
    {
      RoomForReturn(model, cookies, lens);
      StepKeepsOwned(model, EvComplete(cookies, lens));
      Insert(cookies, lens);
    }

    /** The body of eth_rx_complete; the pool has room for whatever the NIC returns. */
    method Insert(cookies: seq<RxId>, lens: seq<nat>)
      requires Represents() && CompletionLegal(model, cookies, lens)
      requires numRxBufs + |cookies| <= RX_BUFS
      modifies this`numRxBufs, this`model, this`pendingRxHead, rxBufs, rxPool, pendingRx
      ensures Represents()
      ensures model == Complete(old(model), cookies, lens)
    {
      FullIffOneSlotLeft(pendingRx[..], pendingRxTail, pendingRxHead);
      assert Next(pendingRxHead, RX_BUFS) == (pendingRxHead + 1) % RX_BUFS;
      if |cookies| == 1 && (pendingRxHead + 1) % RX_BUFS != pendingRxTail {
        QueueOne(cookies, lens);
      } else {
        ReturnAll(cookies, lens);
      }
    }

    /** The accepting path of eth_rx_complete. */
    method QueueOne(cookies: seq<RxId>, lens: seq<nat>)
      requires Represents() && CompletionLegal(model, cookies, lens)
      requires |cookies| == 1 && (pendingRxHead + 1) % RX_BUFS != pendingRxTail
      requires Queues(model, cookies)
      modifies this`model, this`pendingRxHead, rxBufs, pendingRx
      ensures Represents()
      ensures model == Complete(old(model), cookies, lens)
    {
      var currBuf := cookies[0];
      ghost var ring := pendingRx[..];
      PushAppends(ring, pendingRxTail, pendingRxHead, currBuf);
      rxBufs[currBuf] := rxBufs[currBuf].(len := lens[0]);
      pendingRx[pendingRxHead] := currBuf;
      assert pendingRx[..] == ring[pendingRxHead := currBuf];
      pendingRxHead := (pendingRxHead + 1) % RX_BUFS;
      model := Complete(model, cookies, lens);
    }

    /** The abort path of eth_rx_complete. */
    method ReturnAll(cookies: seq<RxId>, lens: seq<nat>)
      requires Represents() && CompletionLegal(model, cookies, lens)
      requires !Queues(model, cookies) && numRxBufs + |cookies| <= RX_BUFS
      modifies this`numRxBufs, this`model, rxPool
      ensures Represents()
      ensures model == Complete(old(model), cookies, lens)
    {
      ghost var s := model;
      for i := 0 to |cookies|
        invariant Represents() && numRxBufs == |s.pool| + i
        invariant model == s.(pool := s.pool + cookies[..i])
      {
        PushPool(cookies[i]);
      }
      assert cookies[..|cookies|] == cookies;
      model := model.(nic := model.nic - multiset(cookies));
    }

    /** rx_buf_pool[num_rx_bufs] = buf; num_rx_bufs++ */
    method PushPool(b: RxId)
      requires Represents() && numRxBufs < RX_BUFS
      modifies this`numRxBufs, this`model, rxPool
      ensures Represents() && numRxBufs == old(numRxBufs) + 1
      ensures model == old(model).(pool := old(model).pool + [b])
    {
      rxPool[numRxBufs] := b;
      numRxBufs := numRxBufs + 1;
      model := model.(pool := model.pool + [b]);
    }

    /**
     pico_eth_poll.  `answers` are the results of the successive pico_stack_recv calls and
     `offered` the frames passed to them.
     */
    method PicoEthPoll(budget: int, answers: seq<int>) returns (score: int, offered: seq<Frame>)
      requires Valid()
      modifies this`pendingRxTail, this`numRxBufs, this`model, rxPool
      ensures Valid()
      ensures Polled(model, score, offered) == PollLoop(old(model), budget, answers)
    {
      Sizes(model);
      PollLoopDelivers(model, budget, answers);
      StepKeepsOwned(model, EvPoll(budget, answers));
      score, offered := Drain(budget, answers);
    }

    /** The loop of pico_eth_poll; the pool has room for the whole queue. */
    method Drain(budget: int, answers: seq<int>) returns (score: int, offered: seq<Frame>)
      requires Represents() && numRxBufs + |model.pending| <= RX_BUFS
      modifies this`pendingRxTail, this`numRxBufs, this`model, rxPool
      ensures Represents()
      ensures Polled(model, score, offered) == PollLoop(old(model), budget, answers)
    {
      ghost var whole := PollLoop(model, budget, answers);
      var left := answers;
      score, offered := budget, [];
      while score > 0
        invariant Represents() && numRxBufs + |model.pending| <= RX_BUFS
        invariant PollContinues(whole, offered, PollLoop(model, score, left))
        decreases score
      {
        if pendingRxHead == pendingRxTail {
          break;
        }
        PollOnce(whole, offered, model, score, left);
        var frame, taken := OfferFront(if left == [] then 0 else left[0]);
        offered := offered + [frame];
        if !taken {
          break;
        }
        left := left[1..];
        score := score - 1;
      }
    }

    /** One pass of pico_eth_poll's loop: the stack answers, and takes the frame if positive. */
    method OfferFront(err: int) returns (frame: Frame, taken: bool)
      requires Represents() && pendingRxHead != pendingRxTail && numRxBufs < RX_BUFS
      modifies this`pendingRxTail, this`numRxBufs, this`model, rxPool
      ensures Represents() && old(model).pending != []
      ensures frame == Front(old(model))
      ensures taken == (err > 0) && model == if taken then Retire(old(model)) else old(model)
      ensures numRxBufs == |model.pool|
    {
      PopRemovesOldest(pendingRx[..], pendingRxTail, pendingRxHead);
      var rx := pendingRx[pendingRxTail];
      frame, taken := Payload(rxBufs[rx]), err > 0;
      if taken {
        assert Next(pendingRxTail, RX_BUFS) == (pendingRxTail + 1) % RX_BUFS;
        pendingRxTail := (pendingRxTail + 1) % RX_BUFS;
        model := model.(pending := model.pending[1..]);
        PushPool(rx);
      }
    }
  }

  class TxSide {
    ghost var model: Tx

    var txBufs: array<Dma>
    var txPool: array<TxId>
    var numTx: nat

    ghost predicate Represents()
      reads this, txBufs, txPool
    {
      && txBufs.Length == txPool.Length == TX_BUFS
      && numTx <= TX_BUFS
      && model.pool == txPool[..numTx]
      && model.mem == txBufs[..]
    }

    ghost predicate Valid()
      reads this, txBufs, txPool
    {
      Represents() && TxOwned(model)
    }

    constructor ()
      ensures Valid()
      ensures fresh(txBufs) && fresh(txPool)
      ensures model.nic == multiset{}
      ensures |model.pool| == TX_BUFS && forall i :: 0 <= i < TX_BUFS ==> model.pool[i] == i
    {
      txBufs := new Dma[TX_BUFS](_ => seq(BUF_SIZE, _ => 0 as byte));
      txPool := new TxId[TX_BUFS](_ => 0);
      numTx := 0;
      new;
      for i := 0 to TX_BUFS
        invariant txBufs.Length == txPool.Length == TX_BUFS && fresh(txBufs) && fresh(txPool)
        invariant numTx == i
        invariant forall j :: 0 <= j < i ==> txPool[j] == j
      {
        txPool[numTx] := i;
        numTx := numTx + 1;
      }
      model := Tx(txPool[..numTx], multiset{}, txBufs[..]);
      FilledInOrder(txPool[..numTx]);
    }

    /** eth_tx_complete. */
    method TxComplete(b: TxId)
      requires Valid() && b in model.nic
      modifies this`numTx, this`model, txPool
      ensures Valid()
      ensures model == Returned(old(model), [b])
    {
      TxSizes(model);
      TxStepKeepsStock(model, EvTxDone(b));
      txPool[numTx] := b;
      numTx := numTx + 1;
      model := Returned(model, [b]);
    }

    /** The completions the NIC makes while raw_tx runs, through eth_tx_complete. */
    method RawTx(done: seq<TxId>)
      requires Valid() && multiset(done) <= model.nic
      modifies this`numTx, this`model, txPool
      ensures Valid()
      ensures model == Returned(old(model), done)
    {
      ghost var s := model;
      for i := 0 to |done|
        invariant Valid()
        invariant model == Returned(s, done[..i])
      {
        ReturnedOneMore(s, done, i);
        TxComplete(done[i]);
      }
      assert done[..|done|] == done;
    }

    /**
     pico_eth_send.  `done` and `status` are what the NIC does inside raw_tx.  A result of 0
     tells the stack to keep the frame.
     */
    method PicoEthSend(input: Frame, done: seq<TxId>, status: TxStatus) returns (r: nat)
      requires Valid() && 12 <= |input| && SendLegal(model, input, done, status)
      modifies this`numTx, this`model, txPool, txBufs
      ensures Valid()
      ensures model == Send(old(model), input, done, status)
      ensures r == if old(numTx) == 0 || status.TxFailed? then 0 else |input|
    {
      if numTx == 0 {
        return 0;
      }
      ghost var s := model;
      HandedKeepsStock(s, input);
      numTx := numTx - 1;
      var b := txPool[numTx];
      txBufs[b] := Overlay(txBufs[b], input);
      model := Handed(s, input);
      RawTx(done);
      if status.TxFailed? {
        ReturnedThenOne(Handed(s, input), done, b);
        TxComplete(b);
        return 0;
      }
      return |input|;
    }
  }

  /** The NIC gives back no more than it holds, and those buffers left the pool. */
  lemma RoomForReturn(s: Rx, cookies: seq<RxId>, lens: seq<nat>)
    requires RxOwned(s) && CompletionLegal(s, cookies, lens)
    ensures |s.pool| + |cookies| <= RX_BUFS
  {
    Sizes(s);
    assert s.nic == (s.nic - multiset(cookies)) + multiset(cookies);
  }

  ghost predicate PollContinues(whole: Polled, offered: seq<Frame>, rest: Polled) {
    whole == rest.(offered := offered + rest.offered)
  }

  /** One answer of the stack ends a poll as PollLoop says, or carries it on. */
  lemma PollOnce(whole: Polled, offered: seq<Frame>, s: Rx, budget: int, answers: seq<int>)
    requires budget > 0 && s.pending != []
    requires PollContinues(whole, offered, PollLoop(s, budget, answers))
    ensures if answers == [] || answers[0] <= 0 then
        whole == Polled(s, budget, offered + [Front(s)])
      else
        PollContinues(whole, offered + [Front(s)], PollLoop(Retire(s), budget - 1, answers[1..]))
  {
    if answers != [] && answers[0] > 0 {
      Assoc(offered, [Front(s)], PollLoop(Retire(s), budget - 1, answers[1..]).offered);
    }
  }

  lemma ReturnedOneMore(s: Tx, done: seq<TxId>, i: nat)
    requires i < |done| && multiset(done) <= s.nic
    ensures done[i] in Returned(s, done[..i]).nic
    ensures Returned(Returned(s, done[..i]), [done[i]]) == Returned(s, done[..i + 1])
  {
    assert done[..i + 1] == done[..i] + [done[i]];
    MultisetSplit(done, i + 1);
    assert multiset(done[..i + 1]) == multiset(done[..i]) + multiset{done[i]};
    assert multiset(done[..i + 1])[done[i]] <= s.nic[done[i]];
  }

  lemma ReturnedThenOne(s: Tx, done: seq<TxId>, b: TxId)
    requires multiset(done) + multiset{b} <= s.nic
    ensures b in Returned(s, done).nic
    ensures Returned(Returned(s, done), [b]) == Returned(s, done + [b])
  {
    assert multiset(done + [b]) == multiset(done) + multiset{b};
  }
}
