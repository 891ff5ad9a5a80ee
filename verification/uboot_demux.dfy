/**
 The U-Boot ethernet driver component shared by several clients: every frame the driver has
 received is copied to the queues it is addressed to, and one frame is then passed to the
 caller.  `Demux` functions say what that does to the clients' queues; the classes do it with
 128-slot rings of fixed-size buffers.
 */
module UbootDemux {
  import opened Bytes
  import opened Rings
  import opened Streams

  const CLIENT_RX_BUFS: nat := 128
  const CAPACITY: nat := CLIENT_RX_BUFS - 1
  const BUF_SIZE: nat := 2048

  type Frame = seq<byte>
  type Mac = m: Frame | |m| == 6 witness [0, 0, 0, 0, 0, 0]
  type Queues = seq<seq<Frame>>

  // ------------------------------------------------------------------ addressing

  /** The first client from index `from` on with the frame's destination address. */
  function FirstMatch(macs: seq<Mac>, frame: Frame, from: nat): (i: nat)
    requires from <= |macs| && |frame| >= 6
    ensures from <= i <= |macs|
    ensures i < |macs| ==> macs[i] == frame[..6]
    ensures forall j :: from <= j < i ==> macs[j] != frame[..6]
    decreases |macs| - from
  {
    if from == |macs| || macs[from] == frame[..6] then from else FirstMatch(macs, frame, from + 1)
  }

  /** detect_client: |macs| stands for no client. */
  function Detect(macs: seq<Mac>, frame: Frame): (i: nat)
    ensures i <= |macs|
  {
    if |frame| < 6 then |macs| else FirstMatch(macs, frame, 0)
  }

  const BROADCAST: Mac := [0xff, 0xff, 0xff, 0xff, 0xff, 0xff]

  predicate IsBroadcast(frame: Frame) {
    |frame| >= 6 && frame[..6] == BROADCAST
  }

  const ETH_HEADER_LEN: nat := 14
  const IP_DEST_OFFSET: nat := 16

  /** The bits of a byte that the mask 0xf0 keeps. */
  function HighBits(b: byte): int {
    b as int - b as int % 16
  }

  predicate IsMulticast(frame: Frame) {
    |frame| >= ETH_HEADER_LEN + IP_DEST_OFFSET + 4
      && HighBits(frame[ETH_HEADER_LEN + IP_DEST_OFFSET]) == 0xe0
  }

  /** Section 4 of RFC 1112: group addresses are 224.0.0.0 to 239.255.255.255. */
  lemma MulticastIsClassD(frame: Frame)
    ensures IsMulticast(frame) <==> |frame| >= 34 && 224 <= frame[30] <= 239
    ensures IsBroadcast(frame) <==> |frame| >= 6 && forall i :: 0 <= i < 6 ==> frame[i] == 0xff
  {
    if |frame| >= 6 {
      assert frame[..6] == BROADCAST <==> forall i :: 0 <= i < 6 ==> frame[..6][i] == BROADCAST[i];
    }
  }

  /** Whether client `i` is to get a copy of the frame. */
  predicate Gets(macs: seq<Mac>, frame: Frame, i: nat) {
    var c := Detect(macs, frame);
    if c < |macs| then i == c else i < |macs| && (IsBroadcast(frame) || IsMulticast(frame))
  }

  /**
   Who gets a frame: the first client whose address is its destination; if there is none, and
   it is broadcast or bound for an IPv4 group, every client; otherwise nobody.
   */
  lemma GetsMeans(macs: seq<Mac>, frame: Frame, i: nat)
    requires i < |macs|
    ensures Gets(macs, frame, i) <==>
      if |frame| >= 6 && exists j :: 0 <= j < |macs| && macs[j] == frame[..6] then
        macs[i] == frame[..6] && forall j :: 0 <= j < i ==> macs[j] != frame[..6]
      else
        || (|frame| >= 6 && forall b :: 0 <= b < 6 ==> frame[b] == 0xff)
        || (|frame| >= 34 && 224 <= frame[30] <= 239)
  {
    MulticastIsClassD(frame);
  }

  // ------------------------------------------------------------------ queues

  function Append(q: seq<Frame>, frame: Frame): seq<Frame> {
    if |q| < CAPACITY then q + [frame] else q
  }

  function Delivered(macs: seq<Mac>, queues: Queues, frame: Frame): (r: Queues)
    ensures |r| == |queues|
    ensures forall i :: 0 <= i < |r| ==>
      r[i] == if Gets(macs, frame, i) then Append(queues[i], frame) else queues[i]
  {
    seq(|queues|, i requires 0 <= i < |queues| =>
      if Gets(macs, frame, i) then Append(queues[i], frame) else queues[i])
  }

  lemma DeliveredToOne(macs: seq<Mac>, queues: Queues, frame: Frame, c: nat)
    requires |queues| == |macs| && c == Detect(macs, frame) < |macs|
    ensures Delivered(macs, queues, frame) == queues[c := Append(queues[c], frame)]
  {
  }

  lemma DeliveredToAll(macs: seq<Mac>, queues: Queues, frame: Frame, after: Queues)
    requires |after| == |queues| == |macs| == Detect(macs, frame) && (IsBroadcast(frame) || IsMulticast(frame))
    requires forall i :: 0 <= i < |after| ==> after[i] == Append(queues[i], frame)
    ensures Delivered(macs, queues, frame) == after
  {
    assert forall i: nat :: i < |macs| ==> Gets(macs, frame, i);
  }

  lemma DeliveredToNone(macs: seq<Mac>, queues: Queues, frame: Frame)
    requires |queues| == |macs| == Detect(macs, frame) && !IsBroadcast(frame) && !IsMulticast(frame)
    ensures Delivered(macs, queues, frame) == queues
  {
  }

  /** What the driver hands over: frames until it has none, or until one is too long. */
  function Taken(packets: seq<Frame>): (n: nat)
    ensures n <= |packets|
    ensures forall i :: 0 <= i < n ==> 0 < |packets[i]| <= BUF_SIZE
    ensures n < |packets| ==> packets[n] == [] || |packets[n]| > BUF_SIZE
  {
    if packets == [] || packets[0] == [] || |packets[0]| > BUF_SIZE then 0 else 1 + Taken(packets[1..])
  }

  function DeliveredAll(macs: seq<Mac>, queues: Queues, frames: seq<Frame>): (r: Queues)
    ensures |r| == |queues|
    decreases |frames|
  {
    if frames == [] then queues else DeliveredAll(macs, Delivered(macs, queues, frames[0]), frames[1..])
  }

  datatype Reply = Reply(result: int, frame: Frame, notified: bool)

  /** The part of client_rx that serves the calling client, on its queue. */
  function Serve(q: seq<Frame>): (seq<Frame>, Reply) {
    if q == [] then ([], Reply(-1, [], true))
    else (q[1..], Reply(if |q| == 1 then 0 else 1, q[0], |q| == 1))
  }

  function Rx(macs: seq<Mac>, queues: Queues, packets: seq<Frame>, caller: nat): (Queues, Reply)
    requires caller < |queues|
  {
    var filled := DeliveredAll(macs, queues, packets[..Taken(packets)]);
    var (q, reply) := Serve(filled[caller]);
    (filled[caller := q], reply)
  }

  lemma RxServes(macs: seq<Mac>, queues: Queues, packets: seq<Frame>, caller: nat, filled: Queues)
    requires caller < |queues| && filled == DeliveredAll(macs, queues, packets[..Taken(packets)])
    ensures Rx(macs, queues, packets, caller) == (filled[caller := Serve(filled[caller]).0], Serve(filled[caller]).1)
  {
  }

  // ------------------------------------------------------------------ what that means

  /** The frames of a batch that are for client `i`. */
  function Mine(macs: seq<Mac>, frames: seq<Frame>, i: nat): seq<Frame> {
    if frames == [] then []
    else (if Gets(macs, frames[0], i) then [frames[0]] else []) + Mine(macs, frames[1..], i)
  }

  /** The first of them that fit. */
  function Admitted(q: seq<Frame>, mine: seq<Frame>): (a: seq<Frame>)
    requires |q| <= CAPACITY
    ensures a <= mine
    ensures a == mine || |q| + |a| == CAPACITY
  {
    if |q| + |mine| <= CAPACITY then mine else mine[..CAPACITY - |q|]
  }

  lemma AdmittedOne(q: seq<Frame>, x: Frame, rest: seq<Frame>)
    requires |q| <= CAPACITY
    ensures |Append(q, x)| <= CAPACITY
    ensures Append(q, x) + Admitted(Append(q, x), rest) == q + Admitted(q, [x] + rest)
  {
    if |q| < CAPACITY {
      assert Admitted(q, [x] + rest) == [x] + Admitted(q + [x], rest);
      Assoc(q, [x], Admitted(q + [x], rest));
    } else {
      assert Admitted(q, rest) == [] == Admitted(q, [x] + rest);
    }
  }

  /**
   Each client's queue grows by exactly the frames addressed to it, in the order received,
   until 127 are queued; frames are dropped for a client only at 127.
   */
  lemma {:induction false} BatchReachesClient(macs: seq<Mac>, queues: Queues, frames: seq<Frame>, i: nat)
    requires i < |queues| && |queues[i]| <= CAPACITY
    ensures DeliveredAll(macs, queues, frames)[i] == queues[i] + Admitted(queues[i], Mine(macs, frames, i))
    decreases |frames|
  {
    var q := queues[i];
    if frames == [] {
      assert q + [] == q;
    } else {
      var next := Delivered(macs, queues, frames[0]);
      BatchReachesClient(macs, next, frames[1..], i);
      var rest := Mine(macs, frames[1..], i);
      if Gets(macs, frames[0], i) {
        AdmittedOne(q, frames[0], rest);
      } else {
        assert [] + rest == rest;
      }
    }
  }

  /** One call of the component, after initialisation. */
  datatype Call = Call(packets: seq<Frame>, caller: nat)

  predicate Bounded(queues: Queues) {
    forall i :: 0 <= i < |queues| ==> |queues[i]| <= CAPACITY
  }

  lemma CallKeepsBounded(macs: seq<Mac>, queues: Queues, c: Call)
    requires Bounded(queues) && c.caller < |queues|
    ensures Bounded(Rx(macs, queues, c.packets, c.caller).0)
  {
    var frames := c.packets[..Taken(c.packets)];
    forall i | 0 <= i < |queues| ensures |Rx(macs, queues, c.packets, c.caller).0[i]| <= CAPACITY {
      BatchReachesClient(macs, queues, frames, i);
    }
  }

  /**
   One call, seen by its caller: it gets its oldest frame whole; the result is 1 exactly when
   more remain, 0 when it was the last, -1 when there was none; and it is notified exactly
   when the result is not 1.
   */
  lemma ReplyMeans(macs: seq<Mac>, queues: Queues, c: Call)
    requires Bounded(queues) && c.caller < |queues|
    ensures var (after, r) := Rx(macs, queues, c.packets, c.caller);
      var frames := c.packets[..Taken(c.packets)];
      var q := queues[c.caller] + Admitted(queues[c.caller], Mine(macs, frames, c.caller));
      && (if q == [] then after[c.caller] == [] && r.frame == [] else [r.frame] + after[c.caller] == q)
      && (r.result == -1 <==> q == [])
      && (r.result == 1 <==> after[c.caller] != [])
      && r.result in {-1, 0, 1}
      && (r.notified <==> r.result != 1)
  {
    var frames := c.packets[..Taken(c.packets)];
    BatchReachesClient(macs, queues, frames, c.caller);
  }

  // ------------------------------------------------------------------ whole runs

  predicate CallersKnown(cs: seq<Call>, n: nat) {
    forall k :: 0 <= k < |cs| ==> cs[k].caller < n
  }

  function RunCalls(macs: seq<Mac>, queues: Queues, cs: seq<Call>): (r: Queues)
    requires CallersKnown(cs, |queues|)
    ensures |r| == |queues|
    decreases |cs|
  {
    if cs == [] then queues
    else RunCalls(macs, Rx(macs, queues, cs[0].packets, cs[0].caller).0, cs[1..])
  }

  /** The frames that a call gives to client `i`. */
  function Received(macs: seq<Mac>, queues: Queues, c: Call, i: nat): seq<Frame>
    requires c.caller < |queues|
  {
    var r := Rx(macs, queues, c.packets, c.caller).1;
    if c.caller == i && r.result != -1 then [r.frame] else []
  }

  /** The frames of a call that are queued for client `i`. */
  function Queued(macs: seq<Mac>, queues: Queues, c: Call, i: nat): seq<Frame>
    requires Bounded(queues) && i < |queues|
  {
    Admitted(queues[i], Mine(macs, c.packets[..Taken(c.packets)], i))
  }

  ghost function AllReceived(macs: seq<Mac>, queues: Queues, cs: seq<Call>, i: nat): seq<Frame>
    requires CallersKnown(cs, |queues|)
    decreases |cs|
  {
    if cs == [] then []
    else
      Received(macs, queues, cs[0], i)
      + AllReceived(macs, Rx(macs, queues, cs[0].packets, cs[0].caller).0, cs[1..], i)
  }

  ghost function AllQueued(macs: seq<Mac>, queues: Queues, cs: seq<Call>, i: nat): seq<Frame>
    requires CallersKnown(cs, |queues|) && Bounded(queues) && i < |queues|
    decreases |cs|
  {
    if cs == [] then []
    else
      CallKeepsBounded(macs, queues, cs[0]);
      Queued(macs, queues, cs[0], i)
      + AllQueued(macs, Rx(macs, queues, cs[0].packets, cs[0].caller).0, cs[1..], i)
  }

  lemma CallIsFifo(macs: seq<Mac>, queues: Queues, c: Call, i: nat)
    requires Bounded(queues) && c.caller < |queues| && i < |queues|
    ensures Received(macs, queues, c, i) + Rx(macs, queues, c.packets, c.caller).0[i]
            == queues[i] + Queued(macs, queues, c, i)
  {
    BatchReachesClient(macs, queues, c.packets[..Taken(c.packets)], i);
    if c.caller == i {
      ReplyMeans(macs, queues, c);
    }
  }

  /** Per client, over every run of calls by any clients: frames come out as they went in. */
  lemma {:induction false} RunIsFifo(macs: seq<Mac>, queues: Queues, cs: seq<Call>, i: nat)
    requires Bounded(queues) && CallersKnown(cs, |queues|) && i < |queues|
    ensures AllReceived(macs, queues, cs, i) + RunCalls(macs, queues, cs)[i]
            == queues[i] + AllQueued(macs, queues, cs, i)
    decreases |cs|
  {
    if cs != [] {
      var c := cs[0];
      var next := Rx(macs, queues, c.packets, c.caller).0;
      CallKeepsBounded(macs, queues, c);
      CallIsFifo(macs, queues, c, i);
      RunIsFifo(macs, next, cs[1..], i);
      FifoCompose(queues[i], Queued(macs, queues, c, i), Received(macs, queues, c, i), next[i],
                  AllQueued(macs, next, cs[1..], i), AllReceived(macs, next, cs[1..], i),
                  RunCalls(macs, next, cs[1..])[i]);
    }
  }

  // ------------------------------------------------------------------ the component

  type Buffer = b: Frame | |b| == BUF_SIZE witness seq(BUF_SIZE, _ => 0 as byte)
  datatype RawFrame = RawFrame(buf: Buffer, len: nat)
  type RxFrame = f: RawFrame | f.len <= BUF_SIZE witness RawFrame(seq(BUF_SIZE, _ => 0 as byte), 0)

  function Payload(f: RxFrame): Frame {
    f.buf[..f.len]
  }

  /** Copying a frame over the front of a slot's buffer. */
  function Copied(f: RxFrame, frame: Frame): (g: RxFrame)
    requires |frame| <= BUF_SIZE
    ensures Payload(g) == frame
  {
    RawFrame(Over(frame, f.buf), |frame|)
  }

  /** Copying a frame over the front of a buffer. */
  function Over(frame: Frame, buf: Buffer): (r: Buffer)
    requires |frame| <= BUF_SIZE
    ensures r == frame + buf[|frame|..]
  {
    frame + buf[|frame|..]
  }

  lemma NextWraps(i: nat)
    requires i < CLIENT_RX_BUFS
    ensures Next(i, CLIENT_RX_BUFS) == (i + 1) % CLIENT_RX_BUFS
  {
  }

  ghost predicate HoldFrames(slots: seq<RxFrame>, queue: seq<Frame>) {
    |slots| == |queue| && forall i :: 0 <= i < |queue| ==> Payload(slots[i]) == queue[i]
  }

  lemma HoldRest(rx: RxFrame, rest: seq<RxFrame>, queue: seq<Frame>)
    requires HoldFrames([rx] + rest, queue)
    ensures queue != [] && Payload(rx) == queue[0] && HoldFrames(rest, queue[1..])
  {
    assert Payload(([rx] + rest)[0]) == queue[0];
    forall i | 0 <= i < |rest| ensures Payload(rest[i]) == queue[1..][i] {
      assert Payload(([rx] + rest)[i + 1]) == queue[i + 1];
    }
  }

  /** Advancing the tail of a ring of frames removes the oldest one. */
  lemma OldestFrame(slots: seq<RxFrame>, tail: nat, head: nat, queue: seq<Frame>)
    requires tail < |slots| && head < |slots| && tail != head
    requires HoldFrames(Contents(slots, tail, head), queue)
    ensures queue != [] && Payload(slots[tail]) == queue[0]
    ensures HoldFrames(Contents(slots, Next(tail, |slots|), head), queue[1..])
    ensures Next(tail, |slots|) == head <==> |queue| == 1
  {
    PopRemovesOldest(slots, tail, head);
    HoldRest(slots[tail], Contents(slots, Next(tail, |slots|), head), queue);
  }

  /** A call's results, and the caller's dataport after it: the frame over the front of it. */
  predicate Passed(r: Reply, ret: int, len: nat, emitted: bool, before: Buffer, after: Buffer) {
    && ret == r.result && emitted == r.notified
    && len == |r.frame| <= BUF_SIZE && after == r.frame + before[len..]
  }

  /** client_t: a ring of frame slots inside the structure, and the client's dataport. */
  class Client {
    ghost var queue: seq<Frame>
    var pendingRxHead: nat
    var pendingRxTail: nat
    var pendingRx: seq<RxFrame>
    var dataport: Buffer
    const mac: Mac
    const clientId: nat

    ghost predicate Valid()
      reads this
    {
      && |pendingRx| == CLIENT_RX_BUFS
      && pendingRxHead < CLIENT_RX_BUFS && pendingRxTail < CLIENT_RX_BUFS
      && HoldFrames(Contents(pendingRx, pendingRxTail, pendingRxHead), queue)
    }

    constructor (mac: Mac, clientId: nat)
      ensures Valid() && queue == [] && this.mac == mac && this.clientId == clientId
    {
      pendingRxHead, pendingRxTail, queue := 0, 0, [];
      pendingRx := seq(CLIENT_RX_BUFS, _ => RawFrame(seq(BUF_SIZE, _ => 0 as byte), 0));
      dataport := seq(BUF_SIZE, _ => 0 as byte);
      this.mac, this.clientId := mac, clientId;
    }

    /** Copying one frame into the client's ring, or silently dropping it when the ring is full. */
    method Enqueue(packet: Frame)
      requires Valid() && |packet| <= BUF_SIZE
      modifies this`queue, this`pendingRx, this`pendingRxHead
      ensures Valid() && queue == Append(old(queue), packet)
    {
      FullIffOneSlotLeft(pendingRx, pendingRxTail, pendingRxHead);
      NextWraps(pendingRxHead);
      if (pendingRxHead + 1) % CLIENT_RX_BUFS != pendingRxTail {
        var slot := Copied(pendingRx[pendingRxHead], packet);
        PushAppends(pendingRx, pendingRxTail, pendingRxHead, slot);
        pendingRx := pendingRx[pendingRxHead := slot];
        pendingRxHead := (pendingRxHead + 1) % CLIENT_RX_BUFS;
        queue := queue + [packet];
      }
    }

    /** The end of client_rx: the caller's oldest frame, if any, into its dataport. */
    method PassOldest() returns (ret: int, len: nat, emitted: bool)
      requires Valid()
      modifies this`queue, this`pendingRxTail, this`dataport
      ensures Valid()
      ensures queue == Serve(old(queue)).0
      ensures Passed(Serve(old(queue)).1, ret, len, emitted, old(dataport), dataport)
    {
      if pendingRxHead == pendingRxTail {
        assert dataport == [] + dataport[0..];
        return -1, 0, true;
      }
      OldestFrame(pendingRx, pendingRxTail, pendingRxHead, queue);
      NextWraps(pendingRxTail);
      var rx := pendingRx[pendingRxTail];
      dataport := Over(Payload(rx), dataport);
      len := rx.len;
      pendingRxTail := (pendingRxTail + 1) % CLIENT_RX_BUFS;
      queue := queue[1..];
      if pendingRxTail == pendingRxHead {
        ret, emitted := 0, true;
      } else {
        ret, emitted := 1, false;
      }
    }
  }

  /** The last of the first `n` clients with this identifier, or the number of clients. */
  function LastBefore(badges: seq<nat>, sender: nat, n: nat): nat
    requires n <= |badges|
  {
    if n == 0 then |badges|
    else if badges[n - 1] == sender then n - 1
    else LastBefore(badges, sender, n - 1)
  }

  lemma {:induction false} LastIsCaller(badges: seq<nat>, sender: nat, n: nat)
    requires n <= |badges| && sender in badges
    requires forall j :: n <= j < |badges| ==> badges[j] != sender
    ensures IsCaller(badges, LastBefore(badges, sender, n), sender)
  {
    if n > 0 && badges[n - 1] != sender {
      LastIsCaller(badges, sender, n - 1);
    }
  }

  /** Nothing queued for any of `n` clients. */
  function NoFrames(n: nat): Queues {
    seq(n, _ => [])
  }

  /** The caller is the last client with this identifier. */
  predicate IsCaller(badges: seq<nat>, c: nat, sender: nat) {
    c < |badges| && badges[c] == sender && forall j :: c < j < |badges| ==> badges[j] != sender
  }

  lemma OneMoreClient(addresses: seq<Mac>, ids: seq<nat>, i: nat)
    requires i < |addresses| == |ids|
    ensures addresses[..i + 1] == addresses[..i] + [addresses[i]] && ids[..i + 1] == ids[..i] + [ids[i]]
    ensures NoFrames(i + 1) == NoFrames(i) + [[]]
  {
  }

  class Component {
    ghost var queues: Queues
    ghost var macs: seq<Mac>
    ghost var dataports: seq<Buffer>
    ghost var badges: seq<nat>
    var clients: seq<Client>
    var doneInit: bool

    ghost predicate Valid()
      reads this`queues, this`macs, this`dataports, this`badges, this`clients, clients
    {
      && |queues| == |clients| == |macs| == |dataports| == |badges|
      && (forall i, j :: 0 <= i < j < |clients| ==> clients[i] != clients[j])
      && (forall i :: 0 <= i < |clients| ==>
          clients[i].Valid() && clients[i].queue == queues[i] && clients[i].mac == macs[i]
          && clients[i].dataport == dataports[i])
      && Named()
    }

    /** The identifiers, which never change. */
    ghost predicate Named()
      reads this`badges, this`clients
    {
      |badges| == |clients| && forall i :: 0 <= i < |clients| ==> clients[i].clientId == badges[i]
    }

    /** The component as it is loaded: no clients yet, and not initialised. */
    constructor ()
      ensures Valid() && !doneInit && clients == []
    {
      queues, macs, dataports, badges, clients, doneInit := [], [], [], [], [], false;
    }

    /** The preallocating loop of server_init: each client starts with an empty ring. */
    method ServerInit(addresses: seq<Mac>, ids: seq<nat>)
      requires Valid() && !doneInit && clients == [] && |addresses| == |ids|
      modifies this
      ensures Valid() && doneInit && fresh(clients)
      ensures macs == addresses && badges == ids && queues == NoFrames(|ids|)
    {
      for i := 0 to |ids|
        invariant Started(addresses, ids, i) && fresh(clients)
      {
        AddNext(addresses, ids, i);
      }
      assert addresses[..|ids|] == addresses && ids[..|ids|] == ids;
      doneInit := true;
    }

    /** The first `i` clients are there. */
    ghost predicate Started(addresses: seq<Mac>, ids: seq<nat>, i: nat)
      requires i <= |ids| == |addresses|
      reads this`queues, this`macs, this`dataports, this`badges, this`clients, clients
    {
      Valid() && |clients| == i && macs == addresses[..i] && badges == ids[..i] && queues == NoFrames(i)
    }

    method AddNext(addresses: seq<Mac>, ids: seq<nat>, i: nat)
      requires i < |ids| == |addresses| && Started(addresses, ids, i)
      modifies this
      ensures Started(addresses, ids, i + 1) && doneInit == old(doneInit)
      ensures clients[..i] == old(clients) && fresh(clients[i])
    {
      OneMoreClient(addresses, ids, i);
      AddClient(addresses[i], ids[i]);
    }

    method AddClient(address: Mac, id: nat)
      requires Valid()
      modifies this
      ensures Valid() && doneInit == old(doneInit)
      ensures queues == old(queues) + [[]] && macs == old(macs) + [address] && badges == old(badges) + [id]
      ensures clients[..|clients| - 1] == old(clients) && fresh(clients[|clients| - 1])
    {
      var client := new Client(address, id);
      clients := clients + [client];
      queues, macs := queues + [[]], macs + [address];
      dataports, badges := dataports + [client.dataport], badges + [id];
    }

    /** detect_client, as an index; the number of clients stands for NULL. */
    method DetectClient(packet: Frame) returns (i: nat)
      requires Valid()
      ensures i == Detect(macs, packet)
    {
      if |packet| < 6 {
        return |clients|;
      }
      i := 0;
      while i < |clients|
        invariant i <= |clients|
        invariant FirstMatch(macs, packet, 0) == FirstMatch(macs, packet, i)
      {
        if clients[i].mac == packet[..6] {
          return;
        }
        i := i + 1;
      }
    }

    method EnqueueFor(i: nat, packet: Frame)
      requires Valid() && i < |clients| && |packet| <= BUF_SIZE
      modifies this`queues, clients
      ensures Valid() && queues == old(queues)[i := Append(old(queues)[i], packet)]
    {
      clients[i].Enqueue(packet);
      queues := queues[i := clients[i].queue];
    }

    /** One frame of the driver, copied to the client or clients it is for. */
    method Dispatch(packet: Frame)
      requires Valid() && |packet| <= BUF_SIZE
      modifies this`queues, clients
      ensures Valid() && queues == Delivered(macs, old(queues), packet)
    {
      ghost var before := queues;
      var c := DetectClient(packet);
      if c == |clients| {
        if IsBroadcast(packet) || IsMulticast(packet) {
          EnqueueForAll(packet);
          DeliveredToAll(macs, before, packet, queues);
        } else {
          DeliveredToNone(macs, before, packet);
        }
      } else {
        EnqueueFor(c, packet);
        DeliveredToOne(macs, before, packet, c);
      }
    }

    method EnqueueForAll(packet: Frame)
      requires Valid() && |packet| <= BUF_SIZE
      modifies this`queues, clients
      ensures Valid() && |queues| == |old(queues)|
      ensures forall j :: 0 <= j < |queues| ==> queues[j] == Append(old(queues)[j], packet)
    {
      ghost var before := queues;
      var i := 0;
      while i < |clients|
        invariant i <= |clients| && Valid() && |before| == |queues|
        invariant forall j :: 0 <= j < i ==> queues[j] == Append(before[j], packet)
        invariant forall j :: i <= j < |clients| ==> queues[j] == before[j]
      {
        EnqueueFor(i, packet);
        i := i + 1;
      }
    }

    /** The reading loop of client_rx: frames until there is none, or one is too long. */
    method DrainDriver(packets: seq<Frame>)
      requires Valid()
      modifies this`queues, clients
      ensures Valid() && queues == DeliveredAll(macs, old(queues), packets[..Taken(packets)])
    {
      ghost var whole := DeliveredAll(macs, queues, packets[..Taken(packets)]);
      var left := packets;
      while left != []
        invariant Valid()
        invariant whole == DeliveredAll(macs, queues, left[..Taken(left)])
        decreases |left|
      {
        var packet := left[0];
        if |packet| == 0 {
          break;
        }
        if |packet| > BUF_SIZE {
          break;
        }
        TakenOne(left);
        Dispatch(packet);
        left := left[1..];
      }
    }

    /** The caller's oldest frame, if any, to its dataport; no other client is touched. */
    method ServeSender(sender: nat) returns (ret: int, len: nat, emitted: bool, ghost c: nat)
      requires Valid() && sender in badges
      modifies this`queues, this`dataports, clients
      ensures Valid() && IsCaller(badges, c, sender)
      ensures queues == old(queues)[c := Serve(old(queues)[c]).0]
      ensures dataports == old(dataports)[c := dataports[c]]
      ensures Passed(Serve(old(queues)[c]).1, ret, len, emitted, old(dataports)[c], dataports[c])
    {
      var caller := FindSender(sender);
      ret, len, emitted := clients[caller].PassOldest();
      queues := queues[caller := clients[caller].queue];
      dataports := dataports[caller := clients[caller].dataport];
      c := caller;
    }

    /** client_rx once initialised: the driver's frames to their queues, then the caller's oldest. */
    method DrainAndServe(packets: seq<Frame>, sender: nat)
      returns (ret: int, len: nat, emitted: bool, ghost c: nat, ghost filled: Queues)
      requires Valid() && sender in badges
      modifies this`queues, this`dataports, clients
      ensures Valid() && IsCaller(badges, c, sender)
      ensures filled == DeliveredAll(macs, old(queues), packets[..Taken(packets)])
      ensures queues == filled[c := Serve(filled[c]).0] && dataports == old(dataports)[c := dataports[c]]
      ensures Passed(Serve(filled[c]).1, ret, len, emitted, old(dataports)[c], dataports[c])
    {
      DrainDriver(packets);
      filled := queues;
      ret, len, emitted, c := ServeSender(sender);
    }

    /**
     client_rx, called by the client with identifier `sender`; `packets` are the frames the
     driver has.  The caller is the last client with that identifier, `c`.
     */
    method ClientRx(packets: seq<Frame>, sender: nat) returns (ret: int, len: nat, emitted: bool, ghost c: nat)
      requires Valid()
      requires doneInit ==> sender in badges
      modifies this`queues, this`dataports, clients
      ensures Valid()
      ensures !doneInit ==>
        ret == -1 && len == 0 && !emitted && queues == old(queues) && dataports == old(dataports)
      ensures doneInit ==> IsCaller(badges, c, sender) && queues == Rx(macs, old(queues), packets, c).0
      ensures doneInit ==> dataports == old(dataports)[c := dataports[c]]
      ensures doneInit ==>
        Passed(Rx(macs, old(queues), packets, c).1, ret, len, emitted, old(dataports)[c], dataports[c])
    {
      if !doneInit {
        return -1, 0, false, 0;
      }
      ghost var before := queues;
      ghost var filled: Queues;
      ret, len, emitted, c, filled := DrainAndServe(packets, sender);
      RxServes(macs, before, packets, c, filled);
    }

    /** The search for the calling client, which keeps the last match. */
    method FindSender(sender: nat) returns (c: nat)
      requires Named() && sender in badges
      ensures IsCaller(badges, c, sender)
    {
      c := |clients|;
      for i := 0 to |clients|
        invariant c == LastBefore(badges, sender, i)
      {
        if clients[i].clientId == sender {
          c := i;
        }
      }
      LastIsCaller(badges, sender, |badges|);
    }
  }

  lemma TakenOne(packets: seq<Frame>)
    requires packets != [] && 0 < |packets[0]| <= BUF_SIZE
    ensures Taken(packets) == 1 + Taken(packets[1..])
    ensures packets[..Taken(packets)] == [packets[0]] + packets[1..][..Taken(packets[1..])]
    ensures packets[..Taken(packets)][1..] == packets[1..][..Taken(packets[1..])]
  {
  }
}
