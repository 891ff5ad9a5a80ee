/**
 The keyboard-to-Transmitter pipeline as two threads that interleave at every access to what
 they share: the dataport ring, the mutex around it, and a notification that coalesces.  The
 producer runs clear_text_handle_character for each key; the consumer polls the notification
 and, when it was set, drains the ring.
 */
module Pipeline {
  import opened Crypto
  import opened Streams

  datatype Owner = Nobody | ByProducer | ByConsumer

  datatype Producer =
    | Waiting               // for a key
    | Locking(key: Char)    // about to take the mutex
    | Writing(key: Char)    // in the critical section
    | Unlocking             // done with the ring
    | Emitting              // about to emit the notification

  datatype Consumer =
    | Polling               // in the main loop
    | LockingToDrain        // the poll found a notification
    | Draining              // in the critical section

  /** `accepted` and `drained` record the whole run; `dropsAt` the queue length at each drop. */
  datatype State = State(ring: Ring, lock: Owner, notified: bool, producer: Producer, consumer: Consumer,
                         accepted: seq<Char>, drained: seq<Char>, dropsAt: seq<nat>)

  datatype Step =
    | Key(c: Char)
    | ProducerLock
    | ProducerWrite
    | ProducerUnlock
    | ProducerEmit
    | ConsumerPoll
    | ConsumerLock
    | ConsumerTake
    | ConsumerUnlock

  predicate Enabled(s: State, e: Step) {
    match e
    case Key(_) => s.producer.Waiting?
    case ProducerLock => s.producer.Locking? && s.lock.Nobody?
    case ProducerWrite => s.producer.Writing?
    case ProducerUnlock => s.producer.Unlocking?
    case ProducerEmit => s.producer.Emitting?
    case ConsumerPoll => s.consumer.Polling? && s.notified
    case ConsumerLock => s.consumer.LockingToDrain? && s.lock.Nobody?
    case ConsumerTake => s.consumer.Draining? && s.ring.head != s.ring.tail
    case ConsumerUnlock => s.consumer.Draining? && s.ring.head == s.ring.tail
  }

  ghost function Next(s: State, e: Step): State
    requires Enabled(s, e)
  {
    match e
    case Key(c) => s.(producer := Locking(c))
    case ProducerLock => s.(producer := Writing(s.producer.key), lock := ByProducer)
    case ProducerWrite =>
      if Full(s.ring) then s.(producer := Unlocking, dropsAt := s.dropsAt + [|Queue(s.ring)|])
      else
        var key := s.producer.key;
        s.(producer := Unlocking, ring := Put(s.ring, Rot13(key)), accepted := s.accepted + [key])
    case ProducerUnlock => s.(producer := Emitting, lock := Nobody)
    case ProducerEmit => s.(producer := Waiting, notified := true)
    case ConsumerPoll => s.(consumer := LockingToDrain, notified := false)
    case ConsumerLock => s.(consumer := Draining, lock := ByConsumer)
    case ConsumerTake =>
      s.(ring := Take(s.ring), drained := s.drained + [s.ring.data[s.ring.tail]])
    case ConsumerUnlock => s.(consumer := Polling, lock := Nobody)
  }

  ghost predicate Initial(s: State) {
    && s.ring.head == s.ring.tail && s.lock.Nobody? && !s.notified
    && s.producer.Waiting? && s.consumer.Polling?
    && s.accepted == [] && s.drained == [] && s.dropsAt == []
  }

  ghost predicate Runs(s: State, es: seq<Step>)
    decreases |es|
  {
    es == [] || (Enabled(s, es[0]) && Runs(Next(s, es[0]), es[1..]))
  }

  ghost function Run(s: State, es: seq<Step>): State
    requires Runs(s, es)
    decreases |es|
  {
    if es == [] then s else Run(Next(s, es[0]), es[1..])
  }

  /** At most one thread is in its critical section, and it is the one that holds the mutex. */
  ghost predicate LockHeld(s: State) {
    && (s.lock.ByProducer? <==> s.producer.Writing? || s.producer.Unlocking?)
    && (s.lock.ByConsumer? <==> s.consumer.Draining?)
  }

  /** A non-empty ring is always on its way to being drained. */
  ghost predicate NoLostWakeup(s: State) {
    Queue(s.ring) != [] ==>
      || s.notified
      || s.producer.Unlocking? || s.producer.Emitting?
      || s.consumer.LockingToDrain? || s.consumer.Draining?
  }

  /** What was drained, then what is queued, is the accepted keys encrypted, in order. */
  ghost predicate StreamKept(s: State) {
    s.drained + Queue(s.ring) == Encrypted(s.accepted)
  }

  ghost predicate DropsWhenFull(s: State) {
    forall i :: 0 <= i < |s.dropsAt| ==> s.dropsAt[i] == 255
  }

  ghost predicate Inv(s: State) {
    LockHeld(s) && NoLostWakeup(s) && StreamKept(s) && DropsWhenFull(s)
  }

  lemma StepKeepsLock(s: State, e: Step)
    requires LockHeld(s) && Enabled(s, e)
    ensures LockHeld(Next(s, e))
  {
  }

  lemma StepKeepsWakeup(s: State, e: Step)
    requires LockHeld(s) && NoLostWakeup(s) && Enabled(s, e)
    ensures NoLostWakeup(Next(s, e))
  {
  }

  lemma StepKeepsStream(s: State, e: Step)
    requires StreamKept(s) && Enabled(s, e)
    ensures StreamKept(Next(s, e))
  {
    if e.ProducerWrite? && !Full(s.ring) {
      var c := Rot13(s.producer.key);
      PutAppends(s.ring, c);
      Assoc(s.drained, Queue(s.ring), [c]);
      assert Encrypted(s.accepted + [s.producer.key]) == Encrypted(s.accepted) + [c];
    } else if e.ConsumerTake? {
      TakeRemovesOldest(s.ring);
      Assoc(s.drained, [s.ring.data[s.ring.tail]], Queue(Take(s.ring)));
    }
  }

  lemma StepKeepsDrops(s: State, e: Step)
    requires DropsWhenFull(s) && Enabled(s, e)
    ensures DropsWhenFull(Next(s, e))
  {
    FullMeans255(s.ring);
  }

  /**
   Safety over every interleaving: mutual exclusion, no lost wakeup, the encrypted stream
   drained in order without loss or repetition, and drops only with 255 characters queued.
   */
  lemma {:induction false} RunKeepsInv(s: State, es: seq<Step>)
    requires Inv(s) && Runs(s, es)
    ensures Inv(Run(s, es))
    decreases |es|
  {
    if es != [] {
      StepKeepsLock(s, es[0]);
      StepKeepsWakeup(s, es[0]);
      StepKeepsStream(s, es[0]);
      StepKeepsDrops(s, es[0]);
      RunKeepsInv(Next(s, es[0]), es[1..]);
    }
  }

  lemma InitialOk(s: State)
    requires Initial(s)
    ensures Inv(s)
  {
    assert s.drained + Queue(s.ring) == Encrypted(s.accepted);
  }

  // ------------------------------------------------------------------ every key accounted for

  /** A key that has the ring free for it goes into it; one that meets 255 characters is dropped. */
  lemma WriteMeans(s: State)
    requires Enabled(s, ProducerWrite)
    ensures var t, key := Next(s, ProducerWrite), s.producer.key;
      && t.producer.Unlocking? && t.drained == s.drained
      && if |Queue(s.ring)| < 255 then
           t.accepted == s.accepted + [key] && t.dropsAt == s.dropsAt
           && Queue(t.ring) == Queue(s.ring) + [Rot13(key)]
         else
           t.accepted == s.accepted && t.dropsAt == s.dropsAt + [255] && t.ring == s.ring
  {
    FullMeans255(s.ring);
    if !Full(s.ring) {
      PutAppends(s.ring, Rot13(s.producer.key));
    }
  }

  /** The keys pressed during a run. */
  function Keys(es: seq<Step>): seq<Char> {
    if es == [] then [] else KeyOf(es[0]) + Keys(es[1..])
  }

  function KeyOf(e: Step): seq<Char> {
    if e.Key? then [e.c] else []
  }

  function Emits(es: seq<Step>): nat {
    if es == [] then 0 else (if es[0].ProducerEmit? then 1 else 0) + Emits(es[1..])
  }

  /** A key reaching the ring, and how many characters it finds there. */
  datatype Arrival = Arrival(key: Char, queued: nat)

  ghost function Arrivals(s: State, es: seq<Step>): seq<Arrival>
    requires Runs(s, es)
    decreases |es|
  {
    if es == [] then [] else ArrivalOf(s, es[0]) + Arrivals(Next(s, es[0]), es[1..])
  }

  ghost function ArrivalOf(s: State, e: Step): seq<Arrival>
    requires Enabled(s, e)
  {
    if e.ProducerWrite? then [Arrival(s.producer.key, |Queue(s.ring)|)] else []
  }

  function KeysOf(arrivals: seq<Arrival>): (keys: seq<Char>)
    ensures |keys| == |arrivals|
  {
    if arrivals == [] then [] else [arrivals[0].key] + KeysOf(arrivals[1..])
  }

  /** The keys that found fewer than 255 characters. */
  function Kept(arrivals: seq<Arrival>): seq<Char> {
    if arrivals == [] then []
    else (if arrivals[0].queued < 255 then [arrivals[0].key] else []) + Kept(arrivals[1..])
  }

  function Dropped(arrivals: seq<Arrival>): (n: nat)
    ensures n + |Kept(arrivals)| == |arrivals|
  {
    if arrivals == [] then 0 else (if arrivals[0].queued < 255 then 0 else 1) + Dropped(arrivals[1..])
  }

  /** The key a producer has taken and not yet brought to the ring. */
  function InHand(p: Producer): seq<Char> {
    if p.Locking? || p.Writing? then [p.key] else []
  }

  lemma OneArrival(x: Arrival)
    ensures KeysOf([x]) == [x.key]
    ensures Kept([x]) == (if x.queued < 255 then [x.key] else [])
    ensures Dropped([x]) == if x.queued < 255 then 0 else 1
  {
    assert [x][1..] == [];
  }

  lemma ArrivalFirst(x: Arrival, b: seq<Arrival>)
    ensures KeysOf([x] + b) == [x.key] + KeysOf(b)
    ensures Kept([x] + b) == (if x.queued < 255 then [x.key] else []) + Kept(b)
    ensures Dropped([x] + b) == (if x.queued < 255 then 0 else 1) + Dropped(b)
  {
    assert ([x] + b)[1..] == b;
  }

  lemma ArrivalsAppend(a: seq<Arrival>, b: seq<Arrival>)
    requires |a| <= 1
    ensures KeysOf(a + b) == KeysOf(a) + KeysOf(b)
    ensures Kept(a + b) == Kept(a) + Kept(b) && Dropped(a + b) == Dropped(a) + Dropped(b)
  {
    if a == [] {
      assert a + b == b;
    } else {
      assert a == [a[0]];
      OneArrival(a[0]);
      ArrivalFirst(a[0], b);
    }
  }

  lemma StepAccounts(s: State, e: Step)
    requires Enabled(s, e)
    ensures var t, a := Next(s, e), ArrivalOf(s, e);
      && KeysOf(a) + InHand(t.producer) == InHand(s.producer) + KeyOf(e)
      && t.accepted == s.accepted + Kept(a)
      && |t.dropsAt| == |s.dropsAt| + Dropped(a)
  {
    if e.ProducerWrite? {
      WriteMeans(s);
      assert [Arrival(s.producer.key, |Queue(s.ring)|)][1..] == [];
    }
  }

  lemma {:induction false} KeysAccounted(s: State, es: seq<Step>)
    requires Runs(s, es)
    ensures var t, a := Run(s, es), Arrivals(s, es);
      && KeysOf(a) + InHand(t.producer) == InHand(s.producer) + Keys(es)
      && t.accepted == s.accepted + Kept(a)
      && |t.dropsAt| == |s.dropsAt| + Dropped(a)
    decreases |es|
  {
    if es == [] {
      assert InHand(s.producer) + [] == [] + InHand(s.producer);
    } else {
      var t, first := Next(s, es[0]), ArrivalOf(s, es[0]);
      var rest := Arrivals(t, es[1..]);
      StepAccounts(s, es[0]);
      KeysAccounted(t, es[1..]);
      ArrivalsAppend(first, rest);
      Assoc(s.accepted, Kept(first), Kept(rest));
      FifoCompose(InHand(s.producer), KeyOf(es[0]), KeysOf(first), InHand(t.producer),
                  Keys(es[1..]), KeysOf(rest), InHand(Run(t, es[1..]).producer));
    }
  }

  /**
   Over every run: the keys pressed, in order, are those that have reached the ring and then the
   one in hand; those accepted are exactly, in order, the ones that met fewer than 255
   characters, and each of the others is one drop.
   */
  lemma {:induction false} EveryKeyAccounted(s: State, es: seq<Step>)
    requires Initial(s) && Runs(s, es)
    ensures var t, a := Run(s, es), Arrivals(s, es);
      && Keys(es) == KeysOf(a) + InHand(t.producer)
      && t.accepted == Kept(a) && |t.dropsAt| == Dropped(a)
      && |t.accepted| + |t.dropsAt| + |InHand(t.producer)| == |Keys(es)|
  {
    KeysAccounted(s, es);
    assert [] + Keys(es) == Keys(es);
  }

  /** Every key, dropped or not, ends in a notification. */
  lemma {:induction false} EveryKeyNotifies(s: State, es: seq<Step>)
    requires Runs(s, es)
    ensures Emits(es) + (if Run(s, es).producer.Waiting? then 0 else 1)
            == |Keys(es)| + if s.producer.Waiting? then 0 else 1
    decreases |es|
  {
    if es != [] {
      EveryKeyNotifies(Next(s, es[0]), es[1..]);
    }
  }

  // ------------------------------------------------------------------ quiescence

  /** No thread can move until the next key. */
  ghost predicate Quiet(s: State) {
    forall e: Step :: Enabled(s, e) ==> e.Key?
  }

  /**
   Nobody is ever stuck: when both threads have stopped, neither waits for the mutex, and
   every accepted key has been drained.
   */
  lemma QuietMeansDrained(s: State)
    requires Inv(s) && Quiet(s)
    ensures s.producer.Waiting? && s.consumer.Polling? && s.lock.Nobody?
    ensures s.drained == Encrypted(s.accepted)
  {
    assert !Enabled(s, ProducerLock) && !Enabled(s, ProducerWrite);
    assert !Enabled(s, ProducerUnlock) && !Enabled(s, ProducerEmit);
    assert !Enabled(s, ConsumerPoll) && !Enabled(s, ConsumerLock);
    assert !Enabled(s, ConsumerTake) && !Enabled(s, ConsumerUnlock);
    assert s.drained + [] == s.drained;
  }

  /** How much is left to do before the threads stop, if no key is pressed. */
  function Work(s: State): nat {
    var p := match s.producer
      case Waiting => 0
      case Emitting => 1
      case Unlocking => 2
      case Writing(_) => 3
      case Locking(_) => 4;
    var c := match s.consumer
      case Polling => 0
      case Draining => 1
      case LockingToDrain => 2;
    1000 * p + (if s.notified then 500 else 0) + c + Held(s.ring)
  }

  function Held(r: Ring): (n: nat)
    ensures n <= 255
    ensures n == |Queue(r)|
  {
    (r.head + RING - r.tail) % RING
  }

  /** Between two keys the threads take finitely many steps, so they do become quiet. */
  lemma StepsUseUpWork(s: State, e: Step)
    requires Enabled(s, e) && !e.Key?
    ensures Work(Next(s, e)) < Work(s)
  {
    if e.ProducerWrite? && !Full(s.ring) {
      PutAppends(s.ring, Rot13(s.producer.key));
    } else if e.ConsumerTake? {
      TakeRemovesOldest(s.ring);
    }
  }
}
