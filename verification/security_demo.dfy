/**
 The encryption routine of the Crypto component and the 256-character dataport it shares with
 the Transmitter.  Characters are C `char` values; whether the platform's char is signed does
 not matter to any statement here, so they are plain integers.
 */
module Crypto {
  import opened Rings

  type Char = int

  const UC_A: Char := 65
  const UC_Z: Char := 90
  const LC_A: Char := 97
  const LC_Z: Char := 122

  /** rot_13 */
  function Rot13(src: Char): Char {
    if (src >= LC_A && src <= LC_Z) || (src >= UC_A && src <= UC_Z) then
      if src >= LC_A + 13 || (src >= UC_A + 13 && src <= UC_Z) then src - 13 else src + 13
    else src
  }

  /** Letters rotate 13 places within their own case; everything else stays. */
  lemma Rot13Rotates(src: Char)
    ensures Rot13(src) ==
      if UC_A <= src <= UC_Z then UC_A + (src - UC_A + 13) % 26
      else if LC_A <= src <= LC_Z then LC_A + (src - LC_A + 13) % 26
      else src
    ensures Rot13(Rot13(src)) == src
  {
  }

  function Encrypted(text: seq<Char>): (e: seq<Char>)
    ensures |e| == |text|
  {
    seq(|text|, i requires 0 <= i < |text| => Rot13(text[i]))
  }

  lemma EncryptingTwiceIsIdentity(text: seq<Char>)
    ensures Encrypted(Encrypted(text)) == text
  {
    forall i | 0 <= i < |text| ensures Encrypted(Encrypted(text))[i] == text[i] {
      Rot13Rotates(text[i]);
    }
  }

  // ------------------------------------------------------------------ the dataport

  const RING: nat := 256

  /** The dataport's contents: `head` and `tail` are uint8_t and wrap by themselves. */
  datatype RawRing = RawRing(data: seq<Char>, head: nat, tail: nat)
  type Ring = r: RawRing | |r.data| == RING && r.head < RING && r.tail < RING
    witness RawRing(seq(RING, _ => 0), 0, 0)

  ghost function Queue(r: Ring): seq<Char> {
    Contents(r.data, r.tail, r.head)
  }

  predicate Full(r: Ring) {
    (r.head + 1) % RING == r.tail
  }

  function Put(r: Ring, c: Char): Ring {
    RawRing(r.data[r.head := c], (r.head + 1) % RING, r.tail)
  }

  function Take(r: Ring): Ring {
    r.(tail := (r.tail + 1) % RING)
  }

  /** Wrap-around never confuses a full ring with an empty one: 255 characters fit. */
  lemma FullMeans255(r: Ring)
    ensures Full(r) <==> |Queue(r)| == 255
  {
    FullIffOneSlotLeft(r.data, r.tail, r.head);
  }

  lemma PutAppends(r: Ring, c: Char)
    requires !Full(r)
    ensures Queue(Put(r, c)) == Queue(r) + [c]
  {
    PushAppends(r.data, r.tail, r.head, c);
  }

  lemma TakeRemovesOldest(r: Ring)
    requires r.head != r.tail
    ensures Queue(r) == [r.data[r.tail]] + Queue(Take(r))
  {
    PopRemovesOldest(r.data, r.tail, r.head);
  }

  /** The dataport in shared memory. */
  class Dataport {
    ghost var queue: seq<Char>
    var data: array<Char>
    var head: nat
    var tail: nat

    ghost predicate Valid()
      reads this, data
    {
      && data.Length == RING && head < RING && tail < RING
      && queue == Contents(data[..], tail, head)
    }

    constructor ()
      ensures Valid() && queue == [] && fresh(data)
    {
      data := new Char[RING](_ => 0);
      head, tail, queue := 0, 0, [];
    }

    /** The critical section of clear_text_handle_character. */
    method HandleCharacter(c: Char) returns (accepted: bool)
      requires Valid()
      modifies this, data
      ensures Valid() && data == old(data)
      ensures accepted == (|old(queue)| < 255)
      ensures queue == if accepted then old(queue) + [Rot13(c)] else old(queue)
    {
      var encrypted := Rot13(c);
      FullIffOneSlotLeft(data[..], tail, head);
      if (head + 1) % RING == tail {
        accepted := false;
      } else {
        PushAppends(data[..], tail, head, encrypted);
        ghost var ring := data[..];
        data[head] := encrypted;
        assert data[..] == ring[head := encrypted];
        head := (head + 1) % RING;
        queue := queue + [encrypted];
        accepted := true;
      }
    }

    /** One pass of the Transmitter's drain loop over the ring. */
    method Next() returns (c: Char)
      requires Valid() && head != tail
      modifies this`tail, this`queue
      ensures Valid() && old(queue) == [c] + queue
    {
      PopRemovesOldest(data[..], tail, head);
      c := data[tail];
      tail := (tail + 1) % RING;
      queue := queue[1..];
    }
  }
}

/**
 The Transmitter's two bounded output buffers and its append-only log, with the log file as
 the storage device sees it.
 */
module Transmitter {
  import opened Crypto
  import opened Streams

  const TX_BUF_LEN: nat := 4096
  const UINT_RANGE: nat := 0x1_0000_0000

  /** What a buffer of capacity TX_BUF_LEN holds after `arrivals`: the rest is discarded. */
  function Fill(buf: seq<Char>, arrivals: seq<Char>): (r: seq<Char>)
    requires |buf| <= TX_BUF_LEN
    ensures |r| <= TX_BUF_LEN
    ensures buf <= r <= buf + arrivals
    ensures r == buf + arrivals || |r| == TX_BUF_LEN
  {
    var room := TX_BUF_LEN - |buf|;
    buf + if |arrivals| <= room then arrivals else arrivals[..room]
  }

  lemma FillOne(buf: seq<Char>, arrivals: seq<Char>, c: Char)
    requires |buf| <= TX_BUF_LEN
    ensures Fill(buf, arrivals + [c]) ==
      if |Fill(buf, arrivals)| < TX_BUF_LEN then Fill(buf, arrivals) + [c] else Fill(buf, arrivals)
  {
    var room := TX_BUF_LEN - |buf|;
    if |arrivals| < room {
      assert buf + (arrivals + [c]) == (buf + arrivals) + [c];
    } else {
      assert (arrivals + [c])[..room] == arrivals[..room];
    }
  }

  /** A buffer counts as the characters it admits, one at a time. */
  lemma FillSplits(buf: seq<Char>, first: seq<Char>, second: seq<Char>)
    requires |buf| <= TX_BUF_LEN
    ensures Fill(Fill(buf, first), second) == Fill(buf, first + second)
  {
    var room := TX_BUF_LEN - |buf|;
    if |first| >= room {
      assert (first + second)[..room] == first[..room];
      if |first| == room && second != [] {
        assert second[..0] == [];
      }
    } else if |first + second| > room {
      assert (first + second)[..room] == first + second[..room - |first|];
    }
  }

  // ------------------------------------------------------------------ the log

  datatype Log = Log(pending: seq<Char>, file: seq<Char>, total: nat)

  datatype LogEvent =
    | Arrive(chars: seq<Char>)  // characters drained from the dataport
    | Write(ok: bool)           // write_pending_mmc_log, and whether fatwrite succeeded

  /** fatwrite at an offset the file reaches: bytes beyond the file's end extend it. */
  function FatWrite(file: seq<Char>, offset: nat, bytes: seq<Char>): seq<Char>
    requires offset <= |file|
  {
    file[..offset] + bytes + if offset + |bytes| <= |file| then file[offset + |bytes|..] else []
  }

  /** The file's length is the count of bytes written, which is also the next offset. */
  predicate LogOk(l: Log) {
    |l.pending| <= TX_BUF_LEN && |l.file| == l.total < UINT_RANGE
  }

  function LogStep(l: Log, e: LogEvent): Log
    requires |l.pending| <= TX_BUF_LEN && l.total <= |l.file|
  {
    match e
    case Arrive(chars) => l.(pending := Fill(l.pending, chars))
    case Write(ok) =>
      if ok then
        Log([], FatWrite(l.file, l.total, l.pending), (l.total + |l.pending|) % UINT_RANGE)
      else l
  }

  /** The characters of an event that reach the log rather than a full buffer. */
  function Admitted(l: Log, e: LogEvent): (a: seq<Char>)
    requires |l.pending| <= TX_BUF_LEN
  {
    match e
    case Arrive(chars) => Fill(l.pending, chars)[|l.pending|..]
    case Write(_) => []
  }

  /** The written count is an unsigned int: it names the file's end until it wraps. */
  lemma WriteKeepsLogOkIff(l: Log)
    requires LogOk(l)
    ensures LogOk(LogStep(l, Write(true))) <==> l.total + |l.pending| < UINT_RANGE
  {
  }

  /**
   A successful write appends all that is pending to the file and leaves nothing pending; a
   failed one changes nothing.  Arrivals touch the pending characters only, and are cut short
   only by a full buffer.
   */
  lemma LogStepMeans(l: Log, chars: seq<Char>)
    requires LogOk(l) && l.total + |l.pending| < UINT_RANGE
    ensures LogStep(l, Write(true)) == Log([], l.file + l.pending, |l.file + l.pending|)
    ensures LogStep(l, Write(false)) == l
    ensures var m := LogStep(l, Arrive(chars));
      && m.file == l.file && m.total == l.total && l.pending <= m.pending <= l.pending + chars
      && (m.pending == l.pending + chars || |m.pending| == 4096)
  {
    assert l.file[..l.total] == l.file;
    assert l.file + l.pending + [] == l.file + l.pending;
    assert l.pending == [] ==> l.file[l.total..] == [];
  }

  /** A write moves the pending characters to the end of the file; a failed one moves none. */
  lemma LogStepAppends(l: Log, e: LogEvent)
    requires LogOk(l)
    ensures var m := LogStep(l, e);
      m.file + m.pending == l.file + l.pending + Admitted(l, e)
  {
    match e
    case Arrive(chars) =>
      var p := Fill(l.pending, chars);
      assert p == l.pending + p[|l.pending|..];
      Assoc(l.file, l.pending, p[|l.pending|..]);
    case Write(ok) =>
      if ok {
        assert l.file[..l.total] == l.file;
        assert l.pending == [] ==> l.file[l.total..] == [];
      }
  }

  ghost predicate FitsRun(l: Log, es: seq<LogEvent>)
    requires LogOk(l)
    decreases |es|
  {
    es == [] ||
    (|l.file| + |l.pending| < UINT_RANGE && FitsRun(LogStep(l, es[0]), es[1..]))
  }

  ghost function LogRun(l: Log, es: seq<LogEvent>): Log
    requires LogOk(l) && FitsRun(l, es)
    decreases |es|
  {
    if es == [] then l else LogRun(LogStep(l, es[0]), es[1..])
  }

  ghost function AllAdmitted(l: Log, es: seq<LogEvent>): seq<Char>
    requires LogOk(l) && FitsRun(l, es)
    decreases |es|
  {
    if es == [] then [] else Admitted(l, es[0]) + AllAdmitted(LogStep(l, es[0]), es[1..])
  }

  /**
   The log over every run shorter than 2^32 bytes: the file, then what is still pending, are
   the characters admitted, in order; a failed write neither duplicates nor skips any.
   */
  lemma {:induction false} LogRunAppends(l: Log, es: seq<LogEvent>)
    requires LogOk(l) && FitsRun(l, es)
    ensures var m := LogRun(l, es);
      && LogOk(m)
      && m.file + m.pending == l.file + l.pending + AllAdmitted(l, es)
    decreases |es|
  {
    if es == [] {
      assert l.file + l.pending + [] == l.file + l.pending;
    } else {
      var m := LogStep(l, es[0]);
      LogStepAppends(l, es[0]);
      LogRunAppends(m, es[1..]);
      Assoc(l.file + l.pending, Admitted(l, es[0]), AllAdmitted(m, es[1..]));
    }
  }

  /** Characters are discarded only when they find 4096 pending. */
  lemma DiscardedOnlyWhenFull(l: Log, chars: seq<Char>, k: nat)
    requires |l.pending| <= TX_BUF_LEN && k < |chars|
    ensures |Admitted(l, Arrive(chars))| <= k <==> |Fill(l.pending, chars[..k])| == TX_BUF_LEN
    ensures k < |Admitted(l, Arrive(chars))| ==> Admitted(l, Arrive(chars))[k] == chars[k]
  {
  }

  class Sender {
    var ethPendingTxBuf: array<Char>
    var ethPendingLength: nat
    var mmcPendingTxBuf: array<Char>
    var mmcPendingLength: nat
    var totalBytesWritten: nat
    ghost var eth: seq<Char>
    ghost var log: Log  // the log file is on the storage device

    ghost predicate Valid()
      reads this, ethPendingTxBuf, mmcPendingTxBuf
    {
      && ethPendingTxBuf.Length == mmcPendingTxBuf.Length == TX_BUF_LEN
      && ethPendingTxBuf != mmcPendingTxBuf
      && ethPendingLength <= TX_BUF_LEN && mmcPendingLength <= TX_BUF_LEN
      && eth == ethPendingTxBuf[..ethPendingLength]
      && log.pending == mmcPendingTxBuf[..mmcPendingLength]
      && log.total == totalBytesWritten
    }

    /** The globals at start-up, with the log file just deleted. */
    constructor ()
      ensures Valid() && eth == [] && log == Log([], [], 0) && LogOk(log)
      ensures fresh(ethPendingTxBuf) && fresh(mmcPendingTxBuf)
    {
      ethPendingTxBuf := new Char[TX_BUF_LEN](_ => 0);
      mmcPendingTxBuf := new Char[TX_BUF_LEN](_ => 0);
      ethPendingLength, mmcPendingLength, totalBytesWritten := 0, 0, 0;
      eth, log := [], Log([], [], 0);
    }

    /** One drained character goes into each buffer that has room. */
    method Store(c: Char)
      requires Valid()
      modifies this`ethPendingLength, this`mmcPendingLength, this`eth, this`log
      modifies ethPendingTxBuf, mmcPendingTxBuf
      ensures Valid()
      ensures eth == if |old(eth)| < TX_BUF_LEN then old(eth) + [c] else old(eth)
      ensures log == old(log).(pending :=
        if |old(log).pending| < TX_BUF_LEN then old(log).pending + [c] else old(log).pending)
    {
      if ethPendingLength < TX_BUF_LEN {
        ethPendingTxBuf[ethPendingLength] := c;
        ethPendingLength := ethPendingLength + 1;
        eth := eth + [c];
      }
      if mmcPendingLength < TX_BUF_LEN {
        mmcPendingTxBuf[mmcPendingLength] := c;
        mmcPendingLength := mmcPendingLength + 1;
        log := log.(pending := log.pending + [c]);
      }
    }

    /** receive_data_from_crypto_component, inside its critical section. */
    method ReceiveData(port: Dataport)
      requires Valid() && port.Valid()
      requires port.data != ethPendingTxBuf && port.data != mmcPendingTxBuf
      modifies this`ethPendingLength, this`mmcPendingLength, this`eth, this`log
      modifies ethPendingTxBuf, mmcPendingTxBuf, port`tail, port`queue
      ensures Valid() && port.Valid() && port.queue == []
      ensures eth == Fill(old(eth), old(port.queue))
      ensures log == old(log).(pending := Fill(old(log).pending, old(port.queue)))
    {
      ghost var arrivals, done := port.queue, [];
      while port.head != port.tail
        invariant Valid() && port.Valid()
        invariant done + port.queue == arrivals
        invariant eth == Fill(old(eth), done)
        invariant log == old(log).(pending := Fill(old(log).pending, done))
        decreases |port.queue|
      {
        ghost var queue := port.queue;
        var c := port.Next();
        Store(c);
        FillOne(old(eth), done, c);
        FillOne(old(log).pending, done, c);
        Assoc(done, [c], port.queue);
        done := done + [c];
      }
      assert done + [] == done;
    }

    /** write_pending_mmc_log, given whether the U-Boot command succeeds. */
    method WritePendingMmcLog(ok: bool)
      requires Valid() && LogOk(log)
      modifies this`mmcPendingLength, this`totalBytesWritten, this`log, mmcPendingTxBuf
      ensures Valid()
      ensures log == LogStep(old(log), Write(ok))
    {
      if ok {
        totalBytesWritten := (totalBytesWritten + mmcPendingLength) % UINT_RANGE;
        log := LogStep(log, Write(true));
        var i := 0;
        while i < mmcPendingLength
          invariant i <= mmcPendingLength == old(mmcPendingLength)
          invariant eth == ethPendingTxBuf[..ethPendingLength]
          invariant log == LogStep(old(log), Write(true)) && totalBytesWritten == log.total
        {
          mmcPendingTxBuf[i] := 0;
          i := i + 1;
        }
        mmcPendingLength := 0;
      }
    }
  }
}
