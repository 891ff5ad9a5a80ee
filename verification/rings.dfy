/**
 Cyclic queues held in a fixed ring of slots, with one slot always left unused.
 The head is the next slot to write, the tail the oldest slot; both wrap at the ring's
 length.  The ethernet drivers (510 and 128 slots) and the dataport buffer (256 slots)
 all use this scheme, so the lemmas that read a ring as a sequence are stated once here.
 */
module Rings {

  /** The slot that follows `i`, wrapping at the end of a ring of `n` slots. */
  function Next(i: nat, n: nat): (r: nat)
    requires i < n
    ensures r < n
  {
    if i + 1 == n then 0 else i + 1
  }

  /** The queued elements, oldest first. */
  ghost function Contents<T>(ring: seq<T>, tail: nat, head: nat): (q: seq<T>)
    requires tail < |ring| && head < |ring|
    ensures |q| < |ring|
    ensures q == [] <==> head == tail
  {
    if tail <= head then ring[tail..head] else ring[tail..] + ring[..head]
  }

  /** The wrapped-head test used by the sources says exactly that one slot is left. */
  lemma FullIffOneSlotLeft<T>(ring: seq<T>, tail: nat, head: nat)
    requires tail < |ring| && head < |ring|
    ensures Next(head, |ring|) == tail <==> |Contents(ring, tail, head)| == |ring| - 1
  {
    if tail <= head {
      assert |ring[tail..head]| == head - tail;
    } else {
      assert |ring[tail..] + ring[..head]| == |ring| - tail + head;
    }
  }

  /** Writing at the head and advancing it appends one element. */
  lemma PushAppends<T>(ring: seq<T>, tail: nat, head: nat, x: T)
    requires tail < |ring| && head < |ring|
    requires Next(head, |ring|) != tail
    ensures Contents(ring[head := x], tail, Next(head, |ring|)) == Contents(ring, tail, head) + [x]
  {
    var r := ring[head := x];
    if tail <= head {
      if head + 1 == |ring| {
        assert r[tail..] == ring[tail..head] + [x];
      } else {
        assert r[tail..head + 1] == ring[tail..head] + [x];
      }
    } else {
      assert r[tail..] == ring[tail..];
      assert r[..head + 1] == ring[..head] + [x];
    }
  }

  /** Advancing the tail of a non-empty ring removes the oldest element and no other. */
  lemma PopRemovesOldest<T>(ring: seq<T>, tail: nat, head: nat)
    requires tail < |ring| && head < |ring|
    requires head != tail
    ensures Contents(ring, tail, head) == [ring[tail]] + Contents(ring, Next(tail, |ring|), head)
  {
    if tail < head {
      assert ring[tail..head] == [ring[tail]] + ring[tail + 1..head];
    } else {
      assert ring[tail..] == [ring[tail]] + ring[tail + 1..];
      if tail + 1 == |ring| {
        assert ring[tail..] == [ring[tail]];
        assert Contents(ring, 0, head) == ring[..head];
      } else {
        assert [ring[tail]] + ring[tail + 1..] + ring[..head] == [ring[tail]] + (ring[tail + 1..] + ring[..head]);
      }
    }
  }
}
