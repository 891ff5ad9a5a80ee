/**
 Facts about what flows through a queue over several steps, shared by every model in this
 project that proves "what came out, followed by what is still inside, is what went in".
 */
module Streams {

  lemma Assoc<T>(a: seq<T>, b: seq<T>, c: seq<T>)
    ensures a + (b + c) == (a + b) + c
  {
  }

  /** Two consecutive first-in-first-out stretches make one. */
  lemma FifoCompose<T>(q0: seq<T>, in1: seq<T>, out1: seq<T>, q1: seq<T>,
                       in2: seq<T>, out2: seq<T>, q2: seq<T>)
    requires out1 + q1 == q0 + in1
    requires out2 + q2 == q1 + in2
    ensures (out1 + out2) + q2 == q0 + (in1 + in2)
  {
    assert (out1 + out2) + q2 == out1 + (out2 + q2);
    assert out1 + (q1 + in2) == (out1 + q1) + in2;
    assert (q0 + in1) + in2 == q0 + (in1 + in2);
  }

  /** A stream whose account balances still balances after one more exchange. */
  lemma FlowOn<T>(r: seq<T>, s: seq<T>, p: seq<T>, received: seq<T>, sent: seq<T>, p': seq<T>)
    requires r == s + p
    requires p + received == sent + p'
    ensures r + received == (s + sent) + p'
  {
    assert (s + p) + received == s + (p + received);
    assert s + (sent + p') == (s + sent) + p';
  }

  /** A script of answers, past the first one. */
  function Rest<T>(script: seq<T>): (r: seq<T>)
    ensures script != [] ==> |r| < |script|
  {
    if script == [] then [] else script[1..]
  }
}
