/**
 Conservation of a fixed stock of numbered buffers.  A stock is shared out between several
 holders; the holders' multisets always add up to `AllIds(n)`, in which every identifier
 below `n` occurs once and nothing else occurs.  Being held by exactly one holder, and the
 bound on every holder's size, both follow from that sum.
 */
module Ownership {

  predicate InStock(i: nat, n: nat) {
    i < n
  }

  ghost function Below(n: nat): set<nat> {
    set i: nat | i < n && InStock(i, n)
  }

  /** The identifiers 0 .. n-1, once each. */
  ghost function AllIds(n: nat): multiset<nat> {
    multiset(Below(n))
  }

  lemma {:induction false} AllIdsSize(n: nat)
    ensures |AllIds(n)| == |Below(n)| == n
  {
    if n > 0 {
      AllIdsSize(n - 1);
      assert Below(n) == Below(n - 1) + {n - 1};
    }
  }

  lemma AllIdsOnce(n: nat, i: nat)
    ensures AllIds(n)[i] == if i < n then 1 else 0
  {
    assert i in Below(n) <==> i < n;
  }

  lemma AllIdsNext(n: nat)
    ensures AllIds(n + 1) == AllIds(n) + multiset{n}
  {
    assert Below(n + 1) == Below(n) + {n};
  }

  /** A pool holding 0 .. n-1 in its first n slots, as the set-up loops leave it. */
  lemma {:induction false} FilledInOrder(s: seq<nat>)
    requires forall i :: 0 <= i < |s| ==> s[i] == i
    ensures multiset(s) == AllIds(|s|)
  {
    if s != [] {
      var n := |s| - 1;
      FilledInOrder(s[..n]);
      assert s == s[..n] + [n];
      AllIdsNext(n);
    }
  }

  /** Splitting a sequence splits its multiset. */
  lemma MultisetSplit<T>(s: seq<T>, k: nat)
    requires k <= |s|
    ensures multiset(s) == multiset(s[..k]) + multiset(s[k..])
  {
    assert s == s[..k] + s[k..];
  }

  /** Moving some of one holder's stock to the end of another's list changes no total. */
  lemma MoveKeepsSum<T>(others: multiset<T>, to: seq<T>, from: multiset<T>, moved: seq<T>)
    requires multiset(moved) <= from
    ensures multiset(to + moved) == multiset(to) + multiset(moved)
    ensures others + multiset(to + moved) + (from - multiset(moved)) == others + multiset(to) + from
    ensures multiset(to + moved) + others + (from - multiset(moved)) == multiset(to) + others + from
  {
    assert (from - multiset(moved)) + multiset(moved) == from;
  }
}
