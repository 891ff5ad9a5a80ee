/**
 The test the device-tree printer uses to decide that a property holds strings: the data is a
 non-empty run of NUL-terminated, non-empty strings of printable characters.
 */
module PrintableString {
  import opened Bytes

  type Data = seq<byte>

  /** isprint in the C locale. */
  predicate IsPrint(b: byte) {
    0x20 <= b <= 0x7e
  }

  /** One string of a list. */
  predicate IsWord(w: Data) {
    w != [] && forall i :: 0 <= i < |w| ==> IsPrint(w[i])
  }

  function Joined(words: seq<Data>): Data {
    if words == [] then [] else words[0] + [0] + Joined(words[1..])
  }

  predicate AllWords(words: seq<Data>) {
    forall i :: 0 <= i < |words| ==> IsWord(words[i])
  }

  ghost predicate IsStringList(data: Data) {
    exists words :: words != [] && AllWords(words) && Joined(words) == data
  }

  /** The end of the printable run that starts at `i`. */
  function RunEnd(data: Data, i: nat): (j: nat)
    requires i <= |data|
    ensures i <= j <= |data|
    ensures forall k :: i <= k < j ==> IsPrint(data[k])
    ensures j < |data| ==> !IsPrint(data[j])
    decreases |data| - i
  {
    if i == |data| || !IsPrint(data[i]) then i else RunEnd(data, i + 1)
  }

  /** Reading words from `i` to the end. */
  predicate Words(data: Data, i: nat)
    requires i <= |data|
    decreases |data| - i
  {
    i == |data| ||
    var j := RunEnd(data, i);
    i < j < |data| && data[j] == 0 && Words(data, j + 1)
  }

  /** A successful reading yields the words. */
  lemma {:induction false} WordsFound(data: Data, i: nat) returns (words: seq<Data>)
    requires i <= |data| && Words(data, i)
    ensures AllWords(words) && Joined(words) == data[i..]
    ensures i < |data| ==> words != []
    decreases |data| - i
  {
    if i == |data| {
      words := [];
    } else {
      var j := RunEnd(data, i);
      var rest := WordsFound(data, j + 1);
      words := [data[i..j]] + rest;
      assert words[1..] == rest;
      assert data[i..] == data[i..j] + [data[j]] + data[j + 1..];
    }
  }

  lemma RunEndAt(data: Data, i: nat, j: nat)
    requires i <= j < |data| && !IsPrint(data[j])
    requires forall k :: i <= k < j ==> IsPrint(data[k])
    ensures RunEnd(data, i) == j
  {
  }

  /** Every list of words is read successfully. */
  lemma {:induction false} WordsRead(data: Data, i: nat, words: seq<Data>)
    requires i <= |data| && AllWords(words) && Joined(words) == data[i..]
    ensures Words(data, i)
    decreases |words|
  {
    if words != [] {
      assert Joined(words) == words[0] + ([0] + Joined(words[1..]));
      FirstWordLies(data, i, words[0], Joined(words[1..]));
      WordsRead(data, i + |words[0]| + 1, words[1..]);
    }
  }

  lemma FirstWordLies(data: Data, i: nat, w: Data, rest: Data)
    requires i <= |data| && IsWord(w) && data[i..] == w + ([0] + rest)
    ensures var j := i + |w|;
      i < j < |data| && RunEnd(data, i) == j && data[j] == 0 && data[j + 1..] == rest
  {
    var j := i + |w|;
    assert |data[i..]| == |w| + 1 + |rest|;
    assert data[j] == data[i..][|w|] == 0;
    assert forall k :: i <= k < j ==> data[k] == data[i..][k - i] == w[k - i];
    RunEndAt(data, i, j);
    assert data[j + 1..] == data[i..][|w| + 1..];
  }

  /** What the nested loops compute is exactly the property they stand for. */
  lemma WordsIffStringList(data: Data)
    ensures data != [] && Words(data, 0) <==> IsStringList(data)
    ensures IsStringList(data) ==> data[|data| - 1] == 0
  {
    if data != [] && Words(data, 0) {
      WordsMakeList(data);
    }
    if IsStringList(data) {
      ListMakesWords(data);
    }
  }

  lemma WordsMakeList(data: Data)
    requires data != [] && Words(data, 0)
    ensures IsStringList(data)
  {
    var words := WordsFound(data, 0);
    assert data[0..] == data;
    assert words != [] && AllWords(words) && Joined(words) == data;
  }

  lemma ListMakesWords(data: Data)
    requires IsStringList(data)
    ensures data != [] && Words(data, 0) && data[|data| - 1] == 0
  {
    var words :| words != [] && AllWords(words) && Joined(words) == data;
    assert data[0..] == data;
    WordsRead(data, 0, words);
    JoinedEndsInNul(words);
  }

  lemma {:induction false} JoinedEndsInNul(words: seq<Data>)
    requires words != []
    ensures Joined(words) != [] && Joined(words)[|Joined(words)| - 1] == 0
  {
    if |words| > 1 {
      JoinedEndsInNul(words[1..]);
    } else {
      assert Joined(words[1..]) == [];
    }
  }

  /** util_is_printable_string, never reading outside the data. */
  method UtilIsPrintableString(data: Data) returns (printable: bool)
    ensures printable <==> IsStringList(data)
  {
    WordsIffStringList(data);
    if |data| == 0 {
      return false;
    }
    if data[|data| - 1] != 0 {
      return false;
    }
    var s: nat := 0;
    while s < |data|
      invariant s <= |data|
      invariant Words(data, 0) == Words(data, s)
    {
      var ss := s;
      while s < |data| && data[s] != 0 && IsPrint(data[s])
        invariant ss <= s < |data|
        invariant RunEnd(data, ss) == RunEnd(data, s)
      {
        s := s + 1;
      }
      if data[s] != 0 || s == ss {
        return false;
      }
      s := s + 1;
    }
    return true;
  }

  /** The printable bytes are those from the space to the tilde; no string is empty. */
  lemma PrintableBytes(b: byte)
    ensures IsStringList([b, 0]) <==> 0x20 <= b <= 0x7e
    ensures !IsStringList([0]) && !IsStringList([b])
  {
    var data := [b, 0];
    WordsIffStringList(data);
    WordsIffStringList([0]);
    WordsIffStringList([b]);
    if IsPrint(b) {
      RunEndAt(data, 0, 1);
      assert Words(data, 2);
    } else {
      RunEndAt(data, 0, 0);
    }
    RunEndAt([0], 0, 0);
  }
}
