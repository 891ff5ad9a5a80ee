/**
 dump_blob's walk over the structure block, with a cursor that is an address, as in the
 source: `base` is where the blob lies in memory.  Everything is read from the blob's bytes;
 the token list it was encoded from appears only in the specification.
 */
module FdtWalk {
  import opened FdtFormat
  import opened FdtVisits
  import opened PrintableString
  import opened Streams

  /** PALIGN(p, 4), for the position whose address is base + p. */
  function PAlign(base: nat, p: nat): (q: nat)
    requires base % 4 == 0
    ensures q == Align4(p)
  {
    AlignShift(base, p);
    Align4(base + p) - base
  }

  lemma LiesAtSplit(blob: FdtFormat.Data, p: nat, a: FdtFormat.Data, b: FdtFormat.Data)
    requires LiesAt(blob, p, a + b)
    ensures LiesAt(blob, p, a) && LiesAt(blob, p + |a|, b)
  {
    var whole := blob[p..p + |a + b|];
    assert blob[p..p + |a|] == whole[..|a|] == a;
    assert blob[p + |a|..p + |a| + |b|] == whole[|a|..] == b;
  }

  lemma CellLies(blob: FdtFormat.Data, p: nat, v: Cell)
    requires LiesAt(blob, p, BigEndian(v))
    ensures p + 4 <= |blob| && CellAt(blob, p) == v
  {
    CellRoundTrip(v);
    var cell := blob[p..p + 4];
    assert cell == BigEndian(v);
    assert cell[0] == blob[p] && cell[1] == blob[p + 1] && cell[2] == blob[p + 2] && cell[3] == blob[p + 3];
  }

  lemma PrefixLies(blob: FdtFormat.Data, p: nat, a: FdtFormat.Data, whole: FdtFormat.Data)
    requires LiesAt(blob, p, whole) && a <= whole
    ensures LiesAt(blob, p, a)
  {
    assert whole == a + whole[|a|..];
    LiesAtSplit(blob, p, a, whole[|a|..]);
  }

  lemma BlockUnfolds(ts: seq<Token>, stop: Cell)
    requires ts != []
    ensures Block(ts, stop) == Encode(ts[0]) + Block(ts[1..], stop)
  {
    Assoc(Encode(ts[0]), EncodeAll(ts[1..]), BigEndian(stop));
  }

  /** The first token of a block, and the block that follows it. */
  lemma BlockSplit(blob: FdtFormat.Data, p: nat, ts: seq<Token>, stop: Cell)
    requires ts != [] && LiesAt(blob, p, Block(ts, stop))
    ensures LiesAt(blob, p, Encode(ts[0]))
    ensures LiesAt(blob, p + |Encode(ts[0])|, Block(ts[1..], stop))
    ensures |Block(ts, stop)| == |Encode(ts[0])| + |Block(ts[1..], stop)|
  {
    BlockUnfolds(ts, stop);
    LiesAtSplit(blob, p, Encode(ts[0]), Block(ts[1..], stop));
  }

  /** strlen */
  method Strlen(blob: FdtFormat.Data, s: nat, ghost name: FdtFormat.Data) returns (n: nat)
    requires NulFree(name) && LiesAt(blob, s, name + [0])
    ensures n == |name| && s + n + 1 <= |blob| && blob[s..s + n] == name
  {
    ghost var whole := blob[s..s + |name + [0]|];
    assert forall i :: 0 <= i <= |name| ==> blob[s + i] == whole[i] == (name + [0])[i];
    n := 0;
    while blob[s + n] != 0
      invariant n <= |name|
      decreases |name| - n
    {
      n := n + 1;
    }
    assert blob[s..s + n] == whole[..n];
  }

  /** print_data's choice of form. */
  method ChooseForm(data: FdtFormat.Data) returns (form: Form)
    ensures form.Empty? <==> |data| == 0
    ensures form.AsString? <==> IsStringList(data)
    ensures form.AsCells? <==> |data| > 0 && !IsStringList(data) && |data| % 4 == 0
    ensures form.AsBytes? <==> !IsStringList(data) && |data| % 4 != 0
  {
    if |data| == 0 {
      return Empty;
    }
    var printable := UtilIsPrintableString(data);
    if printable {
      return AsString;
    } else if |data| % 4 == 0 {
      return AsCells;
    } else {
      return AsBytes;
    }
  }

  /** The operand of a begin token: the name, and the position after its padding. */
  method ReadName(blob: FdtFormat.Data, base: nat, start: nat, ghost name: FdtFormat.Data)
    returns (shown: FdtFormat.Data, p: nat)
    requires base % 4 == 0 && start % 4 == 0
    requires NulFree(name) && LiesAt(blob, start, Padded(name + [0]))
    ensures name != [] ==> shown == name
    ensures name == [] ==> shown == [0x2f]
    ensures p == start + |Padded(name + [0])|
  {
    PrefixLies(blob, start, name + [0], Padded(name + [0]));
    var n := Strlen(blob, start, name);
    p := PAlign(base, start + n + 1);
    AlignShift(start, n + 1);
    shown := if n == 0 then [0x2f] else blob[start..start + n];
  }

  function TagOf(t: Token): Cell {
    match t
    case BeginNode(_) => FDT_BEGIN_NODE
    case EndNode => FDT_END_NODE
    case Property(_, _, _) => FDT_PROP
    case Nop => FDT_NOP
  }

  function Operands(t: Token): FdtFormat.Data {
    match t
    case BeginNode(name) => Padded(name + [0])
    case Property(_, offset, value) => BigEndian(|value|) + (BigEndian(offset) + Padded(value))
    case _ => []
  }

  /** Where the length, the name offset and the value of a property lie. */
  lemma PropertyLies(blob: FdtFormat.Data, start: nat, t: Token)
    requires t.Property? && |t.value| < 0x8000_0000 && t.nameOffset < 0x1_0000_0000
    requires LiesAt(blob, start, Operands(t))
    ensures start + 8 <= |blob| && CellAt(blob, start) == |t.value| && CellAt(blob, start + 4) == t.nameOffset
    ensures LiesAt(blob, start + 8, t.value)
  {
    var rest := BigEndian(t.nameOffset) + Padded(t.value);
    LiesAtSplit(blob, start, BigEndian(|t.value|), rest);
    LiesAtSplit(blob, start + 4, BigEndian(t.nameOffset), Padded(t.value));
    CellLies(blob, start, |t.value|);
    CellLies(blob, start + 4, t.nameOffset);
    PrefixLies(blob, start + 8, t.value, Padded(t.value));
  }

  /** The operands of a property token. */
  method ReadProperty(blob: FdtFormat.Data, base: nat, strings: nat, start: nat, depth: int, ghost t: Token)
    returns (visit: Visit, p: nat)
    requires base % 4 == 0 && start % 4 == 0 && t.Property? && TokenOk(t, blob, strings)
    requires LiesAt(blob, start, Operands(t))
    ensures visit == VisitOf(t, depth) && p == start + |Operands(t)|
  {
    PropertyLies(blob, start, t);
    var sz := CellAt(blob, start);
    var s := strings + CellAt(blob, start + 4);
    var n := Strlen(blob, s, t.name);
    var data := blob[start + 8..start + 8 + sz];
    p := PAlign(base, start + 8 + sz);
    AlignShift(start + 8, sz);
    var form := ChooseForm(data);
    visit := Value(depth, blob[s..s + n], data, form);
  }

  /** The cursor stands before the block of `rest`, which ends at `end`. */
  ghost predicate AtBlock(blob: FdtFormat.Data, strings: nat, stop: Cell, end: nat, p: nat, rest: seq<Token>) {
    && p % 4 == 0 && TokensOk(rest, blob, strings)
    && LiesAt(blob, p, Block(rest, stop)) && p + |Block(rest, stop)| == end
  }

  /** `visits` is what the tokens of `ts` before `rest` give, and `depth` where they lead. */
  ghost predicate Reported(ts: seq<Token>, visits: seq<Visit>, depth: int, rest: seq<Token>) {
    && Visits(ts, 0) == visits + Visits(rest, depth)
    && FinalDepth(ts, 0) == FinalDepth(rest, depth)
  }

  /** A token, as the format encodes it, lies at an aligned position. */
  ghost predicate TokenAt(blob: FdtFormat.Data, strings: nat, p: nat, t: Token) {
    p % 4 == 0 && TokenOk(t, blob, strings) && LiesAt(blob, p, Encode(t))
  }

  lemma TailOk(rest: seq<Token>, blob: FdtFormat.Data, strings: nat)
    requires rest != [] && TokensOk(rest, blob, strings)
    ensures TokenOk(rest[0], blob, strings) && TokensOk(rest[1..], blob, strings)
  {
  }

  lemma FirstTokenLies(blob: FdtFormat.Data, strings: nat, stop: Cell, end: nat, p: nat, rest: seq<Token>)
    requires rest != [] && AtBlock(blob, strings, stop, end, p, rest)
    ensures TokenAt(blob, strings, p, rest[0])
  {
    BlockSplit(blob, p, rest, stop);
    TailOk(rest, blob, strings);
  }

  /** Behind the first token, at `q`, lies the block of the others. */
  lemma PastToken(blob: FdtFormat.Data, strings: nat, stop: Cell, end: nat, p: nat, rest: seq<Token>, q: nat)
    requires rest != [] && AtBlock(blob, strings, stop, end, p, rest) && q == p + |Encode(rest[0])|
    ensures AtBlock(blob, strings, stop, end, q, rest[1..])
  {
    BlockSplit(blob, p, rest, stop);
    EncodeAligned(rest[0]);
    SumAligned(p, |Encode(rest[0])|);
    TailOk(rest, blob, strings);
  }

  lemma ReportOne(ts: seq<Token>, visits: seq<Visit>, depth: int, rest: seq<Token>)
    requires rest != [] && Reported(ts, visits, depth, rest)
    ensures Reported(ts, visits + [VisitOf(rest[0], depth)], Deeper(rest[0], depth), rest[1..])
  {
    Assoc(visits, [VisitOf(rest[0], depth)], Visits(rest[1..], Deeper(rest[0], depth)));
  }

  /** One pass of the walk, for the token `t` whose encoding starts at `start`. */
  method ReadToken(blob: FdtFormat.Data, base: nat, strings: nat, start: nat, depth: int, ghost t: Token)
    returns (visit: Visit, p: nat, deeper: int)
    requires base % 4 == 0 && TokenAt(blob, strings, start, t)
    ensures visit == VisitOf(t, depth) && start + 4 <= p == start + |Encode(t)| && deeper == Deeper(t, depth)
  {
    TagLies(blob, start, t);
    var tag := CellAt(blob, start);
    p, deeper := start + 4, depth;
    if tag == FDT_BEGIN_NODE {
      var shown;
      shown, p := ReadName(blob, base, p, t.name);
      visit := Open(depth, shown);
      deeper := depth + 1;
    } else if tag == FDT_END_NODE {
      deeper := depth - 1;
      visit := Close(deeper);
    } else if tag == FDT_NOP {
      visit := Skip(depth);
    } else {
      visit, p := ReadProperty(blob, base, strings, p, depth, t);
    }
  }

  lemma TagLies(blob: FdtFormat.Data, p: nat, t: Token)
    requires LiesAt(blob, p, Encode(t))
    ensures p + 4 <= |blob| && CellAt(blob, p) == TagOf(t)
    ensures LiesAt(blob, p + 4, Operands(t)) && |Encode(t)| == 4 + |Operands(t)|
  {
    assert Encode(t) == BigEndian(TagOf(t)) + Operands(t);
    LiesAtSplit(blob, p, BigEndian(TagOf(t)), Operands(t));
    CellLies(blob, p, TagOf(t));
  }

  /** The first token before the cursor, read from the block. */
  method ReadFirst(blob: FdtFormat.Data, base: nat, strings: nat, start: nat, depth: int,
                   ghost rest: seq<Token>, ghost stop: Cell, ghost end: nat)
    returns (visit: Visit, p: nat, deeper: int)
    requires base % 4 == 0 && rest != [] && AtBlock(blob, strings, stop, end, start, rest)
    ensures visit == VisitOf(rest[0], depth) && deeper == Deeper(rest[0], depth)
    ensures start + 4 <= p && AtBlock(blob, strings, stop, end, p, rest[1..])
  {
    FirstTokenLies(blob, strings, stop, end, start, rest);
    visit, p, deeper := ReadToken(blob, base, strings, start, depth, rest[0]);
    PastToken(blob, strings, stop, end, start, rest, p);
  }

  /** One pass of the walk over the tokens still before the cursor. */
  method Pass(blob: FdtFormat.Data, base: nat, strings: nat, before: seq<Visit>, start: nat, above: int,
              ghost ts: seq<Token>, ghost rest: seq<Token>, ghost stop: Cell, ghost end: nat)
    returns (visits: seq<Visit>, p: nat, depth: int, ghost left: seq<Token>)
    requires base % 4 == 0 && rest != []
    requires AtBlock(blob, strings, stop, end, start, rest) && Reported(ts, before, above, rest)
    ensures AtBlock(blob, strings, stop, end, p, left) && Reported(ts, visits, depth, left)
    ensures left == rest[1..] && start + 4 <= p
  {
    ReportOne(ts, before, above, rest);
    var visit;
    visit, p, depth := ReadFirst(blob, base, strings, start, above, rest, stop, end);
    visits, left := before + [visit], rest[1..];
  }

  /** The tag before the cursor tells whether the walk is over, and what is then reported. */
  lemma StopOrToken(blob: FdtFormat.Data, strings: nat, ts: seq<Token>, stop: Cell, end: nat,
                    visits: seq<Visit>, depth: int, p: nat, rest: seq<Token>)
    requires AtBlock(blob, strings, stop, end, p, rest) && Reported(ts, visits, depth, rest)
    ensures p + 4 <= end <= |blob|
    ensures CellAt(blob, p) == if rest == [] then stop else TagOf(rest[0])
    ensures rest != [] ==> CellAt(blob, p) in {FDT_BEGIN_NODE, FDT_END_NODE, FDT_PROP, FDT_NOP}
    ensures rest == [] ==> p + 4 == end && visits == Visits(ts, 0) && depth == FinalDepth(ts, 0)
  {
    if rest == [] {
      assert Block(rest, stop) == BigEndian(stop);
      CellLies(blob, p, stop);
      assert visits + [] == visits;
    } else {
      BlockSplit(blob, p, rest, stop);
      TagLies(blob, p, rest[0]);
    }
  }

  /**
   The walk.  For a blob that holds the block of `ts`, ended by FDT_END or by a tag that is
   none of the format's, it reports exactly those tokens and stops right after the block.
   */
  method DumpStructure(blob: FdtFormat.Data, base: nat, structure: nat, strings: nat,
                       ghost ts: seq<Token>, ghost stop: Cell)
    returns (visits: seq<Visit>, depth: int, unknown: bool, p: nat)
    requires base % 4 == 0 && structure % 4 == 0
    requires TokensOk(ts, blob, strings)
    requires LiesAt(blob, structure, Block(ts, stop))
    requires stop !in {FDT_BEGIN_NODE, FDT_END_NODE, FDT_PROP, FDT_NOP}
    ensures visits == Visits(ts, 0) && depth == FinalDepth(ts, 0)
    ensures unknown <==> stop != FDT_END
    ensures p == structure + |Block(ts, stop)| <= |blob|
  {
    ghost var end := structure + |Block(ts, stop)|;
    ghost var rest := ts;
    visits, depth, unknown, p := [], 0, false, structure;
    while true
      invariant !unknown
      invariant AtBlock(blob, strings, stop, end, p, rest) && Reported(ts, visits, depth, rest)
      decreases end - p
    {
      StopOrToken(blob, strings, ts, stop, end, visits, depth, p, rest);
      var tag := CellAt(blob, p);
      if tag == FDT_END {
        p := p + 4;
        break;
      }
      if tag != FDT_BEGIN_NODE && tag != FDT_END_NODE && tag != FDT_NOP && tag != FDT_PROP {
        unknown, p := true, p + 4;
        break;
      }
      visits, p, depth, rest := Pass(blob, base, strings, visits, p, depth, ts, rest, stop, end);
    }
  }

  // Where the header keeps the offsets of the structure and strings blocks.
  const OFF_DT_STRUCT := 8
  const OFF_DT_STRINGS := 12
  const HEADER_SIZE := 40

  /**
   Walking a blob that holds a tree, with NOPs anywhere, reports that tree, and ends at
   FDT_END with depth zero after a depth that never went negative.
   */
  method DumpBlob(blob: FdtFormat.Data, base: nat, ghost root: Node, ghost ts: seq<Token>)
    returns (visits: seq<Visit>, depth: int, unknown: bool, p: nat)
    requires base % 4 == 0 && |blob| >= HEADER_SIZE && CellAt(blob, OFF_DT_STRUCT) % 4 == 0
    requires WithoutNops(ts) == NodeTokens(root) && TokensOk(ts, blob, CellAt(blob, OFF_DT_STRINGS))
    requires LiesAt(blob, CellAt(blob, OFF_DT_STRUCT), Block(ts, FDT_END))
    ensures WithoutSkips(visits) == NodeVisits(root, 0)
    ensures WithoutSkips(visits) != [] && WithoutSkips(visits)[0].Open?
    ensures ReadNode(WithoutSkips(visits)) == (PlainNode(root), [])
    ensures |visits| == |ts| && NeverNegative(ts, 0)
    ensures depth == 0 && !unknown
    ensures p == CellAt(blob, OFF_DT_STRUCT) + |Block(ts, FDT_END)| <= |blob|
  {
    TreeVisited(root, ts);
    TreeReadsBack(root);
    OneVisitEach(ts, 0);
    var structure, strings := CellAt(blob, OFF_DT_STRUCT), CellAt(blob, OFF_DT_STRINGS);
    visits, depth, unknown, p := DumpStructure(blob, base, structure, strings, ts, FDT_END);
  }

  lemma {:induction false} OneVisitEach(ts: seq<Token>, depth: int)
    ensures |Visits(ts, depth)| == |ts|
    decreases |ts|
  {
    if ts != [] {
      OneVisitEach(ts[1..], Deeper(ts[0], depth));
    }
  }
}
