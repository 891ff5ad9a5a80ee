/**
 The structure block of a flattened device tree as section 5.4 of the Devicetree
 Specification lays it out: big-endian 32-bit tokens, each followed by its operands and
 padded to a four-byte boundary.  This is the encoder that the walker of fdt_walk.dfy inverts.
 */
module FdtFormat {
  import opened Bytes

  type Data = seq<byte>
  type Cell = v: nat | v < 0x1_0000_0000

  const FDT_BEGIN_NODE: Cell := 1
  const FDT_END_NODE: Cell := 2
  const FDT_PROP: Cell := 3
  const FDT_NOP: Cell := 4
  const FDT_END: Cell := 9

  // ------------------------------------------------------------------ cells and padding

  /** The `k`th byte of a number, counted from the least significant. */
  function Digit(v: nat, k: nat): byte
    decreases v, k
  {
    if k == 0 then (v % 0x100) as byte else Digit(v / 0x100, k - 1)
  }

  /** The low 32 bits of a number, most significant byte first. */
  function BigEndian(v: nat): (d: Data)
    ensures |d| == 4
  {
    [Digit(v, 3), Digit(v, 2), Digit(v, 1), Digit(v, 0)]
  }

  /** fdt32_to_cpu of the cell at `p`. */
  function CellAt(blob: Data, p: nat): Cell
    requires p + 4 <= |blob|
  {
    ((blob[p] as int * 0x100 + blob[p + 1] as int) * 0x100 + blob[p + 2] as int) * 0x100 + blob[p + 3] as int
  }

  lemma CellRoundTrip(v: Cell)
    ensures CellAt(BigEndian(v), 0) == v
  {
    var a := v / 0x100;
    var b := a / 0x100;
    var c := b / 0x100;
    assert Digit(v, 1) == Digit(a, 0);
    assert Digit(v, 2) == Digit(a, 1) == Digit(b, 0);
    assert Digit(v, 3) == Digit(a, 2) == Digit(b, 1) == Digit(c, 0);
    assert v == a * 0x100 + v % 0x100 && a == b * 0x100 + a % 0x100 && b == c * 0x100 + b % 0x100;
  }

  /** FDT_ALIGN(x, 4): x + 3 with its two low bits cleared. */
  function Align4(x: nat): (y: nat)
    ensures x <= y < x + 4
  {
    x + 3 - (x + 3) % 4
  }

  /** The least multiple of four from x on. */
  lemma Align4Means(x: nat)
    ensures Align4(x) % 4 == 0
    ensures x % 4 == 0 ==> Align4(x) == x
  {
    var k := (x + 3) / 4;
    assert Align4(x) == 4 * k;
  }

  lemma AlignShift(base: nat, x: nat)
    requires base % 4 == 0
    ensures Align4(base + x) == base + Align4(x)
  {
  }

  lemma SumAligned(x: nat, y: nat)
    requires x % 4 == 0 && y % 4 == 0
    ensures (x + y) % 4 == 0
  {
  }

  /** Data padded with zeros to a four-byte boundary. */
  function Padded(d: Data): (r: Data)
    ensures |r| == Align4(|d|)
    ensures d <= r
  {
    d + seq(Align4(|d|) - |d|, _ => 0 as byte)
  }

  // ------------------------------------------------------------------ tokens

  datatype Token =
    | BeginNode(name: Data)
    | EndNode
    | Property(name: Data, nameOffset: nat, value: Data)
    | Nop

  predicate NulFree(d: Data) {
    forall i :: 0 <= i < |d| ==> d[i] != 0
  }

  /** `bytes` lie in the blob from position `p` on. */
  predicate LiesAt(blob: Data, p: nat, bytes: Data) {
    p + |bytes| <= |blob| && blob[p..p + |bytes|] == bytes
  }

  /**
   A token the format can hold: names without NUL, a property's name stored in the strings
   block, and a value whose length is positive as the signed int the walker reads it into.
   */
  predicate TokenOk(t: Token, blob: Data, strings: nat) {
    match t
    case BeginNode(name) => NulFree(name)
    case Property(name, offset, value) =>
      && NulFree(name) && offset < 0x1_0000_0000 && |value| < 0x8000_0000
      && LiesAt(blob, strings + offset, name + [0])
    case _ => true
  }

  predicate TokensOk(ts: seq<Token>, blob: Data, strings: nat) {
    forall i :: 0 <= i < |ts| ==> TokenOk(ts[i], blob, strings)
  }

  function Encode(t: Token): (d: Data)
    ensures |d| >= 4
  {
    match t
    case BeginNode(name) => BigEndian(FDT_BEGIN_NODE) + Padded(name + [0])
    case EndNode => BigEndian(FDT_END_NODE)
    case Property(_, offset, value) =>
      BigEndian(FDT_PROP) + (BigEndian(|value|) + (BigEndian(offset) + Padded(value)))
    case Nop => BigEndian(FDT_NOP)
  }

  lemma EncodeAligned(t: Token)
    ensures |Encode(t)| % 4 == 0
  {
    match t
    case BeginNode(name) =>
      Align4Means(|name + [0]|);
      SumAligned(4, |Padded(name + [0])|);
    case Property(_, _, value) =>
      Align4Means(|value|);
      SumAligned(12, |Padded(value)|);
    case _ =>
  }

  /**
   Byte for byte, as section 5.4.1 has it: the token's number, then for a node its name with a
   NUL, and for a property its length, the offset of its name and its value; then zeros.
   */
  lemma TokenBytes(t: Token)
    requires t.Property? ==> |t.value| < 0x1_0000_0000 && t.nameOffset < 0x1_0000_0000
    ensures var d := Encode(t);
      && d[0] == d[1] == d[2] == 0 && |d| % 4 == 0
      && match t
         case BeginNode(name) =>
           && d[3] == 1 && 5 + |name| <= |d| < 9 + |name|
           && d[4..4 + |name|] == name && forall i :: 4 + |name| <= i < |d| ==> d[i] == 0
         case EndNode => d[3] == 2 && |d| == 4
         case Property(_, offset, value) =>
           && d[3] == 3 && 12 + |value| <= |d| < 16 + |value| && CellAt(d, 4) == |value| && CellAt(d, 8) == offset
           && d[12..12 + |value|] == value && forall i :: 12 + |value| <= i < |d| ==> d[i] == 0
         case Nop => d[3] == 4 && |d| == 4
  {
    EncodeAligned(t);
    if t.Property? {
      CellRoundTrip(|t.value|);
      CellRoundTrip(t.nameOffset);
    }
  }

  function EncodeAll(ts: seq<Token>): Data {
    if ts == [] then [] else Encode(ts[0]) + EncodeAll(ts[1..])
  }

  /** The structure block: the tokens, then the cell that ends the walk. */
  function Block(ts: seq<Token>, stop: Cell): Data {
    EncodeAll(ts) + BigEndian(stop)
  }

  // ------------------------------------------------------------------ trees

  datatype Prop = Prop(name: Data, nameOffset: nat, value: Data)
  datatype Node = Node(name: Data, props: seq<Prop>, children: Forest)
  datatype Forest = Leaves | More(first: Node, rest: Forest)

  function PropTokens(props: seq<Prop>): seq<Token> {
    if props == [] then []
    else [Property(props[0].name, props[0].nameOffset, props[0].value)] + PropTokens(props[1..])
  }

  /** A node's tokens: its begin marker, properties, child nodes and end marker. */
  function NodeTokens(n: Node): seq<Token> {
    [BeginNode(n.name)] + (PropTokens(n.props) + (ForestTokens(n.children) + [EndNode]))
  }

  function ForestTokens(f: Forest): seq<Token> {
    match f
    case Leaves => []
    case More(first, rest) => NodeTokens(first) + ForestTokens(rest)
  }

  function WithoutNops(ts: seq<Token>): seq<Token> {
    if ts == [] then []
    else if ts[0].Nop? then WithoutNops(ts[1..])
    else [ts[0]] + WithoutNops(ts[1..])
  }
}

/**
 What the walker should report, token by token and for a whole tree, and why the depth it
 keeps never goes negative.
 */
module FdtVisits {
  import opened FdtFormat
  import opened Streams
  import opened PrintableString

  /** How a property value is printed. */
  datatype Form = Empty | AsString | AsCells | AsBytes

  ghost function FormOf(value: FdtFormat.Data): Form {
    if value == [] then Empty
    else if IsStringList(value) then AsString
    else if |value| % 4 == 0 then AsCells
    else AsBytes
  }

  datatype Visit =
    | Open(depth: int, name: FdtFormat.Data)
    | Close(depth: int)
    | Value(depth: int, name: FdtFormat.Data, value: FdtFormat.Data, form: Form)
    | Skip(depth: int)

  /** A node without a name, as the root is, is shown as a slash. */
  function Shown(name: FdtFormat.Data): FdtFormat.Data {
    if name == [] then [0x2f] else name
  }

  function Deeper(t: Token, depth: int): int {
    match t
    case BeginNode(_) => depth + 1
    case EndNode => depth - 1
    case _ => depth
  }

  ghost function VisitOf(t: Token, depth: int): Visit {
    match t
    case BeginNode(name) => Open(depth, Shown(name))
    case EndNode => Close(depth - 1)
    case Property(name, _, value) => Value(depth, name, value, FormOf(value))
    case Nop => Skip(depth)
  }

  ghost function Visits(ts: seq<Token>, depth: int): seq<Visit>
    decreases |ts|
  {
    if ts == [] then [] else [VisitOf(ts[0], depth)] + Visits(ts[1..], Deeper(ts[0], depth))
  }

  function FinalDepth(ts: seq<Token>, depth: int): int
    decreases |ts|
  {
    if ts == [] then depth else FinalDepth(ts[1..], Deeper(ts[0], depth))
  }

  /** The depth stays at or above zero after every token. */
  predicate NeverNegative(ts: seq<Token>, depth: int)
    decreases |ts|
  {
    depth >= 0 && (ts == [] || NeverNegative(ts[1..], Deeper(ts[0], depth)))
  }

  // ------------------------------------------------------------------ trees

  ghost function PropVisits(props: seq<Prop>, depth: int): seq<Visit> {
    if props == [] then []
    else [Value(depth, props[0].name, props[0].value, FormOf(props[0].value))] + PropVisits(props[1..], depth)
  }

  /** A node is opened at its depth, holds its properties and children one deeper, and closes. */
  ghost function NodeVisits(n: Node, depth: int): seq<Visit> {
    [Open(depth, Shown(n.name))]
    + (PropVisits(n.props, depth + 1) + (ForestVisits(n.children, depth + 1) + [Close(depth)]))
  }

  ghost function ForestVisits(f: Forest, depth: int): seq<Visit> {
    match f
    case Leaves => []
    case More(first, rest) => NodeVisits(first, depth) + ForestVisits(rest, depth)
  }

  function WithoutSkips(vs: seq<Visit>): seq<Visit> {
    if vs == [] then []
    else if vs[0].Skip? then WithoutSkips(vs[1..])
    else [vs[0]] + WithoutSkips(vs[1..])
  }

  lemma {:induction false} VisitsAppend(a: seq<Token>, b: seq<Token>, depth: int)
    ensures Visits(a + b, depth) == Visits(a, depth) + Visits(b, FinalDepth(a, depth))
    ensures FinalDepth(a + b, depth) == FinalDepth(b, FinalDepth(a, depth))
    decreases |a|
  {
    if a == [] {
      assert a + b == b;
    } else {
      var d := Deeper(a[0], depth);
      assert (a + b)[1..] == a[1..] + b;
      VisitsAppend(a[1..], b, d);
      Assoc([VisitOf(a[0], depth)], Visits(a[1..], d), Visits(b, FinalDepth(a[1..], d)));
    }
  }

  lemma {:induction false} NeverNegativeAppend(a: seq<Token>, b: seq<Token>, depth: int)
    requires NeverNegative(a, depth) && NeverNegative(b, FinalDepth(a, depth))
    ensures NeverNegative(a + b, depth)
    decreases |a|
  {
    if a == [] {
      assert a + b == b;
    } else {
      assert (a + b)[1..] == a[1..] + b;
      NeverNegativeAppend(a[1..], b, Deeper(a[0], depth));
    }
  }

  lemma {:induction false} PropsVisited(props: seq<Prop>, depth: int)
    requires depth >= 0
    ensures Visits(PropTokens(props), depth) == PropVisits(props, depth)
    ensures FinalDepth(PropTokens(props), depth) == depth
    ensures NeverNegative(PropTokens(props), depth)
  {
    if props != [] {
      var p := props[0];
      var t := Property(p.name, p.nameOffset, p.value);
      assert PropTokens(props)[1..] == PropTokens(props[1..]);
      PropsVisited(props[1..], depth);
    }
  }

  lemma {:induction false} OneToken(t: Token, depth: int)
    requires depth >= 0 && Deeper(t, depth) >= 0
    ensures Visits([t], depth) == [VisitOf(t, depth)]
    ensures FinalDepth([t], depth) == Deeper(t, depth)
    ensures NeverNegative([t], depth)
  {
    assert [t][1..] == [];
  }

  lemma {:induction false} NodeVisited(n: Node, depth: int)
    requires depth >= 0
    ensures Visits(NodeTokens(n), depth) == NodeVisits(n, depth)
    ensures FinalDepth(NodeTokens(n), depth) == depth
    ensures NeverNegative(NodeTokens(n), depth)
    decreases n
  {
    var ps, cs := PropTokens(n.props), ForestTokens(n.children);
    OneToken(BeginNode(n.name), depth);
    OneToken(EndNode, depth + 1);
    PropsVisited(n.props, depth + 1);
    ForestVisited(n.children, depth + 1);
    VisitsAppend(cs, [EndNode], depth + 1);
    VisitsAppend(ps, cs + [EndNode], depth + 1);
    VisitsAppend([BeginNode(n.name)], ps + (cs + [EndNode]), depth);
    NeverNegativeAppend(cs, [EndNode], depth + 1);
    NeverNegativeAppend(ps, cs + [EndNode], depth + 1);
    NeverNegativeAppend([BeginNode(n.name)], ps + (cs + [EndNode]), depth);
  }

  lemma {:induction false} ForestVisited(f: Forest, depth: int)
    requires depth >= 0
    ensures Visits(ForestTokens(f), depth) == ForestVisits(f, depth)
    ensures FinalDepth(ForestTokens(f), depth) == depth
    ensures NeverNegative(ForestTokens(f), depth)
    decreases f
  {
    if f.More? {
      NodeVisited(f.first, depth);
      ForestVisited(f.rest, depth);
      VisitsAppend(NodeTokens(f.first), ForestTokens(f.rest), depth);
      NeverNegativeAppend(NodeTokens(f.first), ForestTokens(f.rest), depth);
    }
  }

  /** NOP tokens change neither the depth nor what is reported of the others. */
  lemma {:induction false} NopsDoNotMatter(ts: seq<Token>, depth: int)
    ensures WithoutSkips(Visits(ts, depth)) == Visits(WithoutNops(ts), depth)
    ensures FinalDepth(ts, depth) == FinalDepth(WithoutNops(ts), depth)
    ensures NeverNegative(ts, depth) <==> NeverNegative(WithoutNops(ts), depth)
    decreases |ts|
  {
    if ts != [] {
      var d := Deeper(ts[0], depth);
      NopsDoNotMatter(ts[1..], d);
      assert Visits(ts, depth)[1..] == Visits(ts[1..], d);
      if !ts[0].Nop? {
        assert WithoutNops(ts)[1..] == WithoutNops(ts[1..]);
      }
    }
  }

  /**
   A tree with NOPs anywhere is reported node for node and property for property, at the
   right depths; the depth never goes negative and ends at zero.
   */
  lemma TreeVisited(root: Node, ts: seq<Token>)
    requires WithoutNops(ts) == NodeTokens(root)
    ensures WithoutSkips(Visits(ts, 0)) == NodeVisits(root, 0)
    ensures FinalDepth(ts, 0) == 0
    ensures NeverNegative(ts, 0)
  {
    NopsDoNotMatter(ts, 0);
    NodeVisited(root, 0);
  }

  // ------------------------------------------------------------------ reading a tree back

  /** A tree as it can be read off a printout: without name offsets, and a slash for no name. */
  function PlainProps(props: seq<Prop>): seq<Prop> {
    if props == [] then [] else [Prop(props[0].name, 0, props[0].value)] + PlainProps(props[1..])
  }

  function PlainNode(n: Node): Node {
    Node(if n.name == [] then [0x2f] else n.name, PlainProps(n.props), PlainForest(n.children))
  }

  function PlainForest(f: Forest): Forest {
    match f
    case Leaves => Leaves
    case More(first, rest) => More(PlainNode(first), PlainForest(rest))
  }

  /** The properties at the head of a report, and the rest of it. */
  function ReadProps(vs: seq<Visit>): (r: (seq<Prop>, seq<Visit>))
    ensures |r.1| <= |vs|
  {
    if vs == [] || !vs[0].Value? then ([], vs)
    else
      var (props, rest) := ReadProps(vs[1..]);
      ([Prop(vs[0].name, 0, vs[0].value)] + props, rest)
  }

  /** The node that a report opens with: up to the visit that closes it. */
  function ReadNode(vs: seq<Visit>): (r: (Node, seq<Visit>))
    requires vs != [] && vs[0].Open?
    ensures |r.1| < |vs|
    decreases |vs|, 0
  {
    var (props, afterProps) := ReadProps(vs[1..]);
    var (children, rest) := ReadForest(afterProps);
    (Node(vs[0].name, props, children), if rest == [] then [] else rest[1..])
  }

  function ReadForest(vs: seq<Visit>): (r: (Forest, seq<Visit>))
    ensures |r.1| <= |vs|
    decreases |vs|, 1
  {
    if vs == [] || !vs[0].Open? then (Leaves, vs)
    else
      var (first, afterFirst) := ReadNode(vs);
      var (others, rest) := ReadForest(afterFirst);
      (More(first, others), rest)
  }

  lemma {:induction false} PropsReadBack(props: seq<Prop>, depth: int, rest: seq<Visit>)
    requires rest == [] || !rest[0].Value?
    ensures ReadProps(PropVisits(props, depth) + rest) == (PlainProps(props), rest)
  {
    if props == [] {
      assert [] + rest == rest;
    } else {
      var v := Value(depth, props[0].name, props[0].value, FormOf(props[0].value));
      PropsReadBack(props[1..], depth, rest);
      Assoc([v], PropVisits(props[1..], depth), rest);
      assert ([v] + (PropVisits(props[1..], depth) + rest))[1..] == PropVisits(props[1..], depth) + rest;
    }
  }

  /** A node's report, whatever follows it, reads back as the node. */
  lemma {:induction false} NodeReadsBack(n: Node, depth: int, rest: seq<Visit>)
    ensures NodeVisits(n, depth) != [] && NodeVisits(n, depth)[0].Open?
    ensures ReadNode(NodeVisits(n, depth) + rest) == (PlainNode(n), rest)
    decreases n
  {
    var open, close := Open(depth, Shown(n.name)), Close(depth);
    var ps, cs := PropVisits(n.props, depth + 1), ForestVisits(n.children, depth + 1);
    var afterProps := cs + ([close] + rest);
    NodeParts(open, ps, cs, close, rest);
    ForestStart(n.children, depth + 1, [close] + rest);
    PropsReadBack(n.props, depth + 1, afterProps);
    ForestReadsBack(n.children, depth + 1, [close] + rest);
    assert ([close] + rest)[1..] == rest;
  }

  lemma NodeParts(open: Visit, ps: seq<Visit>, cs: seq<Visit>, close: Visit, rest: seq<Visit>)
    ensures ([open] + (ps + (cs + [close]))) + rest == [open] + (ps + (cs + ([close] + rest)))
    ensures ([open] + (ps + (cs + ([close] + rest))))[1..] == ps + (cs + ([close] + rest))
  {
  }

  /** After a node's properties comes a child's opening or the node's own close. */
  lemma ForestStart(f: Forest, depth: int, rest: seq<Visit>)
    requires rest != [] && rest[0].Close?
    ensures var vs := ForestVisits(f, depth) + rest; vs != [] && !vs[0].Value?
    ensures f.Leaves? ==> ForestVisits(f, depth) + rest == rest
  {
  }

  lemma {:induction false} ForestReadsBack(f: Forest, depth: int, rest: seq<Visit>)
    requires rest != [] && rest[0].Close?
    ensures ReadForest(ForestVisits(f, depth) + rest) == (PlainForest(f), rest)
    decreases f
  {
    match f
    case Leaves => ForestStart(f, depth, rest);
    case More(first, others) =>
      var tail := ForestVisits(others, depth) + rest;
      NodeReadsBack(first, depth, tail);
      ForestReadsBack(others, depth, rest);
      Assoc(NodeVisits(first, depth), ForestVisits(others, depth), rest);
      assert (NodeVisits(first, depth) + tail)[0] == NodeVisits(first, depth)[0];
  }

  /** So a report determines the tree: names, values, order and nesting. */
  lemma TreeReadsBack(root: Node)
    ensures NodeVisits(root, 0) != [] && NodeVisits(root, 0)[0].Open?
    ensures ReadNode(NodeVisits(root, 0)) == (PlainNode(root), [])
  {
    NodeReadsBack(root, 0, []);
    assert NodeVisits(root, 0) + [] == NodeVisits(root, 0);
  }

  // ------------------------------------------------------------------ depths

  /** How many nodes are open after these visits. */
  function OpenNodes(vs: seq<Visit>): int {
    if vs == [] then 0
    else (match vs[0] case Open(_, _) => 1 case Close(_) => -1 case _ => 0) + OpenNodes(vs[1..])
  }

  /** Every visit is reported at the number of nodes open around it. */
  lemma {:induction false} DepthIsNesting(ts: seq<Token>, depth: int, i: nat)
    requires i < |Visits(ts, depth)|
    ensures var vs := Visits(ts, depth);
      vs[i].depth == depth + OpenNodes(vs[..i]) - (if vs[i].Close? then 1 else 0)
    decreases |ts|
  {
    var vs, d := Visits(ts, depth), Deeper(ts[0], depth);
    assert vs[1..] == Visits(ts[1..], d);
    if i > 0 {
      DepthIsNesting(ts[1..], d, i - 1);
      assert vs[..i][1..] == vs[1..][..i - 1];
      assert vs[..i][0] == vs[0];
    }
  }
}
