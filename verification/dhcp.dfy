/**
 The DHCP server: a routing table of four entries and the octet to offer next.  A discover
 searches on from that octet, which wraps around at 256; a request is granted for any address
 nobody else holds.
 */
module DhcpServer {
  type Word = v: nat | v < 0x1_0000_0000
  type Octet = v: nat | v < 0x100

  const MY_IP: Word := 0xc0a8_0101
  const SUBNET: Word := 0xc0a8_0100
  const TABLE_SIZE := 4

  /** The address with this last octet: (my_ip & ~0xff) | octet. */
  function Address(octet: Octet): (a: Word)
    ensures a % 0x100 == octet && MY_IP - MY_IP % 0x100 <= a < MY_IP - MY_IP % 0x100 + 0x100
  {
    SUBNET + octet
  }

  /** uint8_t arithmetic. */
  function Plus(octet: Octet, k: nat): Octet {
    (octet + k) % 0x100
  }

  /** The condition of the search loop: an address that must not be offered. */
  predicate Excluded(table: seq<Word>, a: Word)
    requires |table| == TABLE_SIZE
  {
    a % 0x100 == 0 || a == MY_IP || a == table[0] || a == table[1] || a == table[2] || a == table[3]
  }

  // ------------------------------------------------------------------ the search ends

  lemma {:induction false} SubsetSize(a: set<nat>, b: set<nat>)
    requires a <= b
    ensures |a| <= |b|
  {
    if a != {} {
      var x :| x in a;
      SubsetSize(a - {x}, b - {x});
    }
  }

  /** The octets the search passes over: zero, the server's own, and those in the table. */
  function ExcludedOctets(table: seq<Word>): set<nat>
    requires |table| == TABLE_SIZE
  {
    {0, 1, table[0] % 0x100, table[1] % 0x100, table[2] % 0x100, table[3] % 0x100}
  }

  lemma AtMostSix(a: nat, b: nat, c: nat, d: nat, e: nat, f: nat)
    ensures |{a, b, c, d, e, f}| <= 6
  {
  }

  /** The first `n` octets tried from `o` on. */
  function Tried(o: Octet, n: nat): set<nat> {
    if n == 0 then {} else Tried(o, n - 1) + {Plus(o, n - 1)}
  }

  lemma PlusSmall(o: Octet, k: nat)
    requires o + k < 0x100
    ensures Plus(o, k) == o + k
  {
  }

  lemma PlusDiffers(o: Octet, j: nat, k: nat)
    requires j < k < 0x100
    ensures Plus(o, j) != Plus(o, k)
  {
  }

  /** The wrap-around repeats no octet before 256 tries. */
  lemma {:induction false} TriedAreDifferent(o: Octet, n: nat)
    requires n <= 0x100
    ensures |Tried(o, n)| == n
    ensures forall x :: x in Tried(o, n) ==> exists k: nat :: k < n && x == Plus(o, k)
  {
    if n > 0 {
      TriedAreDifferent(o, n - 1);
      forall k: nat | k < n - 1
        ensures Plus(o, k) != Plus(o, n - 1)
      {
        PlusDiffers(o, k, n - 1);
      }
    }
  }

  ghost predicate FoundWithin(table: seq<Word>, octet: Octet, from: nat)
    requires |table| == TABLE_SIZE
  {
    exists k: nat :: from <= k < 7 && !Excluded(table, Address(Plus(octet, k)))
  }

  /** One of any seven successive octets can be offered, whatever the table holds. */
  lemma OneOfSeven(table: seq<Word>, octet: Octet)
    requires |table| == TABLE_SIZE
    ensures FoundWithin(table, octet, 0)
  {
    if !FoundWithin(table, octet, 0) {
      TriedAreDifferent(octet, 7);
      assert forall k: nat :: k < 7 ==> Excluded(table, Address(Plus(octet, k)));
      assert Tried(octet, 7) <= ExcludedOctets(table);
      SubsetSize(Tried(octet, 7), ExcludedOctets(table));
      AtMostSix(0, 1, table[0] % 0x100, table[1] % 0x100, table[2] % 0x100, table[3] % 0x100);
      assert false;
    }
  }

  /** How many octets the search passes over, counted from `from` on. */
  ghost function Skipped(table: seq<Word>, octet: Octet, from: nat): (k: nat)
    requires |table| == TABLE_SIZE && FoundWithin(table, octet, from)
    ensures from <= k < 7 && !Excluded(table, Address(Plus(octet, k)))
    ensures forall j: nat :: from <= j < k ==> Excluded(table, Address(Plus(octet, j)))
    decreases 7 - from
  {
    if !Excluded(table, Address(Plus(octet, from))) then from
    else Skipped(table, octet, from + 1)
  }

  /** One try of the search. */
  lemma TryOne(table: seq<Word>, octet: Octet, from: nat)
    requires |table| == TABLE_SIZE && FoundWithin(table, octet, from)
    ensures Excluded(table, Address(Plus(octet, from))) ==>
              from < 6 && FoundWithin(table, octet, from + 1)
              && Skipped(table, octet, from) == Skipped(table, octet, from + 1)
    ensures !Excluded(table, Address(Plus(octet, from))) ==> Skipped(table, octet, from) == from
  {
  }

  lemma PlusOne(octet: Octet, k: nat)
    ensures Plus(Plus(octet, k), 1) == Plus(octet, k + 1)
  {
  }

  // ------------------------------------------------------------------ what the calls do

  datatype Tables = Tables(table: seq<Word>, octet: Octet)

  /** The address a discover offers. */
  ghost function OfferOf(s: Tables): (offer: Word)
    requires |s.table| == TABLE_SIZE
    ensures offer !in s.table && offer != MY_IP && offer % 0x100 != 0
  {
    OneOfSeven(s.table, s.octet);
    Address(Plus(s.octet, Skipped(s.table, s.octet, 0)))
  }

  /** A discover moves only the octet, past the offer. */
  ghost function AfterDiscover(s: Tables): Tables
    requires |s.table| == TABLE_SIZE
  {
    OneOfSeven(s.table, s.octet);
    s.(octet := Plus(s.octet, Skipped(s.table, s.octet, 0) + 1))
  }

  /** A discover offers the first address from its octet on that may be, and moves past it. */
  lemma DiscoverMeans(s: Tables) returns (k: nat)
    requires |s.table| == TABLE_SIZE
    ensures k < 7 && OfferOf(s) == Address(Plus(s.octet, k)) && !Excluded(s.table, OfferOf(s))
    ensures forall j: nat :: j < k ==> Excluded(s.table, Address(Plus(s.octet, j)))
    ensures AfterDiscover(s) == Tables(s.table, Plus(s.octet, k + 1))
  {
    OneOfSeven(s.table, s.octet);
    k := Skipped(s.table, s.octet, 0);
  }

  /** Whether a request is answered with its address rather than with zero. */
  predicate Granted(table: seq<Word>, client: nat, ip: Word)
    requires |table| == TABLE_SIZE && client < TABLE_SIZE
  {
    table[client] == ip || (ip != MY_IP && ip != 0 && ip !in table)
  }

  function Assigned(table: seq<Word>, client: nat, ip: Word, siaddr: Word): Word
    requires |table| == TABLE_SIZE && (siaddr == MY_IP ==> client < TABLE_SIZE)
  {
    if siaddr == MY_IP && Granted(table, client, ip) then ip else 0
  }

  function AfterRequest(table: seq<Word>, client: nat, ip: Word, siaddr: Word): (r: seq<Word>)
    requires |table| == TABLE_SIZE && (siaddr == MY_IP ==> client < TABLE_SIZE)
    ensures |r| == TABLE_SIZE
  {
    if siaddr == MY_IP && Granted(table, client, ip) then table[client := ip] else table
  }

  /** Nobody holds the server's address, and no two clients hold the same. */
  predicate Distinct(table: seq<Word>) {
    && |table| == TABLE_SIZE
    && (forall i :: 0 <= i < |table| ==> table[i] != MY_IP)
    && (forall i, j :: 0 <= i < j < |table| && table[i] != 0 ==> table[i] != table[j])
  }

  /**
   A request is refused exactly for another server, for no address, for the server's own, or
   for one another client holds; otherwise the client, and it alone, holds the address.
   */
  lemma RequestMeans(table: seq<Word>, client: nat, ip: Word, siaddr: Word)
    requires Distinct(table) && client < TABLE_SIZE
    ensures var reply := Assigned(table, client, ip, siaddr);
            var after := AfterRequest(table, client, ip, siaddr);
            && (reply == 0 <==> siaddr != MY_IP || ip == 0 || ip == MY_IP || ip in table[client := 0])
            && (reply == 0 ==> after == table)
            && (reply != 0 ==> reply == ip && forall j :: 0 <= j < TABLE_SIZE ==> (after[j] == ip <==> j == client))
  {
    var others := table[client := 0];
    assert forall j :: 0 <= j < TABLE_SIZE && j != client ==> others[j] == table[j];
  }

  datatype Call = Discover | Request(client: nat, ip: Word, siaddr: Word)

  /** The connection a call comes over names one of the four clients. */
  predicate FromClient(c: Call) {
    c.Request? ==> c.client < TABLE_SIZE
  }

  ghost function Serve(s: Tables, c: Call): Tables
    requires |s.table| == TABLE_SIZE && FromClient(c)
  {
    match c
    case Discover => AfterDiscover(s)
    case Request(client, ip, siaddr) => s.(table := AfterRequest(s.table, client, ip, siaddr))
  }

  ghost function ServeAll(s: Tables, cs: seq<Call>): (r: Tables)
    requires |s.table| == TABLE_SIZE && forall i :: 0 <= i < |cs| ==> FromClient(cs[i])
    decreases |cs|
  {
    if cs == [] then s else ServeAll(Serve(s, cs[0]), cs[1..])
  }

  /**
   Whatever the clients ask for, honest or not, the addresses held stay pairwise distinct and
   are never the server's; and the next offer is then free, ends in no zero octet, and is
   found within seven tries.
   */
  lemma {:induction false} CallsKeepDistinct(s: Tables, cs: seq<Call>)
    requires Distinct(s.table) && forall i :: 0 <= i < |cs| ==> FromClient(cs[i])
    ensures Distinct(ServeAll(s, cs).table)
    ensures FoundWithin(ServeAll(s, cs).table, ServeAll(s, cs).octet, 0)
    decreases |cs|
  {
    if cs == [] {
      OneOfSeven(s.table, s.octet);
    } else {
      CallsKeepDistinct(Serve(s, cs[0]), cs[1..]);
    }
  }

  /** A call on behalf of one client leaves what the others hold alone. */
  lemma {:induction false} OthersKeepTheirs(s: Tables, cs: seq<Call>, i: nat)
    requires |s.table| == TABLE_SIZE && forall k :: 0 <= k < |cs| ==> FromClient(cs[k])
    requires i < TABLE_SIZE && forall k :: 0 <= k < |cs| && cs[k].Request? ==> cs[k].client != i
    ensures |ServeAll(s, cs).table| == TABLE_SIZE && ServeAll(s, cs).table[i] == s.table[i]
    decreases |cs|
  {
    if cs != [] {
      OthersKeepTheirs(Serve(s, cs[0]), cs[1..], i);
    }
  }

  // ------------------------------------------------------------------ the server itself

  class Server {
    const routingTable: array<Word>
    var nextOfferOctet: Octet

    ghost predicate Valid()
      reads this, routingTable
    {
      Distinct(routingTable[..])
    }

    ghost function View(): Tables
      reads this, routingTable
    {
      Tables(routingTable[..], nextOfferOctet)
    }

    constructor ()
      ensures Valid() && fresh(routingTable) && View() == Tables([0, 0, 0, 0], 0)
    {
      routingTable := new Word[TABLE_SIZE](_ => 0);
      nextOfferOctet := 0;
      new;
      assert routingTable[..] == [0, 0, 0, 0];
    }

    /** discover */
    method Discover() returns (offer: Word, siaddr: Word)
      requires Valid()
      modifies this`nextOfferOctet
      ensures Valid() && View() == AfterDiscover(old(View()))
      ensures offer == OfferOf(old(View())) && siaddr == MY_IP
    {
      ghost var table, start := routingTable[..], nextOfferOctet;
      ghost var tries: nat := 0;
      OneOfSeven(table, start);
      while true
        invariant tries < 7 && nextOfferOctet == Plus(start, tries)
        invariant FoundWithin(table, start, tries) && Skipped(table, start, tries) == Skipped(table, start, 0)
        invariant table == routingTable[..]
        decreases 7 - tries
      {
        TryOne(table, start, tries);
        PlusOne(start, tries);
        offer := Address(nextOfferOctet);
        nextOfferOctet := Plus(nextOfferOctet, 1);
        if !(offer % 0x100 == 0 || offer == MY_IP ||
             offer == routingTable[0] || offer == routingTable[1] ||
             offer == routingTable[2] || offer == routingTable[3]) {
          break;
        }
        tries := tries + 1;
      }
      siaddr := MY_IP;
    }

    /** request */
    method Request(client: nat, ip: Word, siaddr: Word) returns (granted: Word)
      requires Valid() && (siaddr == MY_IP ==> client < TABLE_SIZE)
      modifies routingTable
      ensures Valid()
      ensures granted == Assigned(old(routingTable[..]), client, ip, siaddr)
      ensures routingTable[..] == AfterRequest(old(routingTable[..]), client, ip, siaddr)
    {
      if siaddr != MY_IP {
        return 0;
      }
      granted := 0;
      if routingTable[client] == ip {
        granted := ip;
      } else if ip != MY_IP && ip != 0 && ip != routingTable[0] &&
                ip != routingTable[1] && ip != routingTable[2] && ip != routingTable[3] {
        routingTable[client] := ip;
        granted := ip;
      }
    }
  }

  /**
   A client's retry loop, run without interruption: from any state of the server it is over
   after one discover and one request.
   */
  method RunClient(server: Server, client: nat) returns (ip: Word)
    requires server.Valid() && client < TABLE_SIZE
    modifies server, server.routingTable
    ensures server.Valid()
    ensures ip == OfferOf(old(server.View())) && ip != 0
    ensures server.routingTable[..] == old(server.routingTable[..])[client := ip]
  {
    ip := 0;
    ghost var s := server.View();
    while ip == 0
      invariant server.Valid()
      invariant ip == 0 ==> server.View() == s
      invariant ip != 0 ==> ip == OfferOf(s) && server.routingTable[..] == s.table[client := ip]
      decreases ip == 0
    {
      var potentialIp, serverIp := server.Discover();
      ip := server.Request(client, potentialIp, serverIp);
    }
  }
}

/**
 Four clients and the server.  Each client discovers, requests what it was offered and goes
 round again when it is refused; their calls interleave in any order, each call being atomic
 because the server holds its mutex throughout.
 */
module DhcpClients {
  import opened DhcpServer

  datatype Client =
    | Discovering
    | Requesting(ip: Word, siaddr: Word)
    | Acquired(ip: Word)

  /** `discovers` and `refusals` count the calls made so far. */
  datatype State = State(server: Tables, clients: seq<Client>, discovers: nat, refusals: nat)

  predicate Shaped(s: State) {
    |s.server.table| == TABLE_SIZE && |s.clients| == TABLE_SIZE
  }

  predicate Enabled(s: State, i: nat) {
    i < |s.clients| && !s.clients[i].Acquired?
  }

  /** Client `i` makes its next call. */
  ghost function Next(s: State, i: nat): State
    requires Shaped(s) && Enabled(s, i)
  {
    match s.clients[i]
    case Discovering =>
      State(AfterDiscover(s.server), s.clients[i := Requesting(OfferOf(s.server), MY_IP)], s.discovers + 1, s.refusals)
    case Requesting(ip, siaddr) =>
      var reply := Assigned(s.server.table, i, ip, siaddr);
      var server := s.server.(table := AfterRequest(s.server.table, i, ip, siaddr));
      if reply == 0 then State(server, s.clients[i := Discovering], s.discovers, s.refusals + 1)
      else State(server, s.clients[i := Acquired(reply)], s.discovers, s.refusals)
  }

  predicate Initial(s: State) {
    s == State(Tables([0, 0, 0, 0], 0), [Discovering, Discovering, Discovering, Discovering], 0, 0)
  }

  ghost predicate Runs(s: State, calls: seq<nat>)
    decreases |calls|
  {
    Shaped(s) && (calls == [] || (Enabled(s, calls[0]) && Runs(Next(s, calls[0]), calls[1..])))
  }

  ghost function Run(s: State, calls: seq<nat>): State
    requires Runs(s, calls)
    decreases |calls|
  {
    if calls == [] then s else Run(Next(s, calls[0]), calls[1..])
  }

  // ------------------------------------------------------------------ what every call keeps

  /** How many clients are past their discover. */
  function Served(cs: seq<Client>): (n: nat)
    ensures n <= |cs|
  {
    if cs == [] then 0 else (if cs[0].Discovering? then 0 else 1) + Served(cs[1..])
  }

  /** The octet after the offers of `n` discovers. */
  function OctetAfter(n: nat): nat {
    if n == 0 then 0 else n + 2
  }

  /** The addresses offered are the first ones from 192.168.1.2 on, each to one client. */
  ghost predicate OffersInOrder(s: State) {
    && s.server.octet == OctetAfter(s.discovers)
    && (forall i :: 0 <= i < |s.clients| && !s.clients[i].Discovering? ==>
          SUBNET + 2 <= s.clients[i].ip < SUBNET + 2 + s.discovers)
    && (forall i, j :: 0 <= i < j < |s.clients| && !s.clients[i].Discovering? && !s.clients[j].Discovering? ==>
          s.clients[i].ip != s.clients[j].ip)
  }

  /** The table holds exactly what the clients have acquired. */
  ghost predicate TableMatches(s: State) {
    Shaped(s) && forall i :: 0 <= i < TABLE_SIZE ==>
      s.server.table[i] == if s.clients[i].Acquired? then s.clients[i].ip else 0
  }

  ghost predicate NeverRefused(s: State) {
    && s.refusals == 0 && s.discovers == Served(s.clients)
    && forall i :: 0 <= i < |s.clients| && s.clients[i].Requesting? ==> s.clients[i].siaddr == MY_IP
  }

  ghost predicate Inv(s: State) {
    TableMatches(s) && OffersInOrder(s) && NeverRefused(s)
  }

  lemma {:induction false} ServedUpdate(cs: seq<Client>, i: nat, c: Client)
    requires i < |cs|
    ensures Served(cs[i := c]) == Served(cs) - (if cs[i].Discovering? then 0 else 1) + (if c.Discovering? then 0 else 1)
  {
    if i == 0 {
      assert cs[i := c][1..] == cs[1..];
    } else {
      assert cs[i := c][1..] == cs[1..][i - 1 := c];
      ServedUpdate(cs[1..], i - 1, c);
    }
  }

  lemma {:induction false} NotAllServed(cs: seq<Client>, i: nat)
    requires i < |cs| && cs[i].Discovering?
    ensures Served(cs) < |cs|
  {
    if i > 0 {
      NotAllServed(cs[1..], i - 1);
    }
  }

  lemma NextIsFree(s: State)
    requires Inv(s) && s.discovers < TABLE_SIZE
    ensures !Excluded(s.server.table, Address(s.discovers + 2))
  {
  }

  /** The next offer is one past the last, since only smaller addresses are held. */
  lemma NextOffer(s: State)
    requires Inv(s) && s.discovers < TABLE_SIZE
    ensures OfferOf(s.server) == SUBNET + 2 + s.discovers
    ensures AfterDiscover(s.server).octet == OctetAfter(s.discovers + 1)
  {
    NextIsFree(s);
    FirstFree(s.server.table, s.server.octet, s.discovers + 2);
  }

  /** From octet zero the search skips to 2; from any other it offers that one. */
  lemma FirstFree(table: seq<Word>, octet: Octet, next: Octet)
    requires |table| == TABLE_SIZE && !Excluded(table, Address(next)) && next < 0xf0
    requires octet == if next == 2 then 0 else next
    ensures OfferOf(Tables(table, octet)) == Address(next)
    ensures AfterDiscover(Tables(table, octet)).octet == next + 1
  {
    var k := if next == 2 then 2 else 0;
    SkipsTo(table, octet, k);
    PlusSmall(octet, k);
    PlusSmall(octet, k + 1);
  }

  /** The server skips exactly what it must not offer: nothing, or octets zero and one. */
  lemma SkipsTo(table: seq<Word>, octet: Octet, k: nat)
    requires |table| == TABLE_SIZE && octet < 0xf0 && k <= 2
    requires !Excluded(table, Address(octet + k)) && (k == 0 || (octet == 0 && k == 2))
    ensures FoundWithin(table, octet, 0) && Skipped(table, octet, 0) == k
  {
    OneOfSeven(table, octet);
    PlusSmall(octet, 0);
    TryOne(table, octet, 0);
    if k == 2 {
      PlusSmall(octet, 1);
      PlusSmall(octet, 2);
      TryOne(table, octet, 1);
      TryOne(table, octet, 2);
    }
  }

  lemma DiscoverKeepsInv(s: State, i: nat)
    requires Inv(s) && i < TABLE_SIZE && s.clients[i].Discovering?
    ensures Inv(Next(s, i))
  {
    var offer := Requesting(OfferOf(s.server), MY_IP);
    ServedUpdate(s.clients, i, offer);
    NotAllServed(s.clients, i);
    NextOffer(s);
  }

  lemma RequestKeepsInv(s: State, i: nat)
    requires Inv(s) && i < TABLE_SIZE && s.clients[i].Requesting?
    ensures Inv(Next(s, i)) && Next(s, i).clients[i].Acquired?
  {
    var ip := s.clients[i].ip;
    ServedUpdate(s.clients, i, Acquired(ip));
    assert Granted(s.server.table, i, ip);
  }

  lemma StepKeepsInv(s: State, i: nat)
    requires Inv(s) && Enabled(s, i)
    ensures Inv(Next(s, i))
    ensures s.clients[i].Requesting? ==> Next(s, i).clients[i].Acquired?
  {
    if s.clients[i].Discovering? {
      DiscoverKeepsInv(s, i);
    } else {
      RequestKeepsInv(s, i);
    }
  }

  /** However the calls interleave, no request is refused and at most four discovers are made. */
  lemma {:induction false} RunKeepsInv(s: State, calls: seq<nat>)
    requires Inv(s) && Runs(s, calls)
    ensures Inv(Run(s, calls))
    ensures Run(s, calls).refusals == 0 && Run(s, calls).discovers <= TABLE_SIZE
    decreases |calls|
  {
    if calls != [] {
      StepKeepsInv(s, calls[0]);
      RunKeepsInv(Next(s, calls[0]), calls[1..]);
    }
  }

  // ------------------------------------------------------------------ where every run ends

  ghost predicate AllAcquired(s: State) {
    forall i :: 0 <= i < |s.clients| ==> s.clients[i].Acquired?
  }

  lemma {:induction false} AllServed(cs: seq<Client>)
    requires forall i :: 0 <= i < |cs| ==> !cs[i].Discovering?
    ensures Served(cs) == |cs|
  {
    if cs != [] {
      AllServed(cs[1..]);
    }
  }

  lemma NobodyEnabled(s: State)
    requires forall i: nat :: !Enabled(s, i)
    ensures AllAcquired(s)
  {
    forall i: nat | i < |s.clients|
      ensures s.clients[i].Acquired?
    {
      assert !Enabled(s, i);
    }
  }

  /** A run that can go no further has given 192.168.1.2 to 192.168.1.5 to one client each. */
  lemma {:induction false} AllEndWithOwnAddress(s: State, calls: seq<nat>)
    requires Initial(s) && Runs(s, calls) && forall i: nat :: !Enabled(Run(s, calls), i)
    ensures var end := Run(s, calls);
            && Inv(end) && AllAcquired(end)
            && (forall i :: 0 <= i < TABLE_SIZE ==> end.server.table[i] == end.clients[i].ip)
            && (forall a: Word :: a in end.server.table <==> SUBNET + 2 <= a <= SUBNET + 5)
  {
    RunKeepsInv(s, calls);
    var end := Run(s, calls);
    NobodyEnabled(end);
    AllServed(end.clients);
    FourInFour(end.server.table);
  }

  /** Four different addresses among four are those four. */
  lemma FourInFour(table: seq<Word>)
    requires |table| == 4
    requires forall i :: 0 <= i < 4 ==> SUBNET + 2 <= table[i] < SUBNET + 6
    requires forall i, j :: 0 <= i < j < 4 ==> table[i] != table[j]
    ensures forall a: Word :: a in table <==> SUBNET + 2 <= a <= SUBNET + 5
  {
    var t0, t1, t2, t3 := table[0], table[1], table[2], table[3];
    assert t0 != t1 && t0 != t2 && t0 != t3 && t1 != t2 && t1 != t3 && t2 != t3;
    forall a: Word | SUBNET + 2 <= a <= SUBNET + 5
      ensures a in table
    {
      assert a == t0 || a == t1 || a == t2 || a == t3;
    }
  }

  /** The calls a client still makes, when none is refused. */
  function CallsLeft(c: Client): nat {
    match c
    case Discovering => 2
    case Requesting(_, _) => 1
    case Acquired(_) => 0
  }

  function AllCallsLeft(cs: seq<Client>): nat {
    if cs == [] then 0 else CallsLeft(cs[0]) + AllCallsLeft(cs[1..])
  }

  lemma {:induction false} CallsLeftUpdate(cs: seq<Client>, i: nat, c: Client)
    requires i < |cs|
    ensures AllCallsLeft(cs[i := c]) == AllCallsLeft(cs) - CallsLeft(cs[i]) + CallsLeft(c)
  {
    if i == 0 {
      assert cs[i := c][1..] == cs[1..];
    } else {
      assert cs[i := c][1..] == cs[1..][i - 1 := c];
      CallsLeftUpdate(cs[1..], i - 1, c);
    }
  }

  /** Every run takes one call from those left: from the start, eight at most. */
  lemma {:induction false} RunUsesUpCalls(s: State, calls: seq<nat>)
    requires Inv(s) && Runs(s, calls)
    ensures |calls| + AllCallsLeft(Run(s, calls).clients) == AllCallsLeft(s.clients)
    decreases |calls|
  {
    if calls != [] {
      StepKeepsInv(s, calls[0]);
      CallsLeftUpdate(s.clients, calls[0], Next(s, calls[0]).clients[calls[0]]);
      RunUsesUpCalls(Next(s, calls[0]), calls[1..]);
    }
  }
}
