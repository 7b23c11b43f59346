/** Wrapping sequence numbers and the 16-bit loss bitmaps of a NACK pair (section
    6.2.1 of RFC 4585): the packet identifier is lost, and bit i says that the
    packet i + 1 after it is lost too. */
module NackBitmap {

  const MOD := 0x1_0000

  /** A 16-bit sequence number. */
  type SN = x: int | 0 <= x < MOD

  /** Addition and subtraction as Go does them on uint16. */
  function Add(a: SN, n: int): SN
    requires 0 <= n <= MOD
  {
    if a + n < MOD then a + n else a + n - MOD
  }

  function Sub(a: SN, b: SN): SN {
    if b <= a then a - b else a - b + MOD
  }

  lemma AddThenAdd(a: SN, m: int, n: int)
    requires 0 <= m && 0 <= n && m + n <= MOD
    ensures Add(Add(a, m), n) == Add(a, m + n)
  {
  }

  lemma AddThenSub(a: SN, n: int)
    requires 0 <= n < MOD
    ensures Sub(Add(a, n), a) == n
  {
  }

  lemma SubThenAdd(x: SN, a: SN)
    ensures Add(a, Sub(x, a)) == x
  {
  }

  /** A 16-bit word as its bits, lowest first, with the bitwise operators. */
  type Bitmap = b: seq<bool> | |b| == 16 witness seq(16, _ => false)

  function Or(a: Bitmap, b: Bitmap): Bitmap { seq(16, i requires 0 <= i < 16 => a[i] || b[i]) }

  function And(a: Bitmap, b: Bitmap): Bitmap { seq(16, i requires 0 <= i < 16 => a[i] && b[i]) }

  function Not(a: Bitmap): Bitmap { seq(16, i requires 0 <= i < 16 => !a[i]) }

  /** 1 << k; a shift by 16 or more leaves no bit, as in Go. */
  function OneShifted(k: nat): Bitmap { seq(16, i => i == k) }

  const ZERO: Bitmap := seq(16, _ => false)

  datatype NackPair = NackPair(packetID: SN, lostPackets: Bitmap)

  function CalcBLP(fsn: SN, sn: SN): Bitmap { OneShifted(Sub(Sub(sn, fsn), 1)) }

  function AddBLP(fsn: SN, missingSN: SN, blp: Bitmap): Bitmap { Or(blp, CalcBLP(fsn, missingSN)) }

  function SubBLP(fsn: SN, foundSN: SN, blp: Bitmap): Bitmap { And(blp, Not(CalcBLP(fsn, foundSN))) }

  // -----------------------------------------------------------------------
  // What a pair denotes
  // -----------------------------------------------------------------------

  /** The numbers that the lowest k bits of the bitmap denote, in order. */
  function ListedBelow(pair: NackPair, k: nat): seq<SN>
    requires k <= 16
  {
    if k == 0 then []
    else ListedBelow(pair, k - 1) + if pair.lostPackets[k - 1] then [Add(pair.packetID, k)] else []
  }

  /** The numbers that a pair requests, in order. */
  function PacketList(pair: NackPair): seq<SN> {
    [pair.packetID] + ListedBelow(pair, 16)
  }

  /** The numbers that a list of pairs requests, in order. */
  function Denoted(pairs: seq<NackPair>): seq<SN> {
    if pairs == [] then []
    else Denoted(pairs[..|pairs| - 1]) + PacketList(pairs[|pairs| - 1])
  }

  lemma DenotedGrows(pairs: seq<NackPair>, pair: NackPair)
    ensures Denoted(pairs + [pair]) == Denoted(pairs) + PacketList(pair)
  {
    assert (pairs + [pair])[..|pairs|] == pairs;
  }

  lemma {:induction false} InListedBelow(pair: NackPair, k: nat, x: SN)
    requires k <= 16
    ensures x in ListedBelow(pair, k) <==>
      var d := Sub(x, pair.packetID); 1 <= d <= k && pair.lostPackets[d - 1]
  {
    if k > 0 {
      InListedBelow(pair, k - 1, x);
      assert x == Add(pair.packetID, k) <==> Sub(x, pair.packetID) == k;
    }
  }

  /** RFC 4585: the packet identifier and, for each set bit i, the number i + 1 later. */
  predicate Requests(pair: NackPair, x: SN) {
    var d := Sub(x, pair.packetID);
    d == 0 || (d <= 16 && pair.lostPackets[d - 1])
  }

  lemma InPacketList(pair: NackPair, x: SN)
    ensures x in PacketList(pair) <==> Requests(pair, x)
  {
    InListedBelow(pair, 16, x);
    SubThenAdd(x, pair.packetID);
  }

  /** Adding a number to a bitmap adds exactly that number to the requests, and
      removing it removes exactly that number, as far as the bitmap reaches. */
  lemma AddAndSubBLP(fsn: SN, sn: SN, blp: Bitmap, x: SN)
    requires 1 <= Sub(sn, fsn) <= 16
    ensures x in PacketList(NackPair(fsn, AddBLP(fsn, sn, blp))) <==> x in PacketList(NackPair(fsn, blp)) || x == sn
    ensures x in PacketList(NackPair(fsn, SubBLP(fsn, sn, blp))) <==> x in PacketList(NackPair(fsn, blp)) && x != sn
  {
    InPacketList(NackPair(fsn, blp), x);
    InPacketList(NackPair(fsn, AddBLP(fsn, sn, blp)), x);
    InPacketList(NackPair(fsn, SubBLP(fsn, sn, blp)), x);
    SubThenAdd(x, fsn);
    SubThenAdd(sn, fsn);
    assert Sub(Sub(sn, fsn), 1) == Sub(sn, fsn) - 1;
  }

  // -----------------------------------------------------------------------
  // Building a pair
  // -----------------------------------------------------------------------

  /** The numbers of t ascend from f and stay within reach of it. */
  predicate Ascending(t: seq<SN>, f: SN, reach: nat) {
    && (forall i | 0 <= i < |t| :: 1 <= Sub(t[i], f) <= reach)
    && (forall i, j | 0 <= i < j < |t| :: Sub(t[i], f) < Sub(t[j], f))
  }

  /** A list that one pair can carry: it ascends from its first number and stays
      within 16 of it. */
  predicate Compact(s: seq<SN>) {
    s != [] && Ascending(s[1..], s[0], 16)
  }

  /** The number that bit j after f stands for is in t. */
  predicate Reaches(f: SN, j: nat, t: seq<SN>)
    requires j < 16
  {
    Add(f, j + 1) in t
  }

  /** The pair starts at the first number, and its bits are the later numbers that
      the bitmap can reach. */
  predicate Carries(pair: NackPair, s: seq<SN>)
    requires s != []
  {
    && pair.packetID == s[0]
    && forall k | 0 <= k < 16 :: pair.lostPackets[k] <==> Reaches(s[0], k, s[1..])
  }

  method CreateNackPair(sequenceNumbers: seq<SN>) returns (pair: NackPair)
    ensures sequenceNumbers == [] ==> pair == NackPair(0, ZERO)
    ensures sequenceNumbers != [] ==> Carries(pair, sequenceNumbers)
    ensures sequenceNumbers != [] ==> (PacketList(pair) == sequenceNumbers <==> Compact(sequenceNumbers))
  {
    var lostPkts := |sequenceNumbers|;
    if lostPkts == 0 {
      return NackPair(0, ZERO);
    }
    var fsn := sequenceNumbers[0];
    var blp := ZERO;
    var rest := sequenceNumbers[1..];
    for n := 0 to |rest|
      invariant forall k | 0 <= k < 16 :: blp[k] <==> Reaches(fsn, k, rest[..n])
    {
      AddReaches(fsn, rest, n, blp);
      blp := AddBLP(fsn, rest[n], blp);
    }
    assert rest[..|rest|] == rest;
    pair := NackPair(fsn, blp);
    CarriedExactly(pair, sequenceNumbers);
  }

  lemma AddReaches(fsn: SN, rest: seq<SN>, n: nat, blp: Bitmap)
    requires n < |rest|
    requires forall k | 0 <= k < 16 :: blp[k] <==> Reaches(fsn, k, rest[..n])
    ensures forall k | 0 <= k < 16 :: AddBLP(fsn, rest[n], blp)[k] <==> Reaches(fsn, k, rest[..n + 1])
  {
    assert rest[..n + 1] == rest[..n] + [rest[n]];
    var m := Sub(Sub(rest[n], fsn), 1);
    forall k | 0 <= k < 16 ensures AddBLP(fsn, rest[n], blp)[k] <==> Reaches(fsn, k, rest[..n + 1]) {
      assert rest[n] == Add(fsn, k + 1) <==> m == k;
    }
  }

  lemma FarthestIsLast(t: seq<SN>, f: SN, k: nat)
    requires 1 <= k <= 16 && Ascending(t, f, k) && Add(f, k) in t
    ensures t == t[..|t| - 1] + [Add(f, k)]
    ensures Ascending(t[..|t| - 1], f, k - 1)
    ensures forall j | 0 <= j < k - 1 :: Reaches(f, j, t) <==> Reaches(f, j, t[..|t| - 1])
  {
    var i :| 0 <= i < |t| && t[i] == Add(f, k);
    var last := |t| - 1;
    assert Sub(t[last], f) <= k == Sub(t[i], f);
    assert i == last;
    forall j | 0 <= j < last ensures Sub(t[j], f) <= k - 1 {
      assert Sub(t[j], f) < Sub(t[last], f);
    }
  }

  lemma {:induction false} ListsAscending(pair: NackPair, t: seq<SN>, k: nat)
    requires k <= 16 && Ascending(t, pair.packetID, k)
    requires forall j | 0 <= j < k :: pair.lostPackets[j] <==> Reaches(pair.packetID, j, t)
    ensures ListedBelow(pair, k) == t
  {
    var f := pair.packetID;
    if k == 0 {
      if t != [] {
        SomethingNeedsReach(t, f, k);
      }
    } else if pair.lostPackets[k - 1] {
      assert Reaches(f, k - 1, t);
      FarthestIsLast(t, f, k);
      ListsAscending(pair, t[..|t| - 1], k - 1);
      assert ListedBelow(pair, k) == t[..|t| - 1] + [Add(f, k)];
    } else {
      assert !Reaches(f, k - 1, t);
      ReachIsLess(t, f, k);
      ListsAscending(pair, t, k - 1);
    }
  }

  lemma SomethingNeedsReach(t: seq<SN>, f: SN, reach: nat)
    requires Ascending(t, f, reach) && t != []
    ensures reach >= 1
  {
    assert 1 <= Sub(t[0], f) <= reach;
  }

  lemma ReachIsLess(t: seq<SN>, f: SN, k: nat)
    requires 1 <= k <= 16 && Ascending(t, f, k) && Add(f, k) !in t
    ensures Ascending(t, f, k - 1)
  {
    forall i | 0 <= i < |t| ensures Sub(t[i], f) != k {
      SubThenAdd(t[i], f);
    }
  }

  lemma {:induction false} ListedAscends(pair: NackPair, k: nat)
    requires k <= 16
    ensures Ascending(ListedBelow(pair, k), pair.packetID, k)
  {
    if k > 0 {
      ListedAscends(pair, k - 1);
      AddThenSub(pair.packetID, k);
    }
  }

  /** A pair denotes compact lists only, and denotes the list it carries when that
      list is compact. */
  lemma CarriedExactly(pair: NackPair, s: seq<SN>)
    requires s != [] && Carries(pair, s)
    ensures PacketList(pair) == s <==> Compact(s)
  {
    if Compact(s) {
      ListsAscending(pair, s[1..], 16);
      assert s == [s[0]] + s[1..];
    }
    PacketListIsCompact(pair);
  }

  lemma PacketListIsCompact(pair: NackPair)
    ensures Compact(PacketList(pair))
  {
    ListedAscends(pair, 16);
    assert PacketList(pair)[1..] == ListedBelow(pair, 16);
  }

  /** The numbers of s are among the 17 from f on, in order. */
  predicate Ordered(s: seq<SN>, f: SN) {
    && (forall i | 0 <= i < |s| :: Sub(s[i], f) <= 16)
    && (forall i, j | 0 <= i < j < |s| :: Sub(s[i], f) < Sub(s[j], f))
  }

  lemma PacketListIsOrdered(pair: NackPair)
    ensures Ordered(PacketList(pair), pair.packetID)
  {
    var l, below := PacketList(pair), ListedBelow(pair, 16);
    ListedAscends(pair, 16);
    assert forall i | 1 <= i < |l| :: l[i] == below[i - 1];
  }

  lemma OrderedIsCompact(s: seq<SN>, f: SN)
    requires Ordered(s, f) && s != []
    ensures Compact(s)
  {
    var t := s[1..];
    forall i | 0 <= i < |t| ensures Sub(t[i], s[0]) == Sub(t[i], f) - Sub(s[0], f) && Sub(s[0], f) < Sub(t[i], f) {
      assert t[i] == s[i + 1];
    }
    forall i, j | 0 <= i < j < |t| ensures Sub(t[i], f) < Sub(t[j], f) {
      assert t[i] == s[i + 1] && t[j] == s[j + 1];
    }
  }
}
