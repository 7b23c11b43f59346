/** The ring buffer of recent RTP packets of one stream, with time-based expiry
    and NACK generation. */
module RtpBuffer {
  import opened Common
  import opened NackBitmap

  type U32 = x: int | 0 <= x < 0x1_0000_0000

  /** Two seconds of the 90 kHz video clock. */
  const MAX_TS_DELTA := 180000

  /** A packet identifier and its bitmap cover this many numbers. */
  const NACK_PAIR_SIZE := 17

  datatype Packet = Packet(sn: SN, ts: U32, ssrc: U32, payload: seq<bv8>)

  type Ring = r: seq<Option<Packet>> | |r| == MOD witness seq(MOD, _ => None)

  datatype Nack = Nack(senderSSRC: U32, mediaSSRC: U32, nacks: seq<NackPair>)

  /** The fields of a buffer, as a value. */
  datatype State = State(
    ring: Ring, initialized: bool, lastPushSN: SN, lastNackSN: SN, lastClearTS: U32, lastClearSN: SN, ssrc: U32)

  /** The state of a new buffer. */
  function Fresh(): State { State(seq(MOD, _ => None), false, 0, 0, 0, 0, 0) }

  function TsDelta(ts1: U32, ts2: U32): U32 {
    if ts1 > ts2 then ts1 - ts2 else ts2 - ts1
  }

  // -----------------------------------------------------------------------
  // Missing numbers
  // -----------------------------------------------------------------------

  /** The distance of two timestamps, in either direction, without wrapping. */
  lemma TsDeltaIsDistance(a: U32, b: U32)
    ensures TsDelta(a, b) == TsDelta(b, a) && (a >= b ==> TsDelta(a, b) == a - b)
  {
  }

  /** The empty slots among the n slots from start on, in order, wrapping around. */
  function Missing(ring: Ring, start: SN, n: nat): seq<SN>
    requires n <= MOD
    decreases ring, n
  {
    if n == 0 then []
    else Missing(ring, start, n - 1) + if ring[Add(start, n - 1)] == None then [Add(start, n - 1)] else []
  }

  lemma {:induction false} MissingSplits(ring: Ring, start: SN, m: nat, n: nat)
    requires m + n <= MOD
    ensures Missing(ring, start, m + n) == Missing(ring, start, m) + Missing(ring, Add(start, m), n)
  {
    if n > 0 {
      MissingSplits(ring, start, m, n - 1);
      AddThenAdd(start, m, n - 1);
    }
  }

  lemma {:induction false} InMissing(ring: Ring, start: SN, n: nat, x: SN)
    requires n <= MOD
    ensures x in Missing(ring, start, n) <==> Sub(x, start) < n && ring[x] == None
  {
    if n > 0 {
      InMissing(ring, start, n - 1, x);
      SubThenAdd(x, start);
      AddThenSub(start, n - 1);
    }
  }

  /** No number is listed twice, however the range wraps. */
  lemma {:induction false} MissingOnce(ring: Ring, start: SN, n: nat, i: nat, j: nat)
    requires n <= MOD && i < j < |Missing(ring, start, n)|
    ensures Missing(ring, start, n)[i] != Missing(ring, start, n)[j]
  {
    var before := Missing(ring, start, n - 1);
    if j < |before| {
      MissingOnce(ring, start, n - 1, i, j);
    } else {
      InMissing(ring, start, n - 1, before[i]);
      AddThenSub(start, n - 1);
    }
  }

  /** A bitmap whose bits are the empty slots after its packet lists those slots. */
  lemma {:induction false} ListedIsMissing(ring: Ring, pair: NackPair, reach: nat, k: nat)
    requires reach <= 16 && k <= 16
    requires forall j | 0 <= j < 16 ::
      pair.lostPackets[j] <==> j < reach && ring[Add(pair.packetID, j + 1)] == None
    ensures ListedBelow(pair, k) == Missing(ring, Add(pair.packetID, 1), if k < reach then k else reach)
  {
    if k > 0 {
      ListedIsMissing(ring, pair, reach, k - 1);
      AddThenAdd(pair.packetID, 1, k - 1);
    }
  }

  /** A window without losses up to its seen-th number, whose losses from there on
      a pair carries, is what the pair lists. */
  lemma PairCoversWindow(ring: Ring, start: SN, seen: nat, reach: nat, pair: NackPair)
    requires reach <= 16 && seen + 1 + reach <= MOD
    requires pair.packetID == Add(start, seen) && ring[pair.packetID] == None && Missing(ring, start, seen) == []
    requires forall j | 0 <= j < 16 ::
      pair.lostPackets[j] <==> j < reach && ring[Add(pair.packetID, j + 1)] == None
    ensures PacketList(pair) == Missing(ring, start, seen + 1 + reach)
    ensures |PacketList(pair)| == 1 + |Missing(ring, Add(pair.packetID, 1), reach)|
  {
    var rest := Missing(ring, Add(pair.packetID, 1), reach);
    assert ListedBelow(pair, 16) == rest by {
      ListedIsMissing(ring, pair, reach, 16);
    }
    calc {
      Missing(ring, start, seen + 1 + reach);
      { MissingSplits(ring, start, seen, 1 + reach); }
      Missing(ring, pair.packetID, 1 + reach);
      { MissingSplits(ring, pair.packetID, 1, reach); }
      Missing(ring, pair.packetID, 1) + rest;
      { assert Missing(ring, pair.packetID, 1) == [pair.packetID]; }
      [pair.packetID] + rest;
    }
  }

  lemma DistanceLeft(from: SN, end: SN, done: nat)
    requires done <= Sub(end, from)
    ensures Sub(end, Add(from, done)) == Sub(end, from) - done
  {
  }

  /** Appending a window's pair, if anything is lost in it, extends what the pairs denote. */
  lemma WindowGrows(ring: Ring, from: SN, m: nat, n: nat, pairs: seq<NackPair>, pair: NackPair)
    requires m + n <= MOD && Denoted(pairs) == Missing(ring, from, m)
    requires var missing := Missing(ring, Add(from, m), n); missing != [] ==> PacketList(pair) == missing
    ensures var missing := Missing(ring, Add(from, m), n);
      && Denoted(if missing != [] then pairs + [pair] else pairs) == Missing(ring, from, m + n)
      && |Missing(ring, from, m + n)| == |Denoted(pairs)| + |missing|
  {
    assert (pairs + [pair])[..|pairs|] == pairs;
    MissingSplits(ring, from, m, n);
  }

  // -----------------------------------------------------------------------
  // Pushing
  // -----------------------------------------------------------------------

  /** A packet cleared from its slot, which becomes the last one cleared. */
  function Without(s: State, i: SN, p: Packet): State {
    s.(ring := s.ring[i := None], lastClearTS := p.ts, lastClearSN := i)
  }

  /** Clears expired packets from slot i on, up to the first unexpired one or sn. */
  function ClearFrom(s: State, ts: U32, i: SN, sn: SN): State
    decreases Sub(sn, i)
  {
    if i == sn then s
    else match s.ring[i]
      case None => ClearFrom(s, ts, Add(i, 1), sn)
      case Some(p) =>
        if TsDelta(ts, p.ts) < MAX_TS_DELTA then s else ClearFrom(Without(s, i, p), ts, Add(i, 1), sn)
  }

  function Cleared(s: State, ts: U32, sn: SN): State {
    if TsDelta(ts, s.lastClearTS) >= MAX_TS_DELTA then ClearFrom(s, ts, Add(s.lastClearSN, 1), sn) else s
  }

  function Stored(s: State, p: Packet): State {
    var t := if s.initialized then s
      else s.(lastNackSN := p.sn, lastClearTS := p.ts, lastClearSN := Sub(p.sn, 1), ssrc := p.ssrc, initialized := true);
    t.(ring := t.ring[p.sn := Some(p)], lastPushSN := p.sn)
  }

  /** The state in which Push looks for losses. */
  function Swept(s: State, p: Packet): State { Cleared(Stored(s, p), p.ts, p.sn) }

  predicate WindowPassed(s: State, sn: SN) { Sub(sn, s.lastNackSN) >= NACK_PAIR_SIZE }

  function Pushed(s: State, p: Packet): State {
    var t := Swept(s, p);
    if WindowPassed(t, p.sn) then t.(lastNackSN := p.sn) else t
  }

  lemma {:induction false} ClearingSparesNewest(s: State, ts: U32, i: SN, sn: SN)
    ensures ClearFrom(s, ts, i, sn).ring[sn] == s.ring[sn]
    decreases Sub(sn, i)
  {
    if i != sn {
      match s.ring[i]
      case None => ClearingSparesNewest(s, ts, Add(i, 1), sn);
      case Some(p) => ClearingSparesNewest(Without(s, i, p), ts, Add(i, 1), sn);
    }
  }

  /** Two states that differ only in what has been cleared. */
  predicate SameOtherwise(s: State, t: State) {
    t == s.(ring := t.ring, lastClearSN := t.lastClearSN, lastClearTS := t.lastClearTS)
  }

  lemma {:induction false} ClearingChangesLittle(s: State, ts: U32, i: SN, sn: SN)
    ensures SameOtherwise(s, ClearFrom(s, ts, i, sn))
    decreases Sub(sn, i)
  {
    if i != sn {
      match s.ring[i]
      case None => ClearingChangesLittle(s, ts, Add(i, 1), sn);
      case Some(p) => ClearingChangesLittle(Without(s, i, p), ts, Add(i, 1), sn);
    }
  }

  /** A push keeps the packet in its slot, and the stream of the first packet. */
  lemma PushRemembers(s: State, p: Packet)
    ensures var t := Pushed(s, p);
      && t.ring[p.sn] == Some(p) && t.initialized && t.lastPushSN == p.sn
      && t.ssrc == (if s.initialized then s.ssrc else p.ssrc) == Swept(s, p).ssrc
  {
    var t := Stored(s, p);
    ClearingSparesNewest(t, p.ts, Add(t.lastClearSN, 1), p.sn);
    ClearingChangesLittle(t, p.ts, Add(t.lastClearSN, 1), p.sn);
  }

  /** A push answers with a NACK exactly when its window has passed and something in
      it is missing, and the NACK then lists what is missing. */
  predicate Answers(nack: Option<Nack>, s: State, p: Packet) {
    var t := Swept(s, p);
    var missing := Missing(t.ring, Sub(p.sn, NACK_PAIR_SIZE), NACK_PAIR_SIZE);
    && (nack.Some? <==> WindowPassed(t, p.sn) && missing != [])
    && (nack.Some? ==>
          && Denoted(nack.value.nacks) == missing
          && nack.value.senderSSRC == nack.value.mediaSSRC == t.ssrc)
  }

  class Buffer {
    const packets: array<Option<Packet>>
    var initialized: bool
    var lastPushSN: SN
    var lastNackSN: SN
    var lastClearTS: U32
    var lastClearSN: SN
    var ssrc: U32

    constructor ()
      ensures Valid() && fresh(packets)
      ensures View() == Fresh()
    {
      packets := new Option<Packet>[MOD](_ => None);
      initialized, lastPushSN, lastNackSN, lastClearTS, lastClearSN, ssrc := false, 0, 0, 0, 0, 0;
    }

    ghost predicate Valid() {
      packets.Length == MOD
    }

    ghost function View(): State
      requires Valid()
      reads this, packets
    {
      State(packets[..], initialized, lastPushSN, lastNackSN, lastClearTS, lastClearSN, ssrc)
    }

    method GetPacket(sn: SN) returns (p: Option<Packet>)
      requires Valid()
      ensures p == View().ring[sn]
    {
      p := packets[sn];
    }

    /** The bitmap of the losses after fsn, and their number. */
    method GetLossesAfter(fsn: SN, end: SN, ghost n: nat) returns (blp: Bitmap, lostPkts: nat)
      requires Valid() && n <= 16 && end == Add(fsn, n + 1)
      ensures lostPkts == |Missing(packets[..], Add(fsn, 1), n)|
      ensures forall j | 0 <= j < 16 :: blp[j] <==> j < n && packets[Add(fsn, j + 1)] == None
    {
      blp, lostPkts := ZERO, 0;
      var i := Add(fsn, 1);
      ghost var reach := 0;
      while i != end
        invariant 0 <= reach <= n && i == Add(fsn, reach + 1)
        invariant lostPkts == |Missing(packets[..], Add(fsn, 1), reach)|
        invariant forall j | 0 <= j < 16 :: blp[j] <==> j < reach && packets[Add(fsn, j + 1)] == None
        decreases n - reach
      {
        assert Add(Add(fsn, 1), reach) == i;
        if packets[i] == None {
          AddThenSub(fsn, reach + 1);
          blp := AddBLP(fsn, i, blp);
          lostPkts := lostPkts + 1;
        }
        i := Add(i, 1);
        reach := reach + 1;
      }
    }

    /** The pair for one window of at most 17 numbers, and how many are lost. */
    method GetNackPair(start: SN, end: SN) returns (pair: NackPair, lostPkts: nat)
      requires Valid() && Sub(end, start) <= NACK_PAIR_SIZE
      ensures var missing := Missing(packets[..], start, Sub(end, start));
        && lostPkts == |missing|
        && (lostPkts > 0 ==> PacketList(pair) == missing)
    {
      ghost var n := Sub(end, start);
      lostPkts := 0;
      var fsn: SN := 0;
      var i := start;
      ghost var seen := 0;
      while i != end
        invariant 0 <= seen <= n && i == Add(start, seen)
        invariant Missing(packets[..], start, seen) == []
        decreases n - seen
      {
        if packets[i] == None {
          fsn := i;
          lostPkts := lostPkts + 1;
          break;
        }
        i := Add(i, 1);
        seen := seen + 1;
      }
      if lostPkts == 0 {
        assert seen == n;
        return NackPair(0, ZERO), lostPkts;
      }
      var blp, more := GetLossesAfter(fsn, end, n - seen - 1);
      lostPkts := lostPkts + more;
      pair := NackPair(fsn, blp);
      PairCoversWindow(packets[..], start, seen, n - seen - 1, pair);
    }

    /** Appends the pair for one more window, if anything is lost in it. */
    method AppendNackPair(start: SN, end: SN, pairs: seq<NackPair>, ghost from: SN, ghost done: nat)
      returns (grown: seq<NackPair>, lostPkt: nat)
      requires Valid() && Sub(end, start) <= NACK_PAIR_SIZE && done + Sub(end, start) <= MOD
      requires start == Add(from, done) && Denoted(pairs) == Missing(packets[..], from, done)
      ensures Denoted(grown) == Missing(packets[..], from, done + Sub(end, start))
      ensures |Denoted(grown)| == |Denoted(pairs)| + lostPkt
    {
      var nackPair;
      nackPair, lostPkt := GetNackPair(start, end);
      WindowGrows(packets[..], from, done, Sub(end, start), pairs, nackPair);
      grown := if lostPkt > 0 then pairs + [nackPair] else pairs;
    }

    /** The pairs for a window of any size, and how many numbers are lost. */
    method GetNackPairs(from: SN, end: SN) returns (pairs: seq<NackPair>, totalLostPkt: nat)
      requires Valid()
      ensures var missing := Missing(packets[..], from, Sub(end, from));
        Denoted(pairs) == missing && totalLostPkt == |missing|
    {
      var start := from;
      var delta := Sub(end, start);
      var size := delta / NACK_PAIR_SIZE;
      var arraySize := if delta % NACK_PAIR_SIZE > 0 then size + 1 else size;
      var lostPkt;
      totalLostPkt := 0;
      pairs := [];
      ghost var done := 0;
      for i := 0 to size
        invariant done == NACK_PAIR_SIZE * i && start == Add(from, done)
        invariant Denoted(pairs) == Missing(packets[..], from, done)
        invariant totalLostPkt == |Denoted(pairs)|
      {
        assert done + NACK_PAIR_SIZE <= delta && Add(start, NACK_PAIR_SIZE) == Add(from, done + NACK_PAIR_SIZE) by {
          AddThenAdd(from, done, NACK_PAIR_SIZE);
        }
        AddThenSub(start, NACK_PAIR_SIZE);
        pairs, lostPkt := AppendNackPair(start, Add(start, NACK_PAIR_SIZE), pairs, from, done);
        totalLostPkt := totalLostPkt + lostPkt;
        start := Add(start, NACK_PAIR_SIZE);
        done := done + NACK_PAIR_SIZE;
      }
      assert delta - done == delta % NACK_PAIR_SIZE;
      DistanceLeft(from, end, done);
      if arraySize > size {
        pairs, lostPkt := AppendNackPair(start, end, pairs, from, done);
        totalLostPkt := totalLostPkt + lostPkt;
      }
    }

    /** Clears the packets older than two seconds, oldest first. */
    method ClearOldPackets(ts: U32, sn: SN)
      requires Valid()
      modifies packets, this`lastClearTS, this`lastClearSN
      ensures View() == Cleared(old(View()), ts, sn)
    {
      var clearTS, clearSN := lastClearTS, lastClearSN;
      if TsDelta(ts, clearTS) >= MAX_TS_DELTA {
        var i := Add(clearSN, 1);
        while i != sn
          invariant ClearFrom(View(), ts, i, sn) == Cleared(old(View()), ts, sn)
          decreases Sub(sn, i)
        {
          var pkt := packets[i];
          if pkt == None {
            i := Add(i, 1);
            continue;
          }
          if TsDelta(ts, pkt.value.ts) < MAX_TS_DELTA {
            break;
          }
          ghost var before := View();
          lastClearTS := pkt.value.ts;
          lastClearSN := i;
          packets[i] := None;
          assert View() == Without(before, i, pkt.value);
          i := Add(i, 1);
        }
      }
    }

    method Push(p: Packet) returns (nack: Option<Nack>)
      requires Valid()
      modifies this, packets
      ensures View() == Pushed(old(View()), p)
      ensures Answers(nack, old(View()), p)
      ensures packets[p.sn] == Some(p) && ssrc == if old(initialized) then old(ssrc) else p.ssrc
      ensures nack.Some? ==> nack.value.senderSSRC == nack.value.mediaSSRC == ssrc
    {
      PushRemembers(View(), p);
      var sn := p.sn;
      if !initialized {
        lastNackSN := sn;
        lastClearTS := p.ts;
        lastClearSN := Sub(sn, 1);
        ssrc := p.ssrc;
        initialized := true;
      }
      packets[sn] := Some(p);
      lastPushSN := sn;
      assert View() == Stored(old(View()), p);
      ClearOldPackets(p.ts, sn);
      if Sub(sn, lastNackSN) >= NACK_PAIR_SIZE {
        var windowStart := Sub(sn, NACK_PAIR_SIZE);
        var windowEnd := sn;
        var nackPairs, lostPkts := GetNackPairs(windowStart, windowEnd);
        lastNackSN := sn;
        if lostPkts > 0 {
          return Some(Nack(ssrc, ssrc, nackPairs));
        }
      }
      return None;
    }
  }
}
