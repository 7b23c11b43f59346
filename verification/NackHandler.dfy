/** The jitter buffers of all streams, and the handler that answers a NACK from
    them and forwards what they do not hold. */
module NackHandler {
  import opened Common
  import opened NackBitmap
  import opened RtpBuffer

  type Streams = map<U32, State>

  function StreamOf(streams: Streams, ssrc: U32): State {
    if ssrc in streams then streams[ssrc] else Fresh()
  }

  function Lookup(streams: Streams, ssrc: U32, sn: SN): Option<Packet> {
    StreamOf(streams, ssrc).ring[sn]
  }

  /** Every packet sits in the slot of its number, in the buffer of its stream. */
  predicate Labelled(s: State, ssrc: U32) {
    && (s.initialized ==> s.ssrc == ssrc)
    && forall k: SN :: s.ring[k].Some? ==> s.ring[k].value.sn == k && s.ring[k].value.ssrc == ssrc
  }

  ghost predicate AllLabelled(streams: Streams) {
    forall k | k in streams :: Labelled(streams[k], k)
  }

  lemma {:induction false} ClearingOnlyRemoves(s: State, ts: U32, i: SN, sn: SN, k: SN)
    ensures ClearFrom(s, ts, i, sn).ring[k] in {None, s.ring[k]}
    decreases Sub(sn, i)
  {
    if i != sn {
      match s.ring[i]
      case None => ClearingOnlyRemoves(s, ts, Add(i, 1), sn, k);
      case Some(p) => ClearingOnlyRemoves(Without(s, i, p), ts, Add(i, 1), sn, k);
    }
  }

  lemma PushKeepsLabels(s: State, p: Packet)
    requires Labelled(s, p.ssrc)
    ensures Labelled(Pushed(s, p), p.ssrc)
  {
    PushRemembers(s, p);
    var t := Stored(s, p);
    forall k: SN ensures Pushed(s, p).ring[k] in {None, t.ring[k]} {
      ClearingOnlyRemoves(t, p.ts, Add(t.lastClearSN, 1), p.sn, k);
    }
  }

  lemma UpdateTwice(streams: Streams, ssrc: U32, s: State, t: State)
    ensures streams[ssrc := s][ssrc := t] == streams[ssrc := t]
  {
  }

  lemma PushKeepsAllLabels(streams: Streams, p: Packet)
    requires AllLabelled(streams) && p.ssrc in streams
    ensures AllLabelled(streams[p.ssrc := Pushed(streams[p.ssrc], p)])
  {
    PushKeepsLabels(streams[p.ssrc], p);
  }

  // -----------------------------------------------------------------------
  // Splitting a request
  // -----------------------------------------------------------------------

  function Found(streams: Streams, ssrc: U32, requested: seq<SN>): seq<Packet> {
    if requested == [] then []
    else
      var p := Lookup(streams, ssrc, requested[|requested| - 1]);
      Found(streams, ssrc, requested[..|requested| - 1]) + if p == None then [] else [p.value]
  }

  function NotFound(streams: Streams, ssrc: U32, requested: seq<SN>): seq<SN> {
    if requested == [] then []
    else
      var sn := requested[|requested| - 1];
      NotFound(streams, ssrc, requested[..|requested| - 1]) + if Lookup(streams, ssrc, sn) == None then [sn] else []
  }

  function Numbers(packets: seq<Packet>): seq<SN> {
    seq(|packets|, i requires 0 <= i < |packets| => packets[i].sn)
  }

  /** A single number is returned as its packet if that is held, and passed on if not. */
  lemma SplitSingle(streams: Streams, ssrc: U32, sn: SN)
    ensures var p := Lookup(streams, ssrc, sn);
      && Found(streams, ssrc, [sn]) == (if p.Some? then [p.value] else [])
      && NotFound(streams, ssrc, [sn]) == if p.Some? then [] else [sn]
  {
    assert [sn][..0] == [];
  }

  /** Splitting goes through the request in order. */
  lemma {:induction false} SplitAppends(streams: Streams, ssrc: U32, a: seq<SN>, b: seq<SN>)
    ensures Found(streams, ssrc, a + b) == Found(streams, ssrc, a) + Found(streams, ssrc, b)
    ensures NotFound(streams, ssrc, a + b) == NotFound(streams, ssrc, a) + NotFound(streams, ssrc, b)
  {
    if b == [] {
      assert a + b == a;
    } else {
      var c := b[..|b| - 1];
      assert (a + b)[..|a + b| - 1] == a + c;
      SplitAppends(streams, ssrc, a, c);
    }
  }

  /** The packets returned were requested and are held under their own number and
      stream, and the numbers left over were requested and are not held. */
  lemma {:induction false} SplitIsSound(streams: Streams, ssrc: U32, requested: seq<SN>)
    requires ssrc in streams ==> Labelled(streams[ssrc], ssrc)
    ensures forall p | p in Found(streams, ssrc, requested) ::
      p.sn in requested && p.ssrc == ssrc && Lookup(streams, ssrc, p.sn) == Some(p)
    ensures forall sn | sn in NotFound(streams, ssrc, requested) :: sn in requested && Lookup(streams, ssrc, sn) == None
  {
    if requested != [] {
      SplitIsSound(streams, ssrc, requested[..|requested| - 1]);
    }
  }

  lemma NumbersAppend(packets: seq<Packet>, p: Packet)
    ensures Numbers(packets + [p]) == Numbers(packets) + [p.sn]
  {
  }

  /** Conservation: the requested numbers are exactly those of the returned packets
      and those not found, with multiplicity. */
  lemma {:induction false} RequestsAreConserved(streams: Streams, ssrc: U32, requested: seq<SN>)
    requires ssrc in streams ==> Labelled(streams[ssrc], ssrc)
    ensures multiset(requested) ==
            multiset(Numbers(Found(streams, ssrc, requested))) + multiset(NotFound(streams, ssrc, requested))
  {
    if requested != [] {
      var before, sn := requested[..|requested| - 1], requested[|requested| - 1];
      assert requested == before + [sn];
      assert multiset(requested) == multiset(before) + multiset{sn};
      RequestsAreConserved(streams, ssrc, before);
      SplitOneMore(streams, ssrc, before, sn);
    }
  }

  lemma SplitOneMore(streams: Streams, ssrc: U32, before: seq<SN>, sn: SN)
    requires ssrc in streams ==> Labelled(streams[ssrc], ssrc)
    ensures var one: multiset<SN>, held := multiset{sn}, Lookup(streams, ssrc, sn).Some?;
      && multiset(Numbers(Found(streams, ssrc, before + [sn]))) ==
         multiset(Numbers(Found(streams, ssrc, before))) + (if held then one else multiset{})
      && multiset(NotFound(streams, ssrc, before + [sn])) ==
         multiset(NotFound(streams, ssrc, before)) + (if held then multiset{} else one)
  {
    assert (before + [sn])[..|before|] == before;
    var p := Lookup(streams, ssrc, sn);
    if p.Some? {
      NumbersAppend(Found(streams, ssrc, before), p.value);
      assert NotFound(streams, ssrc, before + [sn]) == NotFound(streams, ssrc, before);
    } else {
      assert Found(streams, ssrc, before + [sn]) == Found(streams, ssrc, before);
    }
  }

  lemma {:induction false} NotFoundStaysOrdered(streams: Streams, ssrc: U32, requested: seq<SN>, f: SN)
    requires Ordered(requested, f)
    ensures Ordered(NotFound(streams, ssrc, requested), f)
    ensures forall x | x in NotFound(streams, ssrc, requested) :: x in requested
  {
    if requested != [] {
      var before, sn := requested[..|requested| - 1], requested[|requested| - 1];
      NotFoundStaysOrdered(streams, ssrc, before, f);
      forall x | x in before ensures Sub(x, f) < Sub(sn, f) {
        var i :| 0 <= i < |before| && requested[i] == x;
      }
    }
  }

  ghost predicate Shows(buffer: Buffer, stream: State)
    reads buffer, buffer.packets
  {
    buffer.Valid() && buffer.View() == stream
  }

  class JitterBuffer {
    var buffers: map<U32, Buffer>
    ghost var streams: Streams
    ghost var repr: set<object>

    constructor ()
      ensures Valid() && fresh(repr) && streams == map[]
    {
      buffers, streams, repr := map[], map[], {};
    }

    ghost predicate Valid()
      reads this, repr
    {
      Mirrors() && AllLabelled(streams)
    }

    /** The buffers hold the streams and share nothing. */
    ghost predicate Mirrors()
      reads this, repr
    {
      && this !in repr && buffers.Keys == streams.Keys
      && (forall k | k in buffers ::
            buffers[k] in repr && buffers[k].packets in repr && Shows(buffers[k], streams[k]))
      && (forall j, k | j in buffers && k in buffers && j != k ::
            buffers[j] != buffers[k] && buffers[j].packets != buffers[k].packets)
    }

    method GetPacket(ssrc: U32, sn: SN) returns (p: Option<Packet>)
      requires Valid()
      ensures p == Lookup(streams, ssrc, sn)
      ensures p == if ssrc in buffers then buffers[ssrc].packets[sn] else None
    {
      if ssrc !in buffers {
        return None;
      }
      p := buffers[ssrc].GetPacket(sn);
    }

    method RemoveBuffer(ssrc: U32)
      requires Valid()
      modifies this
      ensures Valid() && repr == old(repr)
      ensures streams == old(streams) - {ssrc}
    {
      buffers := buffers - {ssrc};
      streams := streams - {ssrc};
    }

    method GetOrCreate(ssrc: U32)
      requires Valid()
      modifies this
      ensures Valid() && ssrc in buffers && fresh(repr - old(repr))
      ensures streams == old(streams)[ssrc := StreamOf(old(streams), ssrc)]
    {
      if ssrc !in buffers {
        AddBuffer(ssrc);
      }
    }

    method AddBuffer(ssrc: U32)
      requires Mirrors() && ssrc !in buffers
      modifies this
      ensures Mirrors() && ssrc in buffers && fresh(repr - old(repr))
      ensures streams == old(streams)[ssrc := Fresh()]
    {
      var buffer := new Buffer();
      buffers := buffers[ssrc := buffer];
      streams := streams[ssrc := buffer.View()];
      repr := repr + {buffer, buffer.packets};
    }

    method PushRTP(p: Packet) returns (nack: Option<Nack>)
      requires Valid()
      modifies this, repr
      ensures Valid() && fresh(repr - old(repr))
      ensures var s := StreamOf(old(streams), p.ssrc);
        streams == old(streams)[p.ssrc := Pushed(s, p)] && Answers(nack, s, p)
      ensures Lookup(streams, p.ssrc, p.sn) == Some(p)
      ensures nack.Some? ==> nack.value.senderSSRC == nack.value.mediaSSRC == p.ssrc
    {
      PushRemembers(StreamOf(streams, p.ssrc), p);
      GetOrCreate(p.ssrc);
      PushKeepsAllLabels(streams, p);
      UpdateTwice(old(streams), p.ssrc, streams[p.ssrc], Pushed(streams[p.ssrc], p));
      nack := PushTracked(p);
    }

    method PushTracked(p: Packet) returns (nack: Option<Nack>)
      requires Mirrors() && p.ssrc in buffers
      modifies this`streams, buffers[p.ssrc], buffers[p.ssrc].packets
      ensures Mirrors()
      ensures streams == old(streams)[p.ssrc := Pushed(old(streams)[p.ssrc], p)]
      ensures Answers(nack, old(streams)[p.ssrc], p)
    {
      nack := buffers[p.ssrc].Push(p);
      streams := streams[p.ssrc := Pushed(streams[p.ssrc], p)];
    }
  }

  /** The packets are those held of what was requested, and the pairs denote the rest. */
  predicate Answered(packets: seq<Packet>, pairs: seq<NackPair>, streams: Streams, ssrc: U32, requested: seq<SN>) {
    && packets == Found(streams, ssrc, requested)
    && Denoted(pairs) == NotFound(streams, ssrc, requested)
    && (pairs == [] <==> Denoted(pairs) == [])
  }

  /** Answers one pair of a NACK. */
  method HandlePair(jitterBuffer: JitterBuffer, ssrc: U32, pair: NackPair,
                    packets: seq<Packet>, nacks: seq<NackPair>, ghost requested: seq<SN>)
    returns (rtpPackets: seq<Packet>, actualNacks: seq<NackPair>)
    requires jitterBuffer.Valid() && Answered(packets, nacks, jitterBuffer.streams, ssrc, requested)
    ensures Answered(rtpPackets, actualNacks, jitterBuffer.streams, ssrc, requested + PacketList(pair))
  {
    var found, notFound := Retrieve(jitterBuffer, ssrc, PacketList(pair));
    SplitAppends(jitterBuffer.streams, ssrc, requested, PacketList(pair));
    rtpPackets, actualNacks := packets + found, nacks;
    if |notFound| > 0 {
      NotFoundIsCompact(jitterBuffer.streams, ssrc, pair);
      actualNacks := AppendPair(nacks, notFound);
    }
  }

  /** Answers a NACK for a stream. */
  method HandleNack(jitterBuffer: JitterBuffer, nack: Nack) returns (rtpPackets: seq<Packet>, forward: Option<Nack>)
    requires jitterBuffer.Valid()
    ensures var requested := Denoted(nack.nacks);
      var rest := NotFound(jitterBuffer.streams, nack.mediaSSRC, requested);
      && rtpPackets == Found(jitterBuffer.streams, nack.mediaSSRC, requested)
      && (forward == None <==> rest == [])
      && (forward.Some? ==>
            && Denoted(forward.value.nacks) == rest
            && forward.value.mediaSSRC == nack.mediaSSRC && forward.value.senderSSRC == nack.senderSSRC)
  {
    ghost var streams, ssrc := jitterBuffer.streams, nack.mediaSSRC;
    var actualNacks := [];
    rtpPackets := [];
    for n := 0 to |nack.nacks|
      invariant Answered(rtpPackets, actualNacks, streams, ssrc, Denoted(nack.nacks[..n]))
    {
      assert nack.nacks[..n + 1] == nack.nacks[..n] + [nack.nacks[n]];
      DenotedGrows(nack.nacks[..n], nack.nacks[n]);
      rtpPackets, actualNacks := HandlePair(
        jitterBuffer, nack.mediaSSRC, nack.nacks[n], rtpPackets, actualNacks, Denoted(nack.nacks[..n]));
    }
    assert nack.nacks[..|nack.nacks|] == nack.nacks;
    if |actualNacks| == 0 {
      return rtpPackets, None;
    }
    return rtpPackets, Some(Nack(nack.senderSSRC, nack.mediaSSRC, actualNacks));
  }

  /** Appends a pair that requests one more compact list. */
  method AppendPair(pairs: seq<NackPair>, rest: seq<SN>) returns (grown: seq<NackPair>)
    requires rest != [] && Compact(rest)
    ensures grown != [] && Denoted(grown) == Denoted(pairs) + rest
  {
    var pair := CreateNackPair(rest);
    DenotedGrows(pairs, pair);
    grown := pairs + [pair];
  }

  lemma NotFoundIsCompact(streams: Streams, ssrc: U32, pair: NackPair)
    requires NotFound(streams, ssrc, PacketList(pair)) != []
    ensures Compact(NotFound(streams, ssrc, PacketList(pair)))
  {
    PacketListIsOrdered(pair);
    NotFoundStaysOrdered(streams, ssrc, PacketList(pair), pair.packetID);
    OrderedIsCompact(NotFound(streams, ssrc, PacketList(pair)), pair.packetID);
  }

  /** The packets of one pair that are held, and the numbers that are not. */
  method Retrieve(jitterBuffer: JitterBuffer, ssrc: U32, nackPackets: seq<SN>)
    returns (found: seq<Packet>, notFound: seq<SN>)
    requires jitterBuffer.Valid()
    ensures found == Found(jitterBuffer.streams, ssrc, nackPackets)
    ensures notFound == NotFound(jitterBuffer.streams, ssrc, nackPackets)
  {
    found, notFound := [], [];
    for i := 0 to |nackPackets|
      invariant found == Found(jitterBuffer.streams, ssrc, nackPackets[..i])
      invariant notFound == NotFound(jitterBuffer.streams, ssrc, nackPackets[..i])
    {
      assert nackPackets[..i + 1][..i] == nackPackets[..i];
      var rtpPacket := jitterBuffer.GetPacket(ssrc, nackPackets[i]);
      if rtpPacket == None {
        notFound := notFound + [nackPackets[i]];
        continue;
      }
      found := found + [rtpPacket.value];
    }
    assert nackPackets[..|nackPackets|] == nackPackets;
  }
}
