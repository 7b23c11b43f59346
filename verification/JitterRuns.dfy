/** Whole runs of the jitter buffer: packets of any number of streams, interleaved in any
    way, and streams that are removed and start again. */
module JitterRuns {
  import opened Common
  import opened NackBitmap
  import opened RtpBuffer
  import opened RtpStream
  import opened NackHandler

  datatype Input = Arrives(arrival: Arrival) | Removed(ssrc: U32)

  /** The buffers after a run. */
  function StreamsAfter(run: seq<Input>): Streams {
    if run == [] then map[]
    else
      var before := StreamsAfter(run[..|run| - 1]);
      match run[|run| - 1]
      case Arrives(a) => before[a.packet.ssrc := Pushed(StreamOf(before, a.packet.ssrc), a.packet)]
      case Removed(ssrc) => before - {ssrc}
  }

  /** The packets of one stream that arrived since it was last removed. */
  function Current(run: seq<Input>, ssrc: U32): seq<Arrival> {
    if run == [] then []
    else
      var before := Current(run[..|run| - 1], ssrc);
      match run[|run| - 1]
      case Arrives(a) => if a.packet.ssrc == ssrc then before + [a] else before
      case Removed(r) => if r == ssrc then [] else before
  }

  /** However the streams interleave, each has the buffer of its own packets. */
  lemma {:induction false} StreamsAreIndependent(run: seq<Input>, ssrc: U32)
    ensures StreamOf(StreamsAfter(run), ssrc) == Fill(Current(run, ssrc))
  {
    if run != [] {
      var before, last := run[..|run| - 1], run[|run| - 1];
      StreamsAreIndependent(before, ssrc);
      if last.Arrives? && last.arrival.packet.ssrc == ssrc {
        assert Current(run, ssrc)[..|Current(run, ssrc)| - 1] == Current(before, ssrc);
      }
    }
  }

  /** An in-order stream within the span, of which the number is among the latest 2^16. */
  predicate WithinReach(own: seq<Arrival>, u: int) {
    && own != [] && InOrder(own) && Spans(own)
    && Newest(own).number - MOD < u <= Newest(own).number
  }

  /** In every run a packet is found exactly when it is live, and it is that packet. */
  lemma {:induction false} HeldExactlyWhenLive(run: seq<Input>, ssrc: U32, u: int)
    requires WithinReach(Current(run, ssrc), u)
    ensures var own, found := Current(run, ssrc), Lookup(StreamsAfter(run), ssrc, Slot(u));
      && (found.Some? <==> HasLive(own, u))
      && (forall i | 0 <= i < |own| && Live(own, i) && own[i].number == u :: found == Some(own[i].packet))
  {
    var own := Current(run, ssrc);
    StreamsAreIndependent(run, ssrc);
    RingIsExpiringQueue(own);
    SpanShrinks(own);
    SlotOfWindow(Fill(own).ring, own, u);
    forall i | 0 <= i < |own| && Live(own, i) && own[i].number == u
      ensures Fill(own).ring[Slot(u)] == Some(own[i].packet)
    {
      LiveIsSuffix(own, i);
    }
  }

  /** The latest true number, up to the newest, that a sequence number can stand for. */
  function TrueNumber(own: seq<Arrival>, sn: SN): int
    requires own != []
  {
    Newest(own).number - (Newest(own).number - sn) % MOD
  }

  lemma TrueNumberHasSlot(own: seq<Arrival>, sn: SN)
    requires own != []
    ensures Slot(TrueNumber(own, sn)) == sn
    ensures Newest(own).number - MOD < TrueNumber(own, sn) <= Newest(own).number
  {
    var n := Newest(own).number;
    var k := (n - sn) / MOD;
    assert TrueNumber(own, sn) == sn + k * MOD;
  }

  lemma {:induction false} InNotFound(streams: Streams, ssrc: U32, requested: seq<SN>, sn: SN)
    ensures sn in NotFound(streams, ssrc, requested) <==> sn in requested && Lookup(streams, ssrc, sn) == None
  {
    if requested != [] {
      InNotFound(streams, ssrc, requested[..|requested| - 1], sn);
    }
  }

  /** In every run, a requested number of an in-order stream is passed on to the sender
      exactly when the stream has no live packet of that number. */
  lemma {:induction false} PassedOnExactlyWhenNotLive(run: seq<Input>, ssrc: U32, requested: seq<SN>, sn: SN)
    requires var own := Current(run, ssrc); own != [] && InOrder(own) && Spans(own)
    requires sn in requested
    ensures var own := Current(run, ssrc);
      sn in NotFound(StreamsAfter(run), ssrc, requested) <==> !HasLive(own, TrueNumber(own, sn))
  {
    var own := Current(run, ssrc);
    TrueNumberHasSlot(own, sn);
    HeldExactlyWhenLive(run, ssrc, TrueNumber(own, sn));
    InNotFound(StreamsAfter(run), ssrc, requested, sn);
  }

  /** A stream that never sent anything, or was removed, has nothing to return. */
  lemma {:induction false} UnknownStreamHoldsNothing(run: seq<Input>, ssrc: U32, sn: SN)
    requires Current(run, ssrc) == []
    ensures Lookup(StreamsAfter(run), ssrc, sn) == None
  {
    StreamsAreIndependent(run, ssrc);
  }
}
