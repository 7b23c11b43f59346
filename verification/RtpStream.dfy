/** Whole in-order runs of the ring buffer: losses of any length, sequence numbers
    that wrap any number of times, timestamps that never go back. */
module RtpStream {
  import opened Common
  import opened NackBitmap
  import opened RtpBuffer

  /** A packet with its true sequence number, of which it carries 16 bits. */
  datatype Arrival = Arrival(number: int, packet: Packet)

  function Slot(u: int): SN { u % MOD }

  lemma SlotNext(u: int)
    ensures Add(Slot(u), 1) == Slot(u + 1)
  {
  }

  lemma SlotInjective(u: int, v: int)
    requires -MOD < u - v < MOD && Slot(u) == Slot(v)
    ensures u == v
  {
  }

  lemma SlotsDiffer(u: int, v: int)
    requires -MOD < u - v < MOD && u != v
    ensures Slot(u) != Slot(v)
  {
  }

  lemma SlotDistance(u: int, v: int)
    ensures Sub(Slot(u), Slot(v)) == (u - v) % MOD
  {
  }

  predicate InOrder(h: seq<Arrival>) {
    && (forall i | 0 <= i < |h| :: h[i].packet.sn == Slot(h[i].number))
    && (forall i, j | 0 <= i < j < |h| :: h[i].number < h[j].number && h[i].packet.ts <= h[j].packet.ts)
  }

  /** The buffer after a run. */
  function Fill(h: seq<Arrival>): State {
    if h == [] then Fresh() else Pushed(Fill(h[..|h| - 1]), h[|h| - 1].packet)
  }

  // -----------------------------------------------------------------------
  // The expiring queue
  // -----------------------------------------------------------------------

  function Newest(h: seq<Arrival>): Arrival
    requires h != []
  {
    h[|h| - 1]
  }

  /** The i-th packet is within two seconds of the newest, at 90 kHz. */
  predicate Live(h: seq<Arrival>, i: nat)
    requires i < |h|
  {
    Newest(h).packet.ts - h[i].packet.ts < 180000
  }

  function FirstLiveFrom(h: seq<Arrival>, i: nat): (f: nat)
    requires i < |h|
    ensures i <= f < |h| && Live(h, f) && forall k | i <= k < f :: !Live(h, k)
    decreases |h| - i
  {
    if Live(h, i) then i else FirstLiveFrom(h, i + 1)
  }

  function FirstLive(h: seq<Arrival>): nat
    requires h != []
  {
    FirstLiveFrom(h, 0)
  }

  /** The number of the last packet before the g-th; before the first comes the
      number just before it. */
  function NumberBefore(h: seq<Arrival>, g: nat): int
    requires g < |h|
  {
    if g == 0 then h[0].number - 1 else h[g - 1].number
  }

  function TsBefore(h: seq<Arrival>, g: nat): U32
    requires g < |h|
  {
    if g == 0 then h[0].packet.ts else h[g - 1].packet.ts
  }

  /** How many numbers there are from the last packet that has expired before the
      j-th arrives, up to the j-th. */
  function SpanAt(h: seq<Arrival>, j: nat): int
    requires 1 <= j < |h|
  {
    h[j].number - NumberBefore(h[..j], FirstLive(h[..j]))
  }

  /** From the last expired packet to each next one, the numbers span at most 2^16. */
  predicate Spans(h: seq<Arrival>) {
    forall j | 1 <= j < |h| :: SpanAt(h, j) <= MOD
  }

  /** The ring holds the packets from the g-th on, each in its slot, and nothing else. */
  predicate Holds(ring: Ring, h: seq<Arrival>, g: nat) {
    && (forall i | g <= i < |h| :: ring[h[i].packet.sn] == Some(h[i].packet))
    && (forall k: SN | ring[k].Some? :: exists i :: g <= i < |h| && h[i].packet.sn == k)
  }

  /** The buffer has cleared exactly the packets before the g-th. */
  predicate ClearedTo(s: State, h: seq<Arrival>, g: nat) {
    && g < |h|
    && Holds(s.ring, h, g)
    && s.lastClearSN == Slot(NumberBefore(h, g)) && s.lastClearTS == TsBefore(h, g)
  }

  lemma {:induction false} NumberBetween(h: seq<Arrival>, g: nat, i: nat)
    requires InOrder(h) && g <= i < |h|
    ensures NumberBefore(h, g) < h[i].number <= Newest(h).number
  {
  }

  /** The slot of a number that no packet from the g-th on carries is empty. */
  lemma {:induction false} GapIsEmpty(ring: Ring, h: seq<Arrival>, g: nat, u: int)
    requires InOrder(h) && g < |h| && Holds(ring, h, g)
    requires Newest(h).number - MOD < u <= Newest(h).number
    requires Newest(h).number - NumberBefore(h, g) <= MOD
    requires forall i | g <= i < |h| :: h[i].number != u
    ensures ring[Slot(u)] == None
  {
    if ring[Slot(u)].Some? {
      var i :| g <= i < |h| && h[i].packet.sn == Slot(u);
      NumberBetween(h, g, i);
      SlotInjective(h[i].number, u);
    }
  }

  lemma {:induction false} PopKeepsHolding(ring: Ring, h: seq<Arrival>, g: nat)
    requires InOrder(h) && g + 1 < |h| && Holds(ring, h, g)
    requires Newest(h).number - NumberBefore(h, g) <= MOD
    ensures Holds(ring[h[g].packet.sn := None], h, g + 1)
  {
    forall i | g + 1 <= i < |h| ensures h[i].packet.sn != h[g].packet.sn {
      assert h[i].number <= Newest(h).number;
      if Slot(h[i].number) == Slot(h[g].number) {
        SlotInjective(h[i].number, h[g].number);
      }
    }
  }

  predicate IsFirstLive(h: seq<Arrival>, g: nat, f: nat) {
    g <= f < |h| && Live(h, f) && forall k | g <= k < f :: !Live(h, k)
  }

  /** The clearing loop passes over numbers that carry no packet. */
  lemma {:induction false} SkipsGap(s: State, h: seq<Arrival>, g: nat, u: int)
    requires InOrder(h) && ClearedTo(s, h, g)
    requires NumberBefore(h, g) < u <= h[g].number && Newest(h).number - NumberBefore(h, g) <= MOD
    ensures var ts, sn := Newest(h).packet.ts, Newest(h).packet.sn;
      ClearFrom(s, ts, Slot(u), sn) == ClearFrom(s, ts, h[g].packet.sn, sn)
    decreases h[g].number - u
  {
    if u < h[g].number {
      NumberBetween(h, g, |h| - 1);
      assert h[g].number <= Newest(h).number;
      SlotsDiffer(u, Newest(h).number);
      forall i | g <= i < |h| ensures h[i].number != u {
        assert h[g].number <= h[i].number;
      }
      GapIsEmpty(s.ring, h, g, u);
      SlotNext(u);
      SkipsGap(s, h, g, u + 1);
    }
  }

  /** The state of the clearing loop once it has arrived at a number. */
  function ClearAt(s: State, h: seq<Arrival>, i: SN): State
    requires h != []
  {
    ClearFrom(s, Newest(h).packet.ts, i, Newest(h).packet.sn)
  }

  lemma {:induction false} StopsAtLive(s: State, h: seq<Arrival>, g: nat)
    requires InOrder(h) && ClearedTo(s, h, g) && Live(h, g)
    ensures ClearAt(s, h, h[g].packet.sn) == s
  {
  }

  lemma {:induction false} ClearsOne(s: State, h: seq<Arrival>, g: nat)
    requires InOrder(h) && ClearedTo(s, h, g) && !Live(h, g)
    requires Newest(h).number - NumberBefore(h, g) <= MOD
    ensures var t := Without(s, h[g].packet.sn, h[g].packet);
      && ClearAt(s, h, h[g].packet.sn) == ClearAt(t, h, Add(h[g].packet.sn, 1))
      && ClearedTo(t, h, g + 1) && t.lastClearSN == h[g].packet.sn
  {
    assert g < |h| - 1;
    SlotsDiffer(h[g].number, Newest(h).number);
    PopKeepsHolding(s.ring, h, g);
  }

  /** The clearing loop, started after the last cleared packet, stops having
      cleared exactly the expired packets. */
  lemma {:induction false} ClearsExpired(s: State, h: seq<Arrival>, g: nat, f: nat)
    requires InOrder(h) && ClearedTo(s, h, g) && IsFirstLive(h, g, f)
    requires Newest(h).number - NumberBefore(h, g) <= MOD
    ensures ClearedTo(ClearAt(s, h, Add(s.lastClearSN, 1)), h, f)
    decreases f - g
  {
    SkipsToNext(s, h, g);
    if g == f {
      StopsAtLive(s, h, g);
    } else {
      var t := Without(s, h[g].packet.sn, h[g].packet);
      NextFirstLive(h, g, f);
      ClearsOne(s, h, g);
      ClearsExpired(t, h, g + 1, f);
    }
  }

  lemma {:induction false} SkipsToNext(s: State, h: seq<Arrival>, g: nat)
    requires InOrder(h) && ClearedTo(s, h, g) && Newest(h).number - NumberBefore(h, g) <= MOD
    ensures ClearAt(s, h, Add(s.lastClearSN, 1)) == ClearAt(s, h, h[g].packet.sn)
  {
    SlotNext(NumberBefore(h, g));
    SkipsGap(s, h, g, NumberBefore(h, g) + 1);
  }

  lemma {:induction false} NextFirstLive(h: seq<Arrival>, g: nat, f: nat)
    requires InOrder(h) && IsFirstLive(h, g, f) && g < f
    ensures !Live(h, g) && IsFirstLive(h, g + 1, f) && NumberBefore(h, g) <= NumberBefore(h, g + 1)
  {
  }

  /** Once the newest packet is stored, one sweep leaves exactly the live packets. */
  lemma {:induction false} SweepClearsExpired(s: State, h: seq<Arrival>, g: nat)
    requires InOrder(h) && ClearedTo(s, h, g) && g <= FirstLive(h)
    requires Newest(h).number - NumberBefore(h, g) <= MOD
    ensures var t := Cleared(s, Newest(h).packet.ts, Newest(h).packet.sn);
      ClearedTo(t, h, FirstLive(h))
  {
    if TsDelta(Newest(h).packet.ts, s.lastClearTS) >= MAX_TS_DELTA {
      ClearsExpired(s, h, g, FirstLive(h));
    } else {
      assert Live(h, g);
    }
  }

  lemma {:induction false} StoreKeepsHolding(s: State, h: seq<Arrival>, g: nat, a: Arrival)
    requires InOrder(h + [a]) && ClearedTo(s, h, g) && s.initialized
    requires a.number - NumberBefore(h, g) <= MOD
    ensures ClearedTo(Stored(s, a.packet), h + [a], g)
  {
    var k := h + [a];
    var ring := Stored(s, a.packet).ring;
    forall i | g <= i < |h| ensures h[i].packet.sn != a.packet.sn {
      assert k[i] == h[i] && k[|h|] == a;
      NumberBetween(k, g, i);
      assert NumberBefore(k, g) == NumberBefore(h, g);
      if Slot(h[i].number) == Slot(a.number) {
        SlotInjective(h[i].number, a.number);
      }
    }
    assert forall i | g <= i < |k| :: ring[k[i].packet.sn] == Some(k[i].packet);
    forall x: SN | ring[x].Some? ensures exists i :: g <= i < |k| && k[i].packet.sn == x {
      if x == a.packet.sn {
        assert k[|h|].packet.sn == x;
      } else {
        var i :| g <= i < |h| && h[i].packet.sn == x;
        assert k[i].packet.sn == x;
      }
    }
  }

  lemma {:induction false} ExpiredStaysExpired(h: seq<Arrival>, a: Arrival)
    requires h != [] && InOrder(h + [a])
    ensures FirstLive(h) <= FirstLive(h + [a])
  {
    var k, f := h + [a], FirstLive(h + [a]);
    assert k[|h|] == a;
    if f < |h| {
      assert k[f] == h[f] && Newest(h) == k[|h| - 1];
      assert Live(h, f);
    }
  }

  /** The buffer of a run belongs to the stream of its first packet. */
  lemma {:induction false} FillNamesStream(h: seq<Arrival>)
    requires h != []
    ensures Fill(h).initialized && Fill(h).ssrc == h[0].packet.ssrc && Fill(h).lastPushSN == Newest(h).packet.sn
  {
    PushRemembers(Fill(h[..|h| - 1]), Newest(h).packet);
    if |h| > 1 {
      FillNamesStream(h[..|h| - 1]);
    }
  }

  lemma FirstSweep(a: Arrival)
    requires InOrder([a])
    ensures ClearedTo(Swept(Fresh(), a.packet), [a], FirstLive([a]))
  {
    var s := Stored(Fresh(), a.packet);
    SlotDistance(a.number, 1);
    assert s.lastClearSN == Slot(a.number - 1);
    assert [a][0].packet.sn == a.packet.sn;
    SweepClearsExpired(s, [a], 0);
  }

  lemma {:induction false} NextSweep(s: State, h: seq<Arrival>, a: Arrival)
    requires h != [] && InOrder(h + [a]) && ClearedTo(s, h, FirstLive(h)) && s.initialized
    requires a.number - NumberBefore(h, FirstLive(h)) <= MOD
    ensures ClearedTo(Swept(s, a.packet), h + [a], FirstLive(h + [a]))
  {
    StoreKeepsHolding(s, h, FirstLive(h), a);
    ExpiredStaysExpired(h, a);
    SweepClearsExpired(Stored(s, a.packet), h + [a], FirstLive(h));
  }

  /** A run without its newest packet is again such a run. */
  lemma {:induction false} RunBefore(h: seq<Arrival>)
    requires |h| > 1 && InOrder(h) && Spans(h)
    ensures var before := h[..|h| - 1];
      && InOrder(before) && Spans(before) && before + [Newest(h)] == h
      && Newest(h).number - NumberBefore(before, FirstLive(before)) <= MOD
  {
    var before := h[..|h| - 1];
    forall j | 1 <= j < |before| ensures SpanAt(before, j) <= MOD {
      assert before[..j] == h[..j] && SpanAt(h, j) <= MOD;
    }
    assert SpanAt(h, |h| - 1) <= MOD;
  }

  /** After every push the wrapping ring holds exactly the pushed packets that are
      within two seconds of the newest, each in its slot: it is a plain expiring
      queue. The same holds when Push looks for losses. */
  lemma {:induction false} RingIsExpiringQueue(h: seq<Arrival>)
    requires h != [] && InOrder(h) && Spans(h)
    ensures ClearedTo(Swept(Fill(h[..|h| - 1]), Newest(h).packet), h, FirstLive(h))
    ensures ClearedTo(Fill(h), h, FirstLive(h))
  {
    if |h| == 1 {
      assert h == [Newest(h)] && h[..0] == [];
      FirstSweep(Newest(h));
    } else {
      RunBefore(h);
      RingIsExpiringQueue(h[..|h| - 1]);
      FillNamesStream(h[..|h| - 1]);
      NextSweep(Fill(h[..|h| - 1]), h[..|h| - 1], Newest(h));
    }
  }

  /** Without the bound on the span the ring is no expiring queue: in every in-order
      run a live packet is overwritten by the one a full cycle later. */
  lemma {:induction false} OverrunLosesPacket(h: seq<Arrival>, i: nat)
    requires InOrder(h) && i < |h| - 1 && Newest(h).number - h[i].number == MOD && Live(h, i)
    ensures SpanAt(h, |h| - 1) > MOD
    ensures Fill(h).ring[h[i].packet.sn] == Some(Newest(h).packet)
    ensures h[i].packet != Newest(h).packet ==> !Holds(Fill(h).ring, h, FirstLive(h))
  {
    var before := h[..|h| - 1];
    assert before + [Newest(h)] == h;
    assert FirstLive(before) <= i by {
      ExpiredStaysExpired(before, Newest(h));
      LiveIsSuffix(h, i);
    }
    NumberBetween(before, FirstLive(before), i);
    SlotSame(h[i].number);
    PushRemembers(Fill(before), Newest(h).packet);
  }

  lemma SlotSame(u: int)
    ensures Slot(u + MOD) == Slot(u)
  {
  }

  // -----------------------------------------------------------------------
  // What is requested
  // -----------------------------------------------------------------------

  /** The true number at which the buffer last looked for losses. */
  function LastReport(h: seq<Arrival>): int
    requires h != []
  {
    if |h| == 1 then h[0].number
    else if Reports(h) then Newest(h).number
    else LastReport(h[..|h| - 1])
  }

  /** The newest packet makes the buffer look for losses. */
  predicate Reports(h: seq<Arrival>)
    requires h != []
    decreases h, 0
  {
    |h| > 1 && (Newest(h).number - LastReport(h[..|h| - 1])) % MOD >= 17
  }

  predicate HasLive(h: seq<Arrival>, u: int) {
    exists i :: 0 <= i < |h| && Live(h, i) && h[i].number == u
  }

  /** The numbers from a on, n of them, for which no unexpired packet was pushed. */
  function Absent(h: seq<Arrival>, a: int, n: nat): seq<int>
    decreases h, n
  {
    if n == 0 then []
    else Absent(h, a, n - 1) + if HasLive(h, a + n - 1) then [] else [a + n - 1]
  }

  /** The true numbers that the newest packet makes the buffer request. */
  function Wanted(h: seq<Arrival>): seq<int>
    requires h != []
  {
    if Reports(h) then Absent(h, Newest(h).number - 17, 17) else []
  }

  function Slots(numbers: seq<int>): seq<SN> {
    seq(|numbers|, i requires 0 <= i < |numbers| => Slot(numbers[i]))
  }

  lemma {:induction false} InAbsent(h: seq<Arrival>, a: int, n: nat, u: int)
    ensures u in Absent(h, a, n) <==> a <= u < a + n && !HasLive(h, u)
  {
    if n > 0 {
      InAbsent(h, a, n - 1, u);
    }
  }

  lemma {:induction false} ReportsGrow(h: seq<Arrival>, j: nat)
    requires InOrder(h) && 1 <= j <= |h|
    ensures h[0].number <= LastReport(h[..j]) <= LastReport(h) <= Newest(h).number
  {
    if |h| == 1 {
      assert h[..j] == h;
    } else if j == |h| {
      assert h[..j] == h;
      ReportsGrow(h[..|h| - 1], 1);
    } else {
      assert h[..|h| - 1][..j] == h[..j];
      ReportsGrow(h[..|h| - 1], j);
    }
  }

  lemma {:induction false} ReportTracked(h: seq<Arrival>)
    requires h != [] && InOrder(h)
    ensures Fill(h).lastNackSN == Slot(LastReport(h))
    ensures var s := Swept(Fill(h[..|h| - 1]), Newest(h).packet);
      WindowPassed(s, Newest(h).packet.sn) <==> Reports(h)
  {
    var before, p := h[..|h| - 1], Newest(h).packet;
    var s := Stored(Fill(before), p);
    ClearingChangesLittle(s, p.ts, Add(s.lastClearSN, 1), p.sn);
    assert SameOtherwise(s, Swept(Fill(before), p));
    if |h| == 1 {
      assert before == [];
    } else {
      ReportTracked(before);
      FillNamesStream(before);
      SlotDistance(Newest(h).number, LastReport(before));
    }
  }

  lemma {:induction false} LiveIsSuffix(h: seq<Arrival>, i: nat)
    requires InOrder(h) && i < |h|
    ensures Live(h, i) <==> FirstLive(h) <= i
  {
    assert h[i].packet.ts <= Newest(h).packet.ts;
  }

  lemma {:induction false} SlotOfWindow(ring: Ring, h: seq<Arrival>, u: int)
    requires h != [] && InOrder(h) && Holds(ring, h, FirstLive(h))
    requires Newest(h).number - NumberBefore(h, FirstLive(h)) <= MOD
    requires Newest(h).number - MOD < u <= Newest(h).number
    ensures ring[Slot(u)] == None <==> !HasLive(h, u)
  {
    if HasLive(h, u) {
      var i :| 0 <= i < |h| && Live(h, i) && h[i].number == u;
      LiveIsSuffix(h, i);
    } else {
      forall i | FirstLive(h) <= i < |h| ensures h[i].number != u {
        LiveIsSuffix(h, i);
      }
      GapIsEmpty(ring, h, FirstLive(h), u);
    }
  }

  lemma {:induction false} MissingIsAbsent(ring: Ring, h: seq<Arrival>, a: int, n: nat)
    requires n <= MOD
    requires forall u | a <= u < a + n :: ring[Slot(u)] == None <==> !HasLive(h, u)
    ensures Missing(ring, Slot(a), n) == Slots(Absent(h, a, n))
  {
    if n > 0 {
      var u := a + n - 1;
      MissingIsAbsent(ring, h, a, n - 1);
      SlotPlus(a, n - 1);
      assert ring[Slot(u)] == None <==> !HasLive(h, u);
      assert Slots(Absent(h, a, n - 1) + [u]) == Slots(Absent(h, a, n - 1)) + [Slot(u)];
    }
  }

  lemma SlotPlus(u: int, n: nat)
    requires n <= MOD
    ensures Add(Slot(u), n) == Slot(u + n)
  {
  }

  lemma {:induction false} SpanShrinks(h: seq<Arrival>)
    requires h != [] && InOrder(h) && Spans(h)
    ensures Newest(h).number - NumberBefore(h, FirstLive(h)) <= MOD
  {
    if |h| > 1 {
      var before := h[..|h| - 1];
      RunBefore(h);
      ExpiredStaysExpired(before, Newest(h));
      var g, f := FirstLive(before), FirstLive(h);
      assert NumberBefore(before, g) == NumberBefore(h, g);
      assert g < f ==> NumberBefore(h, g) < NumberBefore(h, f) by {
        if g < f {
          NumberBetween(h, g, f - 1);
        }
      }
    }
  }

  /** A push looks for losses exactly when the true distance since it last looked
      is at least 17 (modulo 2^16), and it then requests exactly those of the 17
      preceding numbers for which no unexpired packet was pushed. */
  lemma {:induction false} NackNamesTheAbsent(h: seq<Arrival>)
    requires h != [] && InOrder(h) && Spans(h)
    ensures var s, sn := Swept(Fill(h[..|h| - 1]), Newest(h).packet), Newest(h).packet.sn;
      && (WindowPassed(s, sn) <==> Reports(h))
      && (Reports(h) ==> Missing(s.ring, Sub(sn, NACK_PAIR_SIZE), NACK_PAIR_SIZE) == Slots(Wanted(h)))
  {
    ReportTracked(h);
    RingIsExpiringQueue(h);
    SpanShrinks(h);
    WindowIsAbsent(Swept(Fill(h[..|h| - 1]), Newest(h).packet).ring, h);
  }

  /** The answer to the newest push of a run: a NACK exactly when something is wanted,
      for exactly what is wanted, naming the stream of the first packet. */
  lemma {:induction false} NackOfRun(h: seq<Arrival>, nack: Option<Nack>)
    requires h != [] && InOrder(h) && Spans(h) && Answers(nack, Fill(h[..|h| - 1]), Newest(h).packet)
    ensures nack.Some? <==> Wanted(h) != []
    ensures nack.Some? ==>
      && Denoted(nack.value.nacks) == Slots(Wanted(h))
      && nack.value.senderSSRC == nack.value.mediaSSRC == h[0].packet.ssrc
  {
    NackNamesTheAbsent(h);
    PushRemembers(Fill(h[..|h| - 1]), Newest(h).packet);
    FillNamesStream(h);
  }

  lemma {:induction false} WindowIsAbsent(ring: Ring, h: seq<Arrival>)
    requires h != [] && InOrder(h) && Holds(ring, h, FirstLive(h))
    requires Newest(h).number - NumberBefore(h, FirstLive(h)) <= MOD
    ensures Missing(ring, Sub(Newest(h).packet.sn, NACK_PAIR_SIZE), NACK_PAIR_SIZE) ==
            Slots(Absent(h, Newest(h).number - NACK_PAIR_SIZE, NACK_PAIR_SIZE))
  {
    var a := Newest(h).number - NACK_PAIR_SIZE;
    SlotDistance(Newest(h).number, NACK_PAIR_SIZE);
    assert Sub(Newest(h).packet.sn, NACK_PAIR_SIZE) == Slot(a);
    forall u | a <= u < a + NACK_PAIR_SIZE ensures ring[Slot(u)] == None <==> !HasLive(h, u) {
      SlotOfWindow(ring, h, u);
    }
    MissingIsAbsent(ring, h, a, NACK_PAIR_SIZE);
  }

  lemma AtLeastResidue(d: nat)
    ensures d % MOD <= d
  {
  }

  lemma {:induction false} ReportsApart(h: seq<Arrival>)
    requires h != [] && InOrder(h) && Reports(h)
    ensures h[0].number <= LastReport(h[..|h| - 1]) <= Newest(h).number - NACK_PAIR_SIZE
    ensures LastReport(h) == Newest(h).number
  {
    ReportsGrow(h, |h| - 1);
    AtLeastResidue(Newest(h).number - LastReport(h[..|h| - 1]));
  }

  /** No number before the stream's first packet is requested, nor one whose packet
      is still held. */
  lemma {:induction false} WantedIsWithinStream(h: seq<Arrival>, u: int)
    requires h != [] && InOrder(h) && u in Wanted(h)
    ensures h[0].number <= LastReport(h[..|h| - 1]) <= u < Newest(h).number == LastReport(h)
    ensures !HasLive(h, u)
  {
    ReportsApart(h);
    InAbsent(h, Newest(h).number - NACK_PAIR_SIZE, NACK_PAIR_SIZE, u);
  }

  /** No true number is requested twice in a run. */
  lemma {:induction false} NeverRequestedTwice(h: seq<Arrival>, j: nat, k: nat, u: int)
    requires InOrder(h) && 1 <= j < k <= |h|
    requires u in Wanted(h[..j])
    ensures u !in Wanted(h[..k])
  {
    assert u < LastReport(h[..j]) by {
      WantedIsWithinStream(h[..j], u);
    }
    EarlierReport(h, j, k);
    if u in Wanted(h[..k]) {
      WantedIsWithinStream(h[..k], u);
    }
  }

  lemma {:induction false} EarlierReport(h: seq<Arrival>, j: nat, k: nat)
    requires InOrder(h) && 1 <= j < k <= |h|
    ensures LastReport(h[..j]) <= LastReport(h[..k][..k - 1])
  {
    var before := h[..k][..k - 1];
    assert before == h[..k - 1] && before[..j] == h[..j];
    ReportsGrow(before, j);
  }
}
