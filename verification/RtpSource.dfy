/** Sequence number tracking of an RTP source and the loss counters of its reception
    reports (appendices A.1 and A.3 of RFC 3550). */
module RtpSource {

  const MOD16 := 0x1_0000
  const MOD32 := 0x1_0000_0000

  type U16 = x: int | 0 <= x < MOD16
  type U32 = x: int | 0 <= x < MOD32

  const MAX_DROPOUT := 3000
  const MAX_MISORDER := 100
  const MIN_SEQUENTIAL := 2

  /** Arithmetic on uint32 wraps. */
  function Wrap(x: int): U32 { x % MOD32 }

  datatype State = State(
    maxSeq: U16, cycles: U32, baseSeq: U32, badSeq: U32, probation: U32,
    received: U32, expectedPrior: U32, receivedPrior: U32)

  function Initialized(s: State, seqno: U16): State {
    s.(baseSeq := seqno, maxSeq := seqno, badSeq := MOD16 + 1, cycles := 0,
       received := 0, receivedPrior := 0, expectedPrior := 0)
  }

  function Counted(s: State): State { s.(received := Wrap(s.received + 1)) }

  datatype Update = Update(state: State, valid: bool)

  function OnPacket(s: State, seqno: U16): Update {
    var udelta := (seqno - s.maxSeq) % MOD16;
    if s.probation != 0 then
      if seqno == (s.maxSeq + 1) % MOD16 then
        var t := s.(probation := s.probation - 1, maxSeq := seqno);
        if t.probation == 0 then Update(Counted(Initialized(t, seqno)), true) else Update(t, false)
      else Update(s.(probation := MIN_SEQUENTIAL - 1, maxSeq := seqno), false)
    else if udelta < MAX_DROPOUT then
      Update(Counted(s.(cycles := if seqno < s.maxSeq then Wrap(s.cycles + MOD16) else s.cycles, maxSeq := seqno)), true)
    else if udelta <= MOD16 - MAX_MISORDER then
      if seqno == s.badSeq then Update(Counted(Initialized(s, seqno)), true)
      else Update(s.(badSeq := (seqno + 1) % MOD16), false)
    else Update(Counted(s), true)
  }

  /** The counters of a reception report. */
  datatype Report = Report(lastSequenceNumber: U32, totalLost: U32, lostInterval: U32)

  function ExtendedMax(s: State): U32 { Wrap(s.cycles + s.maxSeq) }

  function Expected(s: State): U32 { Wrap(ExtendedMax(s) - s.baseSeq + 1) }

  function Lost(s: State): U32 { Wrap(Expected(s) - s.received) }

  /** What was lost since the previous report. */
  function LostSince(s: State): U32 {
    Wrap(Wrap(Expected(s) - s.expectedPrior) - Wrap(s.received - s.receivedPrior))
  }

  function Reported(s: State): State { s.(expectedPrior := Expected(s), receivedPrior := s.received) }

  class Source {
    var maxSeq: U16
    var cycles: U32
    var baseSeq: U32
    var badSeq: U32
    var probation: U32
    var received: U32
    var expectedPrior: U32
    var receivedPrior: U32

    constructor ()
      ensures View() == State(0, 0, 0, 0, 0, 0, 0, 0)
    {
      maxSeq, cycles, baseSeq, badSeq, probation := 0, 0, 0, 0, 0;
      received, expectedPrior, receivedPrior := 0, 0, 0;
    }

    function View(): State
      reads this
    {
      State(maxSeq, cycles, baseSeq, badSeq, probation, received, expectedPrior, receivedPrior)
    }

    method InitSeq(seqno: U16)
      modifies this
      ensures View() == Initialized(old(View()), seqno)
    {
      baseSeq := seqno;
      maxSeq := seqno;
      badSeq := MOD16 + 1;
      cycles := 0;
      received := 0;
      receivedPrior := 0;
      expectedPrior := 0;
    }

    method UpdateSeq(seqno: U16) returns (valid: bool)
      modifies this
      ensures Update(View(), valid) == OnPacket(old(View()), seqno)
    {
      var udelta := (seqno - maxSeq) % MOD16;
      if probation != 0 {
        if seqno == (maxSeq + 1) % MOD16 {
          probation := probation - 1;
          maxSeq := seqno;
          if probation == 0 {
            InitSeq(seqno);
            received := Wrap(received + 1);
            return true;
          }
        } else {
          probation := MIN_SEQUENTIAL - 1;
          maxSeq := seqno;
        }
        return false;
      } else if udelta < MAX_DROPOUT {
        if seqno < maxSeq {
          cycles := Wrap(cycles + MOD16);
        }
        maxSeq := seqno;
      } else if udelta <= MOD16 - MAX_MISORDER {
        if seqno == badSeq {
          InitSeq(seqno);
        } else {
          badSeq := (seqno + 1) % MOD16;
          return false;
        }
      }
      received := Wrap(received + 1);
      return true;
    }

    method ReceptionReport() returns (report: Report)
      modifies this
      ensures View() == Reported(old(View()))
      ensures report == Report(ExtendedMax(old(View())), Lost(old(View())), LostSince(old(View())))
    {
      var extendedMax := Wrap(cycles + maxSeq);
      var expected := Wrap(extendedMax - baseSeq + 1);
      var lost := Wrap(expected - received);
      var expectedInterval: int := Wrap(expected - expectedPrior);
      expectedPrior := expected;
      var receivedInterval: int := Wrap(received - receivedPrior);
      receivedPrior := received;
      var lostInterval := Wrap(expectedInterval - receivedInterval);
      report := Report(extendedMax, lost, lostInterval);
    }
  }

  // -----------------------------------------------------------------------
  // Runs
  // -----------------------------------------------------------------------

  /** A packet with its true sequence number arrives, or a report is made. */
  datatype Input = Packet(number: nat) | MakeReport

  function Slot(n: nat): U16 { n % MOD16 }

  /** The highest true number, and how many packets arrived, from the base on. */
  function Highest(base: nat, inputs: seq<Input>): nat {
    if inputs == [] then base
    else
      var h, i := Highest(base, inputs[..|inputs| - 1]), inputs[|inputs| - 1];
      if i.Packet? && i.number > h then i.number else h
  }

  function Arrived(inputs: seq<Input>): nat {
    if inputs == [] then 0
    else Arrived(inputs[..|inputs| - 1]) + if inputs[|inputs| - 1].Packet? then 1 else 0
  }

  /** Each number is at most 99 behind and at most 2999 ahead of the highest so far. */
  predicate Steady(base: nat, inputs: seq<Input>) {
    forall k | 0 <= k < |inputs| && inputs[k].Packet? ::
      var h := Highest(base, inputs[..k]); h - 100 < inputs[k].number < h + 3000
  }

  function React(s: State, i: Input): State {
    if i.Packet? then OnPacket(s, Slot(i.number)).state else Reported(s)
  }

  /** A source that starts at a base number without probation. */
  function Track(s0: State, base: nat, inputs: seq<Input>): State
    requires base < MOD16
  {
    if inputs == [] then Initialized(s0, base)
    else React(Track(s0, base, inputs[..|inputs| - 1]), inputs[|inputs| - 1])
  }

  /** The sum of what the reports say was lost since the previous one. */
  function Intervals(s0: State, base: nat, inputs: seq<Input>): int
    requires base < MOD16
  {
    if inputs == [] then 0
    else
      var before := inputs[..|inputs| - 1];
      Intervals(s0, base, before) +
      if inputs[|inputs| - 1].MakeReport? then LostSince(Track(s0, base, before)) else 0
  }

  /** What the counters mean for a highest number and a count of packets. */
  predicate Counts(s: State, base: nat, highest: nat, arrived: nat) {
    && s.probation == 0 && s.baseSeq == base && s.maxSeq == Slot(highest)
    && ExtendedMax(s) == Wrap(highest) && s.received == Wrap(arrived)
  }

  /** A steady packet is accepted, and keeps the counters' meaning. */
  lemma SteadyPacketCounts(s: State, base: nat, highest: nat, arrived: nat, n: nat)
    requires Counts(s, base, highest, arrived) && highest - MAX_MISORDER < n < highest + MAX_DROPOUT
    ensures OnPacket(s, Slot(n)).valid
    ensures Counts(OnPacket(s, Slot(n)).state, base, if n > highest then n else highest, arrived + 1)
  {
    SlotDelta(highest, n);
    if n >= highest {
      ForwardExtends(s.cycles, highest, n);
    }
    assert Wrap(s.received + 1) == Wrap(arrived + 1) by {
      WrapSum(arrived, 1);
    }
  }

  /** The wrapped distance of a steady packet from the highest. */
  lemma SlotDelta(highest: nat, n: nat)
    requires highest - MAX_MISORDER < n < highest + MAX_DROPOUT
    ensures (Slot(n) - Slot(highest)) % MOD16 == if n >= highest then n - highest else n - highest + MOD16
  {
    assert (Slot(n) - Slot(highest)) % MOD16 == (n - highest) % MOD16;
  }

  lemma SlotForward(highest: nat, n: nat)
    requires highest <= n < highest + MAX_DROPOUT
    ensures Slot(n) + (if Slot(n) < Slot(highest) then MOD16 else 0) == Slot(highest) + (n - highest)
  {
  }

  lemma ForwardExtends(cycles: U32, highest: nat, n: nat)
    requires highest <= n < highest + MAX_DROPOUT && Wrap(cycles + Slot(highest)) == Wrap(highest)
    ensures var c := if Slot(n) < Slot(highest) then Wrap(cycles + MOD16) else cycles;
      Wrap(c + Slot(n)) == Wrap(n)
  {
    var up := if Slot(n) < Slot(highest) then MOD16 else 0;
    SlotForward(highest, n);
    calc {
      Wrap(Wrap(cycles + up) + Slot(n));
      { WrapSum(cycles + up, Slot(n)); }
      Wrap(cycles + Slot(highest) + (n - highest));
      { WrapSum(cycles + Slot(highest), n - highest); }
      Wrap(Wrap(highest) + (n - highest));
      { WrapSum(highest, n - highest); }
      Wrap(n);
    }
  }

  lemma WrapSum(x: int, y: int)
    ensures Wrap(Wrap(x) + y) == Wrap(x + y)
  {
  }

  lemma WrapDifference(y: int, x: int)
    ensures Wrap(y - Wrap(x)) == Wrap(y - x)
  {
    var k := x / MOD32;
    assert y - Wrap(x) == (y - x) + k * MOD32;
  }

  lemma {:induction false} SteadyRunCounts(s0: State, base: nat, inputs: seq<Input>)
    requires s0.probation == 0 && base < MOD16 && Steady(base, inputs)
    ensures Counts(Track(s0, base, inputs), base, Highest(base, inputs), Arrived(inputs))
  {
    if inputs != [] {
      var before, i := inputs[..|inputs| - 1], inputs[|inputs| - 1];
      SteadyBefore(base, inputs);
      SteadyRunCounts(s0, base, before);
      if i.Packet? {
        SteadyPacketCounts(Track(s0, base, before), base, Highest(base, before), Arrived(before), i.number);
      }
    }
  }

  lemma SteadyBefore(base: nat, inputs: seq<Input>)
    requires inputs != [] && Steady(base, inputs)
    ensures Steady(base, inputs[..|inputs| - 1])
  {
    var before := inputs[..|inputs| - 1];
    forall k | 0 <= k < |before| ensures before[..k] == inputs[..k] && before[k] == inputs[k] {
    }
  }

  /** In a steady run every packet is accepted. */
  lemma SteadyPacketsAccepted(s0: State, base: nat, inputs: seq<Input>)
    requires inputs != [] && inputs[|inputs| - 1].Packet?
    requires s0.probation == 0 && base < MOD16 && Steady(base, inputs)
    ensures OnPacket(Track(s0, base, inputs[..|inputs| - 1]), Slot(inputs[|inputs| - 1].number)).valid
  {
    var before, i := inputs[..|inputs| - 1], inputs[|inputs| - 1];
    SteadyBefore(base, inputs);
    SteadyRunCounts(s0, base, before);
    SteadyPacketCounts(Track(s0, base, before), base, Highest(base, before), Arrived(before), i.number);
  }

  /** The number of packets that a steady run lost. */
  function TrulyLost(base: nat, inputs: seq<Input>): int {
    Highest(base, inputs) - base + 1 - Arrived(inputs)
  }

  /** A report gives a highest number and a loss, both modulo 2^32. */
  predicate Truthful(s: State, highest: int, lost: int) {
    ExtendedMax(s) == Wrap(highest) && Lost(s) == Wrap(lost)
  }

  /** The extended highest number and the total lost are the true ones modulo 2^32,
      however often the 16-bit numbers wrapped. */
  lemma ReportsAreTrue(s0: State, base: nat, inputs: seq<Input>)
    requires s0.probation == 0 && base < MOD16 && Steady(base, inputs)
    ensures Truthful(Track(s0, base, inputs), Highest(base, inputs), TrulyLost(base, inputs))
  {
    SteadyRunCounts(s0, base, inputs);
    CountsAreTrue(Track(s0, base, inputs), base, Highest(base, inputs), Arrived(inputs), TrulyLost(base, inputs));
  }

  lemma CountsAreTrue(s: State, base: nat, highest: nat, arrived: nat, lost: int)
    requires Counts(s, base, highest, arrived) && lost == highest - base + 1 - arrived
    ensures Truthful(s, highest, lost)
  {
    LostIsTrue(s, base, highest, arrived);
  }

  lemma LostIsTrue(s: State, base: nat, highest: int, arrived: int)
    requires ExtendedMax(s) == Wrap(highest) && s.baseSeq == base && s.received == Wrap(arrived)
    ensures Lost(s) == Wrap(highest - base + 1 - arrived)
  {
    var span := highest - base + 1;
    assert Expected(s) == Wrap(span) by {
      WrapSum(highest, 1 - base);
    }
    WrapDifference(Wrap(span), arrived);
    WrapSum(span, -arrived);
  }

  /** A snapshot is what the last report saw. */
  predicate Snapshot(s: State, sum: int) {
    Wrap(s.expectedPrior - s.receivedPrior) == Wrap(sum)
  }

  lemma ReportTelescopes(s: State, sum: int)
    requires Snapshot(s, sum)
    ensures Snapshot(Reported(s), sum + LostSince(s))
    ensures Wrap(sum + LostSince(s)) == Lost(s)
  {
    var e: int, r: int := Expected(s), s.received;
    var de, dr, prior := e - s.expectedPrior, r - s.receivedPrior, s.expectedPrior - s.receivedPrior;
    assert LostSince(s) == Wrap(de - dr) by {
      WrapDifference(Wrap(de), dr);
      WrapSum(de, -dr);
    }
    calc {
      Wrap(sum + LostSince(s));
      { WrapSum(de - dr, sum); }
      Wrap(sum + (de - dr));
      { WrapSum(sum, de - dr); }
      Wrap(Wrap(prior) + (de - dr));
      { WrapSum(prior, de - dr); }
      Wrap(e - r);
    }
  }

  /** The intervals of all reports so far add up to the total that the last of them
      reported. */
  lemma {:induction false} IntervalsTelescope(s0: State, base: nat, inputs: seq<Input>)
    requires s0.probation == 0 && base < MOD16 && Steady(base, inputs)
    ensures Snapshot(Track(s0, base, inputs), Intervals(s0, base, inputs))
    ensures inputs != [] && inputs[|inputs| - 1].MakeReport? ==>
      Wrap(Intervals(s0, base, inputs)) == Wrap(TrulyLost(base, inputs))
  {
    if inputs != [] {
      var before, i := inputs[..|inputs| - 1], inputs[|inputs| - 1];
      SteadyBefore(base, inputs);
      IntervalsTelescope(s0, base, before);
      var s := Track(s0, base, before);
      if i.MakeReport? {
        ReportTelescopes(s, Intervals(s0, base, before));
        ReportsAreTrue(s0, base, before);
      } else {
        SteadyPacketKeepsSnapshot(s0, base, inputs);
      }
    }
  }

  lemma SteadyPacketKeepsSnapshot(s0: State, base: nat, inputs: seq<Input>)
    requires inputs != [] && inputs[|inputs| - 1].Packet?
    requires s0.probation == 0 && base < MOD16 && Steady(base, inputs)
    ensures var s, t := Track(s0, base, inputs[..|inputs| - 1]), Track(s0, base, inputs);
      t.expectedPrior == s.expectedPrior && t.receivedPrior == s.receivedPrior
  {
    var before, i := inputs[..|inputs| - 1], inputs[|inputs| - 1];
    SteadyBefore(base, inputs);
    SteadyRunCounts(s0, base, before);
    NoRestart(Track(s0, base, before), Highest(base, before), i.number);
  }

  /** A steady packet is never taken for a restart of the source. */
  lemma NoRestart(s: State, highest: nat, n: nat)
    requires s.probation == 0 && s.maxSeq == Slot(highest) && highest - MAX_MISORDER < n < highest + MAX_DROPOUT
    ensures var t := OnPacket(s, Slot(n)).state; t == s.(cycles := t.cycles, maxSeq := t.maxSeq, received := t.received)
  {
    SlotDelta(highest, n);
  }

  // -----------------------------------------------------------------------
  // Restarts
  // -----------------------------------------------------------------------

  /** A number at least 3000 ahead and at least 100 behind, around the 16-bit circle. */
  predicate Jumps(s: State, n: U16) {
    3000 <= (n - s.maxSeq) % MOD16 <= MOD16 - 100
  }

  /** The counters of a source that starts at a number, whose packet has arrived. */
  predicate Restarted(s: State, n: U16) {
    Counts(s, n, n, 1) && s.cycles == 0 && s.expectedPrior == 0 && s.receivedPrior == 0
  }

  /** After a jump the source waits for the number that follows: exactly a packet with
      that number restarts it there, and any other jump is refused and waited for anew. */
  lemma JumpRestarts(s: State, n: U16, m: U16)
    requires s.probation == 0 && Jumps(s, n) && Jumps(s, m)
    ensures n == s.badSeq ==> OnPacket(s, n).valid && Restarted(OnPacket(s, n).state, n)
    ensures n != s.badSeq ==>
      var first := OnPacket(s, n);
      var second := OnPacket(first.state, m);
      && !first.valid && first.state == s.(badSeq := (n + 1) % MOD16)
      && (second.valid <==> m == (n + 1) % MOD16)
      && (second.valid ==> Restarted(second.state, m))
      && (!second.valid ==> second.state == s.(badSeq := (m + 1) % MOD16))
  {
  }

  /** A source that has just started takes no number for the second of a restart. */
  lemma FreshSourceRefusesJumps(s: State, base: U16, n: U16)
    requires s.probation == 0 && Jumps(Initialized(s, base), n)
    ensures !OnPacket(Initialized(s, base), n).valid
  {
  }

  /** The source after k packets that follow its highest number in sequence. */
  function AfterSequence(s: State, k: nat): State {
    if k == 0 then s
    else var t := AfterSequence(s, k - 1); OnPacket(t, (t.maxSeq + 1) % MOD16).state
  }

  lemma {:induction false} StillOnProbation(s: State, k: nat)
    requires k < s.probation
    ensures AfterSequence(s, k) == s.(probation := s.probation - k, maxSeq := (s.maxSeq + k) % MOD16)
  {
    if k > 0 {
      StillOnProbation(s, k - 1);
      NextResidue(s.maxSeq, k);
    }
  }

  lemma NextResidue(a: U16, k: nat)
    requires k > 0
    ensures ((a + (k - 1)) % MOD16 + 1) % MOD16 == (a + k) % MOD16
  {
  }

  /** A source on probation for k packets refuses the first k - 1 in sequence; a packet out
      of sequence puts it on probation for one more. */
  lemma {:induction false} ProbationRefuses(s: State, j: nat, n: U16)
    requires s.probation > 0
    ensures j + 1 < s.probation ==> !OnPacket(AfterSequence(s, j), (s.maxSeq + j + 1) % MOD16).valid
    ensures n != (s.maxSeq + 1) % MOD16 ==>
      OnPacket(s, n) == Update(s.(probation := 1, maxSeq := n), false)
  {
    if j + 1 < s.probation {
      StillOnProbation(s, j);
      NextResidue(s.maxSeq, j + 1);
    }
  }

  /** It restarts at the k-th. */
  lemma {:induction false} ProbationEnds(s: State)
    requires s.probation > 0
    ensures var n := (s.maxSeq + s.probation) % MOD16;
      var last := OnPacket(AfterSequence(s, s.probation - 1), n);
      last.valid && Restarted(last.state, n)
  {
    StillOnProbation(s, s.probation - 1);
    NextResidue(s.maxSeq, s.probation);
  }
}
