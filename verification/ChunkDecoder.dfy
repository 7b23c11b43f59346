/** Reassembling messages from chunks that arrive in any order, interleaved with the
    chunks of other messages. */
module ChunkDecoder {
  import opened Common
  import opened ChunkHeader
  import opened ChunkEncoder

  // -----------------------------------------------------------------------
  // Message keys
  // -----------------------------------------------------------------------

  /** The decimal digits of a number, as ASCII bytes. */
  function Digits(n: nat): seq<Byte> {
    if n < 10 then [48 + n] else Digits(n / 10) + [48 + n % 10]
  }

  function Value(digits: seq<Byte>): int {
    if digits == [] then 0 else Value(digits[..|digits| - 1]) * 10 + digits[|digits| - 1] - 48
  }

  const UNDERSCORE: Byte := 95

  /** The sender ID, an underscore and the message ID in decimal. */
  function Key(sender: seq<Byte>, messageId: nat): seq<Byte> {
    sender + [UNDERSCORE] + Digits(messageId)
  }

  lemma {:induction false} DigitsAreDigits(n: nat)
    ensures forall b | b in Digits(n) :: 48 <= b < 58
    ensures Value(Digits(n)) == n
  {
    if n >= 10 {
      DigitsAreDigits(n / 10);
      assert (Digits(n / 10) + [48 + n % 10])[..|Digits(n / 10)|] == Digits(n / 10);
    }
  }

  lemma NoUnderscoreAfter(sender: seq<Byte>, id: nat, i: nat)
    requires |sender| < i < |Key(sender, id)|
    ensures Key(sender, id)[i] != UNDERSCORE
  {
    DigitsAreDigits(id);
    var b := Digits(id)[i - |sender| - 1];
    assert b in Digits(id) && Key(sender, id)[i] == b;
  }

  /** The underscore before the digits is the last one of a key. */
  lemma DigitsNoShorter(sender1: seq<Byte>, id1: nat, sender2: seq<Byte>, id2: nat)
    requires Key(sender1, id1) == Key(sender2, id2)
    ensures |Digits(id1)| >= |Digits(id2)|
  {
    assert Key(sender2, id2)[|sender1|] == UNDERSCORE;
    if |sender1| > |sender2| {
      NoUnderscoreAfter(sender2, id2, |sender1|);
    }
  }

  /** Keys tell messages apart even though sender IDs may contain underscores and
      digits themselves. */
  lemma KeyIsInjective(sender1: seq<Byte>, id1: nat, sender2: seq<Byte>, id2: nat)
    requires Key(sender1, id1) == Key(sender2, id2)
    ensures sender1 == sender2 && id1 == id2
  {
    DigitsNoShorter(sender1, id1, sender2, id2);
    DigitsNoShorter(sender2, id2, sender1, id1);
    DigitsAreDigits(id1);
    DigitsAreDigits(id2);
    var key := Key(sender1, id1);
    assert key[..|sender1|] == sender1 && key[..|sender2|] == sender2;
    assert key[|sender1| + 1..] == Digits(id1) && key[|sender2| + 1..] == Digits(id2);
  }

  // -----------------------------------------------------------------------
  // The decoder
  // -----------------------------------------------------------------------

  datatype Container = Container(sender: seq<Byte>, data: seq<Byte>, received: nat, total: int)

  type Store = map<seq<Byte>, Container>

  /** A chunk is not the last one, completes its message, or does not fit its buffer. */
  datatype Outcome = Pending | Complete(sender: seq<Byte>, data: seq<Byte>) | OutOfRange

  datatype Step = Step(store: Store, outcome: Outcome)

  /** Array slices clamp their bounds. */
  function Slice(data: seq<Byte>, from: nat, to: nat): seq<Byte> {
    var hi := if to < |data| then to else |data|;
    if from <= hi then data[from..hi] else []
  }

  function Zeros(n: nat): seq<Byte> {
    seq(n, _ => 0)
  }

  function Offset(h: Header, container: Container): int {
    var dataSize := h.chunkSizeBytes - h.senderIdSizeBytes;
    if h.chunkNum == h.totalChunks - 1 then |container.data| - dataSize else h.chunkNum * dataSize
  }

  function Receive(container: Container, payload: seq<Byte>, offset: nat): Container
    requires offset + |payload| <= |container.data|
  {
    container.(data := Overwrite(container.data, payload, offset), received := container.received + 1)
  }

  function DecodeChunk(store: Store, input: seq<Byte>): Step {
    var h := DecodeHeader(input);
    var dataStart: nat := HEADER_SIZE + h.senderIdSizeBytes;
    var sender := Slice(input, HEADER_SIZE, dataStart);
    var id := Key(sender, h.messageId);
    if id !in store && h.totalSizeBytes < 0 then Step(store, OutOfRange)
    else
      var container := if id in store then store[id] else Container(sender, Zeros(h.totalSizeBytes), 0, h.totalChunks);
      Accept(store, id, container, Slice(input, dataStart, |input|), Offset(h, container))
  }

  /** A payload arrives at an offset of a container. */
  function Accept(store: Store, id: seq<Byte>, container: Container, payload: seq<Byte>, offset: int): Step {
    if offset < 0 || offset + |payload| > |container.data| then Step(store[id := container], OutOfRange)
    else
      var after := Receive(container, payload, offset);
      if after.received == after.total then Step(store - {id}, Complete(after.sender, after.data))
      else Step(store[id := after], Pending)
  }

  lemma EnteredBefore(store: Store, id: seq<Byte>, c: Container, after: Container)
    ensures store[id := c][id := after] == store[id := after]
    ensures store[id := c][id := after] - {id} == store - {id}
    ensures id in store && store[id] == c ==> store[id := c] == store
  {
  }

  class Decoder {
    var chunksByMessageId: Store

    constructor ()
      ensures chunksByMessageId == map[]
    {
      chunksByMessageId := map[];
    }

    method Decode(input: seq<Byte>) returns (outcome: Outcome)
      modifies this
      ensures Step(chunksByMessageId, outcome) == DecodeChunk(old(chunksByMessageId), input)
    {
      var header := DecodeHeader(input);
      var dataStart: nat := HEADER_SIZE + header.senderIdSizeBytes;
      var dataSize := header.chunkSizeBytes - header.senderIdSizeBytes;
      var senderId := Slice(input, HEADER_SIZE, dataStart);
      var id := Key(senderId, header.messageId);
      if id !in chunksByMessageId {
        if header.totalSizeBytes < 0 {
          return OutOfRange;
        }
        chunksByMessageId := chunksByMessageId[id := Container(senderId, Zeros(header.totalSizeBytes), 0, header.totalChunks)];
      }
      var container := chunksByMessageId[id];
      var isLastChunk := header.chunkNum == header.totalChunks - 1;
      var offset := if isLastChunk then |container.data| - dataSize else header.chunkNum * dataSize;
      var payload := Slice(input, dataStart, |input|);
      EnteredBefore(old(chunksByMessageId), id, container, container);
      outcome := Put(id, payload, offset, old(chunksByMessageId));
    }

    /** Puts a payload into the container of a message. */
    method Put(id: seq<Byte>, payload: seq<Byte>, offset: int, ghost before: Store) returns (outcome: Outcome)
      requires id in chunksByMessageId && chunksByMessageId == before[id := chunksByMessageId[id]]
      modifies this
      ensures Step(chunksByMessageId, outcome) == Accept(before, id, old(chunksByMessageId)[id], payload, offset)
    {
      var container := chunksByMessageId[id];
      if offset < 0 || offset + |payload| > |container.data| {
        return OutOfRange;
      }
      container := container.(data := Overwrite(container.data, payload, offset));
      container := container.(received := container.received + 1);
      EnteredBefore(before, id, chunksByMessageId[id], container);
      chunksByMessageId := chunksByMessageId[id := container];
      if container.received == container.total {
        chunksByMessageId := chunksByMessageId - {id};
        return Complete(container.sender, container.data);
      }
      return Pending;
    }
  }

  /** An input whose data does not fit its buffer counts as no chunk: entries stay as they
      are, and at most an empty entry is added, for its own sender and message ID. */
  lemma MisfitCountsNothing(store: Store, input: seq<Byte>)
    ensures var step, h := DecodeChunk(store, input), DecodeHeader(input);
      var id := Key(Slice(input, HEADER_SIZE, HEADER_SIZE + h.senderIdSizeBytes), h.messageId);
      step.outcome == OutOfRange ==>
        && (forall key | key in store :: key in step.store && step.store[key] == store[key])
        && step.store.Keys == store.Keys + (if h.totalSizeBytes < 0 then {} else {id})
        && (id in step.store && id !in store ==>
              step.store[id].received == 0 && step.store[id].data == Zeros(h.totalSizeBytes))
  {
  }

  // -----------------------------------------------------------------------
  // One chunk of a well-formed message
  // -----------------------------------------------------------------------

  /** A message that has data and whose sizes and chunk count fit the header. */
  predicate WellFormed(m: Message) {
    && m.data != [] && m.Room() > 0
    && m.id < TWO16 && |m.sender| < TWO16 && m.Total() < TWO16
    && |m.data| < TWO31 && (m.maxSize - HEADER_SIZE < TWO31 || |m.sender| + |m.data| < TWO31)
  }

  /** Exactly the messages all of whose chunk headers survive encoding. */
  lemma WellFormedExactly(m: Message)
    requires m.data != [] && m.Room() > 0
    ensures WellFormed(m) <==> forall k: nat | k < m.Total() :: Fits(HeaderOf(m, k))
  {
    StartsWithin(m, 0);
    if WellFormed(m) {
      forall k: nat | k < m.Total() ensures Fits(HeaderOf(m, k)) {
        StartsWithin(m, k);
      }
    } else {
      assert !Fits(HeaderOf(m, 0));
    }
  }

  function KeyOf(m: Message): seq<Byte> {
    Key(m.sender, m.id)
  }

  lemma ChunkParses(m: Message, k: nat)
    requires WellFormed(m) && k < m.Total()
    ensures var input, h := ChunkBytes(m, k), HeaderOf(m, k);
      && DecodeHeader(input) == h
      && Slice(input, HEADER_SIZE, HEADER_SIZE + h.senderIdSizeBytes) == m.sender
      && Slice(input, HEADER_SIZE + h.senderIdSizeBytes, |input|) == Part(m, k)
  {
    StartsWithin(m, k);
    var input, h, part := ChunkBytes(m, k), HeaderOf(m, k), Part(m, k);
    assert input == HeaderBytes(h) + (m.sender + part);
    HeaderRoundTrips(h, m.sender + part);
  }

  /** Wherever the container came from, a chunk lands where its data belongs. */
  lemma ChunkLands(m: Message, k: nat, container: Container)
    requires WellFormed(m) && k < m.Total() && |container.data| == |m.data|
    ensures Offset(HeaderOf(m, k), container) == m.Start(k)
    ensures m.Start(k) + |Part(m, k)| <= |m.data|
  {
    StartsWithin(m, k);
  }

  /** The container that a message's chunk finds or makes. */
  function ContainerFor(store: Store, m: Message): Container
    requires m.Room() > 0
  {
    if KeyOf(m) in store then store[KeyOf(m)] else Container(m.sender, Zeros(|m.data|), 0, m.Total())
  }

  lemma DecodesChunk(store: Store, m: Message, k: nat)
    requires WellFormed(m) && k < m.Total() && |ContainerFor(store, m).data| == |m.data|
    ensures m.Start(k) + |Part(m, k)| <= |m.data|
    ensures var after := Receive(ContainerFor(store, m), Part(m, k), m.Start(k));
      DecodeChunk(store, ChunkBytes(m, k)) ==
      if after.received == after.total then Step(store - {KeyOf(m)}, Complete(after.sender, after.data))
      else Step(store[KeyOf(m) := after], Pending)
  {
    ChunkParses(m, k);
    ChunkLands(m, k, ContainerFor(store, m));
  }

  // -----------------------------------------------------------------------
  // Any order, any interleaving
  // -----------------------------------------------------------------------

  datatype Delivery = Delivery(message: Message, chunkNum: nat)

  /** Every delivery is a chunk of a well-formed message. */
  predicate Chunked(ds: seq<Delivery>) {
    forall i | 0 <= i < |ds| :: WellFormed(ds[i].message) && ds[i].chunkNum < ds[i].message.Total()
  }

  /** Messages with the same sender and ID are the same message. */
  predicate DistinctIds(ds: seq<Delivery>) {
    forall i, j | 0 <= i < |ds| && 0 <= j < |ds| ::
      ds[i].message.sender == ds[j].message.sender && ds[i].message.id == ds[j].message.id ==>
      ds[i].message == ds[j].message
  }

  /** Each chunk is delivered at most once, in any order. */
  predicate OnceEach(ds: seq<Delivery>) {
    forall i, j | 0 <= i < j < |ds| :: ds[i] != ds[j]
  }

  predicate Admissible(ds: seq<Delivery>) {
    Chunked(ds) && DistinctIds(ds) && OnceEach(ds)
  }

  /** The decoder's entries after a sequence of deliveries. */
  function Fed(ds: seq<Delivery>): Store
    requires Chunked(ds)
  {
    if ds == [] then map[]
    else
      var d := ds[|ds| - 1];
      DecodeChunk(Fed(ds[..|ds| - 1]), ChunkBytes(d.message, d.chunkNum)).store
  }

  /** The chunks of a message among the deliveries. */
  function Got(ds: seq<Delivery>, m: Message): set<nat> {
    set i | 0 <= i < |ds| && ds[i].message == m :: ds[i].chunkNum
  }

  /** A container that has taken exactly the given chunks of a message. */
  predicate Holds(c: Container, m: Message, got: set<nat>)
    requires m.Room() > 0
  {
    && c.sender == m.sender && c.total == m.Total() && c.received == |got| && |c.data| == |m.data|
    && forall k | k in got :: Filled(c.data, m, k)
  }

  /** Chunk k of the message is in place. */
  predicate Filled(data: seq<Byte>, m: Message, k: nat)
    requires m.Room() > 0 && |data| == |m.data|
  {
    k < m.Total() && m.Start(k) <= m.End(k) <= |m.data| && data[m.Start(k)..m.End(k)] == m.data[m.Start(k)..m.End(k)]
  }

  /** The entry of a message: none before its first chunk and after its last. */
  predicate Tracks(store: Store, m: Message, got: set<nat>)
    requires m.Room() > 0
  {
    if got == {} || |got| == m.Total() then KeyOf(m) !in store
    else KeyOf(m) in store && Holds(store[KeyOf(m)], m, got)
  }

  lemma GotGrows(ds: seq<Delivery>, d: Delivery, m: Message)
    ensures Got(ds + [d], m) == if d.message == m then Got(ds, m) + {d.chunkNum} else Got(ds, m)
  {
    var all := ds + [d];
    forall k | k in Got(ds, m) ensures k in Got(all, m) {
      var i :| 0 <= i < |ds| && ds[i].message == m && ds[i].chunkNum == k;
      assert all[i] == ds[i];
    }
    assert all[|ds|] == d;
  }

  /** Putting one chunk in place leaves the others in place. */
  lemma FillKeepsFilled(data: seq<Byte>, m: Message, k: nat, j: nat)
    requires WellFormed(m) && k < m.Total() && |data| == |m.data|
    requires m.Start(k) + |Part(m, k)| <= |m.data|
    requires j != k ==> Filled(data, m, j)
    ensures Filled(Overwrite(data, Part(m, k), m.Start(k)), m, j)
  {
    StartsWithin(m, k);
    StartsWithin(m, j);
    var after := Overwrite(data, Part(m, k), m.Start(k));
    if j == k {
      assert after[m.Start(k)..m.End(k)] == Part(m, k);
    } else {
      PartsAreApart(m, k, j);
      assert after[m.Start(j)..m.End(j)] == data[m.Start(j)..m.End(j)];
    }
  }

  lemma PartsAreApart(m: Message, k: nat, j: nat)
    requires m.Room() > 0 && k < m.Total() && j < m.Total() && j != k
    ensures m.End(j) <= m.Start(k) || m.End(k) <= m.Start(j)
  {
    var lo, hi := if j < k then j else k, if j < k then k else j;
    StartsWithin(m, lo);
    Monotone(lo + 1, hi, m.Room());
    assert m.Start(lo + 1) == m.Start(lo) + m.Room();
  }

  lemma ReceiveHolds(c: Container, m: Message, got: set<nat>, k: nat)
    requires WellFormed(m) && k < m.Total() && Holds(c, m, got) && k !in got
    requires m.Start(k) + |Part(m, k)| <= |m.data|
    ensures Holds(Receive(c, Part(m, k), m.Start(k)), m, got + {k})
  {
    forall j | j in got + {k} ensures Filled(Receive(c, Part(m, k), m.Start(k)).data, m, j) {
      FillKeepsFilled(c.data, m, k, j);
    }
  }

  lemma {:induction false} FullCount(s: set<nat>, n: nat)
    requires forall k | k in s :: k < n
    ensures |s| <= n
    ensures |s| == n ==> forall k: nat | k < n :: k in s
  {
    if n > 0 {
      var t := s - {n - 1};
      FullCount(t, n - 1);
    } else {
      assert s == {};
    }
  }

  /** The chunk that carries the i-th byte. */
  lemma ChunkOf(m: Message, i: nat)
    requires m.Room() > 0 && i < |m.data|
    ensures var k := i / m.Room(); k < m.Total() && m.Start(k) <= i < m.End(k)
  {
    var k := i / m.Room();
    assert i == k * m.Room() + i % m.Room();
    StartsWithin(m, k);
  }

  /** A container with all chunks in place holds the message's data. */
  lemma AllFilledIsData(data: seq<Byte>, m: Message)
    requires WellFormed(m) && |data| == |m.data|
    requires forall k: nat | k < m.Total() :: Filled(data, m, k)
    ensures data == m.data
  {
    forall i | 0 <= i < |data| ensures data[i] == m.data[i] {
      var k := i / m.Room();
      ChunkOf(m, i);
      assert Filled(data, m, k);
      assert data[i] == data[m.Start(k)..m.End(k)][i - m.Start(k)];
    }
  }

  lemma StartsHolding(store: Store, m: Message, got: set<nat>)
    requires WellFormed(m) && Tracks(store, m, got) && |got| < m.Total()
    ensures Holds(ContainerFor(store, m), m, got)
  {
  }

  /** One more chunk of a message: it completes the message exactly when it is the
      last one missing, and touches no other entry. */
  lemma ChunkAdvances(store: Store, m: Message, got: set<nat>, k: nat)
    requires WellFormed(m) && k < m.Total() && k !in got && (forall j | j in got :: j < m.Total())
    requires Tracks(store, m, got)
    ensures var step := DecodeChunk(store, ChunkBytes(m, k));
      && Tracks(step.store, m, got + {k})
      && step.outcome == (if |got| + 1 == m.Total() then Complete(m.sender, m.data) else Pending)
      && (forall key | key != KeyOf(m) :: key in step.store <==> key in store)
      && (forall key | key != KeyOf(m) && key in store :: step.store[key] == store[key])
  {
    FullCount(got, m.Total());
    StartsHolding(store, m, got);
    DecodesChunk(store, m, k);
    var c := ContainerFor(store, m);
    ReceiveHolds(c, m, got, k);
    if |got| + 1 == m.Total() {
      FullCount(got + {k}, m.Total());
      AllFilledIsData(Receive(c, Part(m, k), m.Start(k)).data, m);
    }
  }

  /** A message whose sender and ID no other delivered message shares. */
  predicate Apart(ds: seq<Delivery>, m: Message) {
    forall i | 0 <= i < |ds| :: ds[i].message.sender == m.sender && ds[i].message.id == m.id ==> ds[i].message == m
  }

  lemma GotWithin(ds: seq<Delivery>, m: Message)
    requires Chunked(ds)
    ensures forall k | k in Got(ds, m) :: WellFormed(m) && k < m.Total()
  {
  }

  lemma LastIsNew(ds: seq<Delivery>)
    requires ds != [] && OnceEach(ds)
    ensures var d := ds[|ds| - 1]; d.chunkNum !in Got(ds[..|ds| - 1], d.message)
  {
    var before, d := ds[..|ds| - 1], ds[|ds| - 1];
    forall i | 0 <= i < |before| ensures before[i] != d {
      assert before[i] == ds[i];
    }
    forall i | 0 <= i < |before| && before[i].message == d.message ensures before[i].chunkNum != d.chunkNum {
      assert before[i] == Delivery(before[i].message, before[i].chunkNum);
    }
  }

  /** In every order and interleaving, the decoder's entry for a message holds
      exactly the chunks delivered so far, and there is none before the first and
      after the last. */
  lemma {:induction false} EntriesTrackMessages(ds: seq<Delivery>, m: Message)
    requires Admissible(ds) && WellFormed(m) && Apart(ds, m)
    ensures Tracks(Fed(ds), m, Got(ds, m))
  {
    if ds != [] {
      var before, d := ds[..|ds| - 1], ds[|ds| - 1];
      assert before + [d] == ds;
      EntriesTrackMessages(before, m);
      EntriesTrackMessages(before, d.message);
      LastIsNew(ds);
      GotWithin(before, d.message);
      GotGrows(before, d, m);
      ChunkAdvances(Fed(before), d.message, Got(before, d.message), d.chunkNum);
      if d.message != m && KeyOf(d.message) == KeyOf(m) {
        KeyIsInjective(d.message.sender, d.message.id, m.sender, m.id);
      }
    }
  }

  /** The delivery of a chunk returns nothing until it is the last one missing of
      its message, and then returns exactly the sender and the data. */
  lemma LastChunkCompletes(ds: seq<Delivery>)
    requires ds != [] && Admissible(ds)
    ensures var d := ds[|ds| - 1];
      DecodeChunk(Fed(ds[..|ds| - 1]), ChunkBytes(d.message, d.chunkNum)).outcome ==
      if |Got(ds, d.message)| == d.message.Total() then Complete(d.message.sender, d.message.data) else Pending
  {
    var before, d := ds[..|ds| - 1], ds[|ds| - 1];
    assert before + [d] == ds;
    EntriesTrackMessages(before, d.message);
    LastIsNew(ds);
    GotWithin(before, d.message);
    GotGrows(before, d, d.message);
    ChunkAdvances(Fed(before), d.message, Got(before, d.message), d.chunkNum);
  }

  /** Once every message is complete, nothing is left behind. */
  lemma NothingLeftBehind(ds: seq<Delivery>)
    requires Admissible(ds)
    requires forall i | 0 <= i < |ds| :: |Got(ds, ds[i].message)| == ds[i].message.Total()
    ensures Fed(ds) == map[]
  {
    forall key ensures key !in Fed(ds) {
      if forall i | 0 <= i < |ds| :: KeyOf(ds[i].message) != key {
        OnlyDeliveredKeys(ds, key);
      } else {
        var i :| 0 <= i < |ds| && KeyOf(ds[i].message) == key;
        EntriesTrackMessages(ds, ds[i].message);
      }
    }
  }

  lemma {:induction false} OnlyDeliveredKeys(ds: seq<Delivery>, key: seq<Byte>)
    requires Admissible(ds) && forall i | 0 <= i < |ds| :: KeyOf(ds[i].message) != key
    ensures key !in Fed(ds)
  {
    if ds != [] {
      var before, d := ds[..|ds| - 1], ds[|ds| - 1];
      assert before + [d] == ds;
      OnlyDeliveredKeys(before, key);
      EntriesTrackMessages(before, d.message);
      LastIsNew(ds);
      GotWithin(before, d.message);
      ChunkAdvances(Fed(before), d.message, Got(before, d.message), d.chunkNum);
    }
  }
}
