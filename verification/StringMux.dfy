/** The event loop of the string multiplexer: one queue per stream ID over a single
    link. */
module StringMux {
  import opened Common
  import opened Packetizer

  /** A connection of a stream, and what has been put on its queue. */
  datatype Conn = Conn(streamID: Bytes, closed: bool, queue: seq<Bytes>)

  /** A packet whose connection is being advertised. */
  datatype Offer = Offer(conn: nat, data: Bytes)

  /** A connection is opened or closed, or a packet is put on a connection's queue. */
  datatype Record =
    | Opened(conn: nat, streamID: Bytes)
    | Sent(conn: nat, packet: Packet)
    | Closed(conn: nat)

  /** Connections are numbered in the order of creation; a connection that is only
      being advertised is not yet in the map. */
  datatype State = State(conns: map<Bytes, nat>, all: seq<Conn>, offer: Option<Offer>, log: seq<Record>, down: bool)

  /** What the loop selects: a request for a connection, a packet from the link, an
      accepted advertisement, a request to close a connection, a teardown. When a
      packet may be put on a queue, delivered says whether that comes before a
      teardown. */
  datatype Event =
    | Get(streamID: Bytes, delivered: bool)
    | Receive(packet: Packet, delivered: bool)
    | Accepted(delivered: bool)
    | Close(conn: nat)
    | Teardown

  const START := State(map[], [], None, [], false)

  function Create(s: State, id: Bytes): State {
    s.(all := s.all + [Conn(id, false, [])], log := s.log + [Opened(|s.all|, id)])
  }

  function Send(s: State, c: nat, data: Bytes): State
    requires c < |s.all|
  {
    s.(all := s.all[c := s.all[c].(queue := s.all[c].queue + [data])],
       log := s.log + [Sent(c, Packet(s.all[c].streamID, data))])
  }

  /** Puts a packet on a queue, unless a teardown comes first. */
  function Deliver(s: State, c: nat, data: Bytes, delivered: bool): State
    requires c < |s.all|
  {
    if delivered then Send(s, c, data) else TearDown(s)
  }

  function Shut(s: State, c: nat): State
    requires c < |s.all|
  {
    s.(conns := s.conns - {s.all[c].streamID}, all := s.all[c := s.all[c].(closed := true)], log := s.log + [Closed(c)])
  }

  /** A connection that the map holds under its stream. */
  predicate Mapped(s: State, c: nat)
    requires c < |s.all|
  {
    s.all[c].streamID in s.conns && s.conns[s.all[c].streamID] == c
  }

  function ShutIfMapped(s: State, c: nat): State
    requires c < |s.all|
  {
    if Mapped(s, c) then Shut(s, c) else s
  }

  /** Closes the mapped connections from c on. */
  function ShutFrom(s: State, c: nat): State
    requires c <= |s.all|
    decreases |s.all| - c
  {
    if c == |s.all| then s else ShutFrom(ShutIfMapped(s, c), c + 1)
  }

  function TearDown(s: State): State {
    ShutFrom(s, 0).(down := true)
  }

  /** A request for a connection outside an advertisement of the same stream. */
  function GetNew(s: State, id: Bytes): State {
    if id in s.conns then s else Create(s, id).(conns := s.conns[id := |s.all|])
  }

  /** The advertised connection is taken, and its packet follows. */
  function Settle(s: State, delivered: bool): State
    requires s.offer.Some? && s.offer.value.conn < |s.all|
  {
    var o := s.offer.value;
    Deliver(s.(conns := s.conns[s.all[o.conn].streamID := o.conn], offer := None), o.conn, o.data, delivered)
  }

  /** The offered connection and the connections in the map exist. */
  predicate Indexed(s: State) {
    && (forall id | id in s.conns :: s.conns[id] < |s.all|)
    && (s.offer.Some? ==> s.offer.value.conn < |s.all|)
  }

  /** One turn of the loop; while a connection is advertised only requests for
      connections, its acceptance and a teardown are selected. */
  function Step(s: State, e: Event): State
    requires Indexed(s)
  {
    if s.down then s
    else match e
      case Get(id, delivered) =>
        if s.offer.Some? && s.all[s.offer.value.conn].streamID == id then Settle(s, delivered) else GetNew(s, id)
      case Accepted(delivered) => if s.offer.Some? then Settle(s, delivered) else s
      case Receive(p, delivered) =>
        if s.offer.Some? then s
        else if p.streamID in s.conns then Deliver(s, s.conns[p.streamID], p.data, delivered)
        else Create(s, p.streamID).(offer := Some(Offer(|s.all|, p.data)))
      case Close(c) => if s.offer == None && c < |s.all| && Mapped(s, c) then Shut(s, c) else s
      case Teardown => TearDown(s)
  }

  // -----------------------------------------------------------------------
  // Safety
  // -----------------------------------------------------------------------

  /** A connection that may still be sent to: in the map, or being advertised. */
  predicate Reachable(s: State, c: nat)
    requires c < |s.all|
  {
    Mapped(s, c) || (s.offer.Some? && s.offer.value.conn == c)
  }

  /** What a stream's connection should have on its queue: the packets of the stream
      since its connection was last opened. */
  function Due(log: seq<Record>, id: Bytes): seq<Bytes> {
    if log == [] then []
    else
      var r, before := log[|log| - 1], Due(log[..|log| - 1], id);
      if r.Opened? && r.streamID == id then []
      else if r.Sent? && r.packet.streamID == id then before + [r.packet.data]
      else before
  }

  /** What must have happened before a record. */
  ghost predicate Justified(before: seq<Record>, r: Record) {
    match r
    case Opened(c, id) => forall b | b in before :: b.conn != c
    case Sent(c, p) => Opened(c, p.streamID) in before && Closed(c) !in before
    case Closed(c) => (exists id :: Opened(c, id) in before) && Closed(c) !in before
  }

  /** Every record is justified by those before it. */
  ghost predicate Orderly(log: seq<Record>) {
    log == [] || (Orderly(log[..|log| - 1]) && Justified(log[..|log| - 1], log[|log| - 1]))
  }

  /** The map and the advertisement hold exactly the open connections, one for each
      stream. */
  predicate Placed(s: State) {
    && Indexed(s)
    && (forall id | id in s.conns :: s.all[s.conns[id]].streamID == id)
    && (s.offer.Some? ==> s.all[s.offer.value.conn].streamID !in s.conns)
    && (forall c | 0 <= c < |s.all| :: s.all[c].closed <==> !Reachable(s, c))
  }

  /** The log says which connections were opened and closed, in order, and what is
      due on the queues of the open ones. */
  ghost predicate Logged(s: State) {
    && (forall c | 0 <= c < |s.all| :: Opened(c, s.all[c].streamID) in s.log && (Closed(c) in s.log <==> s.all[c].closed))
    && (forall r | r in s.log :: r.conn < |s.all|)
    && (forall c | 0 <= c < |s.all| && !s.all[c].closed :: s.all[c].queue == Due(s.log, s.all[c].streamID))
    && Orderly(s.log)
  }

  ghost predicate Sound(s: State) {
    Placed(s) && Logged(s)
  }

  lemma DueAppend(log: seq<Record>, r: Record, id: Bytes)
    ensures Due(log + [r], id) ==
      if r.Opened? && r.streamID == id then []
      else if r.Sent? && r.packet.streamID == id then Due(log, id) + [r.packet.data]
      else Due(log, id)
  {
    assert (log + [r])[..|log|] == log;
  }

  lemma OrderlyAppend(log: seq<Record>, r: Record)
    requires Orderly(log) && Justified(log, r)
    ensures Orderly(log + [r])
  {
    assert (log + [r])[..|log|] == log;
  }

  /** At most one open connection for each stream. */
  lemma OneOpenPerStream(s: State, c: nat, d: nat)
    requires Placed(s) && c < |s.all| && d < |s.all|
    requires !s.all[c].closed && !s.all[d].closed && s.all[c].streamID == s.all[d].streamID
    ensures c == d
  {
    assert Reachable(s, c) && Reachable(s, d);
  }

  lemma SendIsPlaced(s: State, c: nat, data: Bytes)
    requires Placed(s) && c < |s.all|
    ensures Placed(Send(s, c, data))
  {
    var t := Send(s, c, data);
    forall d | 0 <= d < |t.all| ensures t.all[d].closed <==> !Reachable(t, d) {
      assert Reachable(t, d) == Reachable(s, d);
    }
  }

  lemma SendIsLogged(s: State, c: nat, data: Bytes)
    requires Logged(s) && c < |s.all| && !s.all[c].closed
    requires forall d | 0 <= d < |s.all| && !s.all[d].closed && s.all[d].streamID == s.all[c].streamID :: d == c
    ensures Logged(Send(s, c, data))
  {
    var t, r := Send(s, c, data), Sent(c, Packet(s.all[c].streamID, data));
    OrderlyAppend(s.log, r);
    forall d | 0 <= d < |t.all| && !t.all[d].closed ensures t.all[d].queue == Due(t.log, t.all[d].streamID) {
      DueAppend(s.log, r, s.all[d].streamID);
    }
    forall d | 0 <= d < |t.all| ensures Opened(d, t.all[d].streamID) in t.log && (Closed(d) in t.log <==> t.all[d].closed) {
      assert Opened(d, s.all[d].streamID) in s.log;
    }
  }

  lemma SendIsSound(s: State, c: nat, data: Bytes)
    requires Sound(s) && c < |s.all| && !s.all[c].closed
    ensures Sound(Send(s, c, data))
  {
    forall d | 0 <= d < |s.all| && !s.all[d].closed && s.all[d].streamID == s.all[c].streamID ensures d == c {
      OneOpenPerStream(s, c, d);
    }
    SendIsPlaced(s, c, data);
    SendIsLogged(s, c, data);
  }

  lemma ShutIsPlaced(s: State, c: nat)
    requires Placed(s) && c < |s.all| && Mapped(s, c)
    ensures Placed(Shut(s, c))
  {
    var t := Shut(s, c);
    forall d | 0 <= d < |t.all| ensures t.all[d].closed <==> !Reachable(t, d) {
      assert s.all[d].closed <==> !Reachable(s, d);
      assert Mapped(t, d) <==> Mapped(s, d) && s.all[d].streamID != s.all[c].streamID;
    }
  }

  lemma ShutIsLogged(s: State, c: nat)
    requires Logged(s) && c < |s.all| && !s.all[c].closed
    ensures Logged(Shut(s, c))
  {
    var t := Shut(s, c);
    assert Opened(c, s.all[c].streamID) in s.log;
    OrderlyAppend(s.log, Closed(c));
    forall d | 0 <= d < |t.all| && !t.all[d].closed ensures t.all[d].queue == Due(t.log, t.all[d].streamID) {
      DueAppend(s.log, Closed(c), s.all[d].streamID);
    }
    forall d | 0 <= d < |t.all| ensures Opened(d, t.all[d].streamID) in t.log && (Closed(d) in t.log <==> t.all[d].closed) {
      assert Opened(d, s.all[d].streamID) in s.log;
    }
  }

  lemma ShutIsSound(s: State, c: nat)
    requires Sound(s) && c < |s.all| && Mapped(s, c)
    ensures Sound(Shut(s, c))
  {
    assert Reachable(s, c);
    ShutIsPlaced(s, c);
    ShutIsLogged(s, c);
  }

  lemma ShutIfMappedIsSound(s: State, c: nat)
    requires Sound(s) && c < |s.all|
    ensures Sound(ShutIfMapped(s, c))
  {
    if Mapped(s, c) {
      ShutIsSound(s, c);
    }
  }

  lemma {:induction false} ShutFromIsSound(s: State, c: nat)
    requires Sound(s) && c <= |s.all|
    ensures Sound(ShutFrom(s, c))
    decreases |s.all| - c
  {
    if c < |s.all| {
      ShutIfMappedIsSound(s, c);
      ShutFromIsSound(ShutIfMapped(s, c), c + 1);
    }
  }

  lemma TearDownIsSound(s: State)
    requires Sound(s)
    ensures Sound(TearDown(s))
  {
    ShutFromIsSound(s, 0);
    var t := ShutFrom(s, 0);
    SameBut(t, t.(down := true));
  }

  lemma SameBut(s: State, t: State)
    requires Sound(s) && t == s.(down := t.down)
    ensures Sound(t)
  {
    forall d | 0 <= d < |t.all| ensures t.all[d].closed <==> !Reachable(t, d) {
      assert Reachable(t, d) == Reachable(s, d);
    }
  }

  lemma DeliverIsSound(s: State, c: nat, data: Bytes, delivered: bool)
    requires Sound(s) && c < |s.all| && !s.all[c].closed
    ensures Sound(Deliver(s, c, data, delivered))
  {
    if delivered {
      SendIsSound(s, c, data);
    } else {
      TearDownIsSound(s);
    }
  }

  /** A new connection, either put into the map or advertised. */
  function Placing(s: State, id: Bytes, offered: Option<Offer>): State {
    var t := Create(s, id);
    if offered == None then t.(conns := s.conns[id := |s.all|]) else t.(offer := offered)
  }

  lemma CreateIsLogged(s: State, id: Bytes)
    requires Logged(s) && forall c | 0 <= c < |s.all| && !s.all[c].closed :: s.all[c].streamID != id
    ensures Logged(Create(s, id))
  {
    var t, r := Create(s, id), Opened(|s.all|, id);
    OrderlyAppend(s.log, r);
    forall d | 0 <= d < |t.all| && !t.all[d].closed ensures t.all[d].queue == Due(t.log, t.all[d].streamID) {
      DueAppend(s.log, r, t.all[d].streamID);
    }
    forall d | 0 <= d < |t.all| ensures Opened(d, t.all[d].streamID) in t.log && (Closed(d) in t.log <==> t.all[d].closed) {
      if d < |s.all| {
        assert Opened(d, s.all[d].streamID) in s.log;
      } else {
        assert t.log[|s.log|] == r;
      }
    }
  }

  lemma PlacingIsPlaced(s: State, id: Bytes, offered: Option<Offer>)
    requires Placed(s) && id !in s.conns
    requires s.offer.Some? ==> offered == None && s.all[s.offer.value.conn].streamID != id
    requires offered.Some? ==> offered.value.conn == |s.all|
    ensures Placed(Placing(s, id, offered))
  {
    var t := Placing(s, id, offered);
    forall d | 0 <= d < |t.all| ensures t.all[d].closed <==> !Reachable(t, d) {
      if d < |s.all| {
        assert s.all[d].closed <==> !Reachable(s, d);
      }
    }
  }

  lemma PlacingIsSound(s: State, id: Bytes, offered: Option<Offer>)
    requires Sound(s) && id !in s.conns
    requires s.offer.Some? ==> offered == None && s.all[s.offer.value.conn].streamID != id
    requires offered.Some? ==> offered.value.conn == |s.all|
    ensures Sound(Placing(s, id, offered))
  {
    forall c | 0 <= c < |s.all| && !s.all[c].closed ensures s.all[c].streamID != id {
      assert Reachable(s, c);
    }
    CreateIsLogged(s, id);
    PlacingIsPlaced(s, id, offered);
  }

  lemma SettleIsSound(s: State, delivered: bool)
    requires Sound(s) && s.offer.Some?
    ensures Sound(Settle(s, delivered))
  {
    var o := s.offer.value;
    var t := s.(conns := s.conns[s.all[o.conn].streamID := o.conn], offer := None);
    assert Placed(t) by {
      forall d | 0 <= d < |t.all| ensures t.all[d].closed <==> !Reachable(t, d) {
        assert s.all[d].closed <==> !Reachable(s, d);
      }
    }
    assert Reachable(s, o.conn);
    DeliverIsSound(t, o.conn, o.data, delivered);
  }

  lemma StepIsSound(s: State, e: Event)
    requires Sound(s)
    ensures Sound(Step(s, e))
  {
    if !s.down {
      match e
      case Get(id, delivered) =>
        if s.offer.Some? && s.all[s.offer.value.conn].streamID == id {
          SettleIsSound(s, delivered);
        } else if id !in s.conns {
          PlacingIsSound(s, id, None);
        }
      case Accepted(delivered) =>
        if s.offer.Some? {
          SettleIsSound(s, delivered);
        }
      case Receive(p, delivered) =>
        if s.offer == None {
          if p.streamID in s.conns {
            assert Reachable(s, s.conns[p.streamID]);
            DeliverIsSound(s, s.conns[p.streamID], p.data, delivered);
          } else {
            PlacingIsSound(s, p.streamID, Some(Offer(|s.all|, p.data)));
          }
        }
      case Close(c) =>
        if s.offer == None && c < |s.all| && Mapped(s, c) {
          ShutIsSound(s, c);
        }
      case Teardown => TearDownIsSound(s);
    }
  }

  // -----------------------------------------------------------------------
  // Runs
  // -----------------------------------------------------------------------

  lemma StartIsSound()
    ensures Sound(START)
  {
  }

  /** In every run at most one connection of a stream is open, no connection is
      closed twice or sent to after it was closed, and every open connection has
      been given exactly the packets of its stream since it was opened, in order. */
  ghost function Run(events: seq<Event>): (s: State)
    ensures Sound(s)
  {
    if events == [] then
      StartIsSound();
      START
    else
      var before := Run(events[..|events| - 1]);
      StepIsSound(before, events[|events| - 1]);
      Step(before, events[|events| - 1])
  }

  // -----------------------------------------------------------------------
  // What each event achieves
  // -----------------------------------------------------------------------

  /** The connections below n, and all of them but one, are what they were. */
  predicate SameBelow(s: State, t: State, n: nat, but: int)
    requires n <= |s.all| && n <= |t.all|
  {
    forall d | 0 <= d < n && d != but :: t.all[d] == s.all[d]
  }

  /** Closing an open connection closes it and frees its stream; closing one that is
      closed already does nothing; no other connection is touched. */
  lemma CloseCloses(s: State, c: nat)
    requires Sound(s) && !s.down && s.offer == None && c < |s.all|
    ensures var t := Step(s, Close(c));
      if s.all[c].closed then t == s
      else
        && |t.all| == |s.all| && t.all[c] == s.all[c].(closed := true) && SameBelow(s, t, |s.all|, c)
        && t.conns == s.conns - {s.all[c].streamID} && s.all[c].streamID in s.conns
        && t.offer == None && !t.down
  {
    assert s.all[c].closed <==> !Reachable(s, c);
  }

  /** A request for a stream that has no connection gives it a new, open, empty one; a
      request for a known stream changes nothing. */
  lemma GetOpens(s: State, id: Bytes, delivered: bool)
    requires Sound(s) && !s.down && (s.offer.Some? ==> s.all[s.offer.value.conn].streamID != id)
    ensures var t := Step(s, Get(id, delivered));
      if id in s.conns then t == s
      else
        && t.all == s.all + [Conn(id, false, [])] && t.conns == s.conns[id := |s.all|]
        && t.offer == s.offer && !t.down
  {
  }

  /** A packet of a known stream is put on its queue; for an unknown stream a new
      connection is advertised, which is not in the map yet. */
  lemma ReceiveQueuesOrOffers(s: State, p: Packet)
    requires Sound(s) && !s.down && s.offer == None
    ensures var t := Step(s, Receive(p, true));
      if p.streamID in s.conns then
        var c := s.conns[p.streamID];
        && |t.all| == |s.all| && t.all[c] == s.all[c].(queue := s.all[c].queue + [p.data]) && SameBelow(s, t, |s.all|, c)
        && t.conns == s.conns && t.offer == None && !t.down
      else
        && t.all == s.all + [Conn(p.streamID, false, [])] && t.offer == Some(Offer(|s.all|, p.data))
        && t.conns == s.conns && !t.down
  {
  }

  /** An advertised connection is taken by whoever accepts it or asks for its stream: it
      enters the map, and its packet is put on its queue. */
  lemma OfferIsTaken(s: State, e: Event)
    requires Sound(s) && !s.down && s.offer.Some?
    requires e == Accepted(true) || e == Get(s.all[s.offer.value.conn].streamID, true)
    ensures var t, o := Step(s, e), s.offer.value;
      && |t.all| == |s.all| && t.all[o.conn] == s.all[o.conn].(queue := s.all[o.conn].queue + [o.data])
      && SameBelow(s, t, |s.all|, o.conn)
      && t.conns == s.conns[s.all[o.conn].streamID := o.conn] && t.offer == None && !t.down
  {
  }

  /** The connections from c on that the map holds are closed, and their streams freed. */
  predicate ShutsFrom(s: State, t: State, c: nat) {
    && |t.all| == |s.all| && t.offer == s.offer && t.down == s.down
    && (forall d | 0 <= d < |s.all| :: t.all[d] == s.all[d].(closed := s.all[d].closed || (d >= c && Mapped(s, d))))
    && (forall id | id in t.conns :: id in s.conns && t.conns[id] == s.conns[id] < c)
    && (forall id | id in s.conns && s.conns[id] < c :: id in t.conns)
  }

  lemma {:induction false} ShutFromShuts(s: State, c: nat)
    requires Placed(s) && c <= |s.all|
    ensures ShutsFrom(s, ShutFrom(s, c), c)
    decreases |s.all| - c
  {
    if c < |s.all| {
      var u := ShutIfMapped(s, c);
      if Mapped(s, c) {
        ShutIsPlaced(s, c);
      }
      ShutFromShuts(u, c + 1);
      ShutsOneMore(s, u, ShutFrom(u, c + 1), c);
    }
  }

  lemma ShutsOneMore(s: State, u: State, t: State, c: nat)
    requires Placed(s) && c < |s.all| && u == ShutIfMapped(s, c) && ShutsFrom(u, t, c + 1)
    ensures ShutsFrom(s, t, c)
  {
    forall d | 0 <= d < |s.all| ensures t.all[d] == s.all[d].(closed := s.all[d].closed || (d >= c && Mapped(s, d))) {
      assert t.all[d] == u.all[d].(closed := u.all[d].closed || (d >= c + 1 && Mapped(u, d)));
      assert d != c ==> (Mapped(u, d) <==> Mapped(s, d));
    }
  }

  /** A teardown closes every connection in the map and empties it; queues and the
      connection that is only advertised are left alone; and nothing happens afterwards. */
  lemma TearDownCloses(s: State, e: Event)
    requires Sound(s) && !s.down
    ensures var t := Step(s, Teardown);
      && t.down && t.conns == map[] && |t.all| == |s.all| && t.offer == s.offer
      && (forall d | 0 <= d < |s.all| :: t.all[d] == s.all[d].(closed := s.all[d].closed || Mapped(s, d)))
      && Indexed(t) && Step(t, e) == t
  {
    ShutFromShuts(s, 0);
  }

  /** The packets put on queues, in order. */
  function Handled(log: seq<Record>): seq<Packet> {
    if log == [] then []
    else Handled(log[..|log| - 1]) + if log[|log| - 1].Sent? then [log[|log| - 1].packet] else []
  }

  /** The packet that waits for its connection to be accepted. */
  function Waiting(s: State): seq<Packet> {
    if s.offer.Some? && s.offer.value.conn < |s.all| then [Packet(s.all[s.offer.value.conn].streamID, s.offer.value.data)] else []
  }

  /** The packets that the loop took from the link, in order. */
  ghost function Taken(events: seq<Event>): seq<Packet> {
    if events == [] then []
    else
      var before, e := events[..|events| - 1], events[|events| - 1];
      Taken(before) + if e.Receive? && !Run(before).down && Run(before).offer == None then [e.packet] else []
  }

  lemma HandledAppend(log: seq<Record>, r: Record)
    ensures Handled(log + [r]) == Handled(log) + if r.Sent? then [r.packet] else []
  {
    assert (log + [r])[..|log|] == log;
  }

  /** The same packets are handled and offered, on the same connections. */
  predicate HandlesAlike(s: State, t: State) {
    && Handled(t.log) == Handled(s.log) && t.offer == s.offer && |t.all| == |s.all|
    && forall d | 0 <= d < |s.all| :: t.all[d].streamID == s.all[d].streamID
  }

  lemma ShutHandlesNothing(s: State, c: nat)
    requires c < |s.all|
    ensures HandlesAlike(s, ShutIfMapped(s, c))
  {
    HandledAppend(s.log, Closed(c));
  }

  lemma {:induction false} ShuttingHandlesNothing(s: State, c: nat)
    requires c <= |s.all|
    ensures HandlesAlike(s, ShutFrom(s, c))
    decreases |s.all| - c
  {
    if c < |s.all| {
      var t := ShutIfMapped(s, c);
      ShutHandlesNothing(s, c);
      ShuttingHandlesNothing(t, c + 1);
      assert forall d | 0 <= d < |s.all| :: t.all[d].streamID == s.all[d].streamID;
    }
  }

  lemma DeliveryHandles(s: State, c: nat, data: Bytes, delivered: bool)
    requires c < |s.all|
    ensures Handled(Deliver(s, c, data, delivered).log) ==
      Handled(s.log) + if delivered then [Packet(s.all[c].streamID, data)] else []
    ensures Deliver(s, c, data, delivered).offer == s.offer
    ensures Deliver(s, c, data, delivered).down <==> s.down || !delivered
  {
    HandledAppend(s.log, Sent(c, Packet(s.all[c].streamID, data)));
    ShuttingHandlesNothing(s, 0);
  }

  /** From one state to the next, more packets have been taken: until a teardown
      they are all handled or waiting, and none is handled out of turn. */
  predicate Accounts(s: State, t: State, more: seq<Packet>) {
    var before, after := Handled(s.log) + Waiting(s) + more, Handled(t.log) + Waiting(t);
    after <= before && (!t.down ==> after == before)
  }

  lemma CreateAccounts(s: State, id: Bytes)
    requires Sound(s)
    ensures Accounts(s, GetNew(s, id), [])
  {
    HandledAppend(s.log, Opened(|s.all|, id));
    assert Waiting(GetNew(s, id)) == Waiting(s);
    assert Handled(s.log) + Waiting(s) + [] == Handled(s.log) + Waiting(s);
  }

  lemma ReceiveAccounts(s: State, p: Packet, delivered: bool)
    requires Sound(s) && !s.down && s.offer == None
    ensures Accounts(s, Step(s, Receive(p, delivered)), [p])
  {
    var t, h := Step(s, Receive(p, delivered)), Handled(s.log);
    assert h + Waiting(s) + [p] == h + [p];
    if p.streamID in s.conns {
      DeliveryHandles(s, s.conns[p.streamID], p.data, delivered);
      assert Waiting(t) == [];
      assert Handled(t.log) + [] == Handled(t.log);
    } else {
      HandledAppend(s.log, Opened(|s.all|, p.streamID));
      assert Handled(t.log) == h && Waiting(t) == [p];
    }
  }

  lemma SettleAccounts(s: State, delivered: bool)
    requires Sound(s) && s.offer.Some? && !s.down
    ensures Accounts(s, Settle(s, delivered), [])
  {
    SettleHandles(s, delivered);
  }

  /** What one turn of the loop does to the packets handled and waiting. */
  lemma StepHandles(s: State, e: Event)
    requires Sound(s) && !s.down
    ensures Accounts(s, Step(s, e), if e.Receive? && s.offer == None then [e.packet] else [])
  {
    match e
    case Get(id, delivered) =>
      if s.offer.Some? && s.all[s.offer.value.conn].streamID == id {
        SettleAccounts(s, delivered);
      } else {
        CreateAccounts(s, id);
      }
    case Accepted(delivered) =>
      if s.offer.Some? {
        SettleAccounts(s, delivered);
      }
    case Receive(p, delivered) =>
      if s.offer == None {
        ReceiveAccounts(s, p, delivered);
      }
    case Close(c) =>
      HandledAppend(s.log, Closed(c));
    case Teardown =>
      ShuttingHandlesNothing(s, 0);
  }

  lemma SettleHandles(s: State, delivered: bool)
    requires Sound(s) && s.offer.Some? && !s.down
    ensures var t := Settle(s, delivered);
      && t.offer == None && (t.down <==> !delivered)
      && Handled(t.log) == Handled(s.log) + if delivered then Waiting(s) else []
  {
    var o := s.offer.value;
    var mapped := s.(conns := s.conns[s.all[o.conn].streamID := o.conn], offer := None);
    DeliveryHandles(mapped, o.conn, o.data, delivered);
  }

  /** Packets are handled in the order in which they were taken from the link, and
      until a teardown only the one that waits is outstanding. */
  lemma {:induction false} HandledAsTaken(events: seq<Event>)
    ensures var s := Run(events);
      && Handled(s.log) + Waiting(s) <= Taken(events)
      && (!s.down ==> Handled(s.log) + Waiting(s) == Taken(events))
  {
    if events != [] {
      var before := events[..|events| - 1];
      HandledAsTaken(before);
      if !Run(before).down {
        StepHandles(Run(before), events[|events| - 1]);
      }
    }
  }

  // -----------------------------------------------------------------------
  // The link
  // -----------------------------------------------------------------------

  function Truncate(frame: Bytes, mtu: nat): Bytes {
    if |frame| <= mtu then frame else frame[..mtu]
  }

  /** The reading loop: it parses frame after frame and stops at the first error. */
  function ReadLink(frames: seq<Bytes>, mtu: nat): seq<Packet> {
    if frames == [] then []
    else match Unmarshal(Truncate(frames[0], mtu))
      case Parsed(p) => [p] + ReadLink(frames[1..], mtu)
      case ParseError(_) => []
  }

  /** A frame survives the link exactly when it is within the MTU. */
  lemma FrameSurvives(p: Packet, mtu: nat)
    requires |p.streamID| <= MAX_LEN_STREAM_ID
    ensures Unmarshal(Truncate(FrameOf(p), mtu)) == Parsed(p) <==> |FrameOf(p)| <= mtu
  {
    FramesRoundTrip(p, Truncate(FrameOf(p), mtu));
  }

  predicate Sendable(writes: seq<Packet>, mtu: nat) {
    forall i | 0 <= i < |writes| :: |writes[i].streamID| <= MAX_LEN_STREAM_ID && |FrameOf(writes[i])| <= mtu
  }

  function Frames(writes: seq<Packet>): seq<Bytes>
    requires forall i | 0 <= i < |writes| :: |writes[i].streamID| <= MAX_LEN_STREAM_ID
  {
    if writes == [] then [] else [FrameOf(writes[0])] + Frames(writes[1..])
  }

  lemma {:induction false} LinkDelivers(writes: seq<Packet>, mtu: nat)
    requires Sendable(writes, mtu)
    ensures ReadLink(Frames(writes), mtu) == writes
  {
    if writes != [] {
      FrameSurvives(writes[0], mtu);
      LinkDelivers(writes[1..], mtu);
    }
  }

  /** After a frame that does not parse nothing more is read. */
  lemma {:induction false} ReadingStops(frames: seq<Bytes>, mtu: nat, i: nat)
    requires i < |frames| && Unmarshal(Truncate(frames[i], mtu)).ParseError?
    ensures ReadLink(frames, mtu) == ReadLink(frames[..i], mtu)
  {
    if i > 0 {
      assert frames[..i][1..] == frames[1..][..i - 1];
      ReadingStops(frames[1..], mtu, i - 1);
    }
  }

  /** The data of the packets of one stream. */
  function OfStream(packets: seq<Packet>, id: Bytes): seq<Bytes> {
    if packets == [] then []
    else
      var p := packets[|packets| - 1];
      OfStream(packets[..|packets| - 1], id) + if p.streamID == id then [p.data] else []
  }

  lemma OfStreamAppend(packets: seq<Packet>, p: Packet, id: Bytes)
    ensures OfStream(packets + [p], id) == OfStream(packets, id) + if p.streamID == id then [p.data] else []
  {
    assert (packets + [p])[..|packets|] == packets;
  }

  predicate IsSuffix(part: seq<Bytes>, whole: seq<Bytes>) {
    |part| <= |whole| && part == whole[|whole| - |part|..]
  }

  /** What is due on a stream's queue is the end of what was handled of the stream:
      in order, and without gaps since the connection was opened. */
  lemma {:induction false} DueIsSuffix(log: seq<Record>, id: Bytes)
    ensures IsSuffix(Due(log, id), OfStream(Handled(log), id))
  {
    if log != [] {
      var before, r := log[..|log| - 1], log[|log| - 1];
      DueIsSuffix(before, id);
      if r.Sent? {
        OfStreamAppend(Handled(before), r.packet, id);
      } else {
        assert Handled(log) == Handled(before);
      }
    }
  }

  /** End to end: if the loop took what the link read of frames within the MTU, then
      everything handled was written, in that order, and the queue of every open
      connection ends with the latest packets written to its stream so far. */
  lemma DeliversInOrder(writes: seq<Packet>, mtu: nat, events: seq<Event>, c: nat)
    requires Sendable(writes, mtu) && Taken(events) <= ReadLink(Frames(writes), mtu)
    requires c < |Run(events).all| && !Run(events).all[c].closed
    ensures var s := Run(events);
      && Handled(s.log) <= writes
      && IsSuffix(s.all[c].queue, OfStream(writes[..|Handled(s.log)|], s.all[c].streamID))
  {
    var s := Run(events);
    LinkDelivers(writes, mtu);
    HandledAsTaken(events);
    assert Handled(s.log) <= Handled(s.log) + Waiting(s);
    assert Handled(s.log) == writes[..|Handled(s.log)|];
    DueIsSuffix(s.log, s.all[c].streamID);
  }

  // -----------------------------------------------------------------------
  // The loop as it runs
  // -----------------------------------------------------------------------

  datatype GetResult = Given(conn: nat) | AlreadyExists

  datatype CloseResult = CloseOk | ConnNotFound

  class Mux {
    var conns: map<Bytes, nat>
    var all: seq<Conn>
    var offer: Option<Offer>
    var log: seq<Record>
    var down: bool

    constructor ()
      ensures View() == START && Sound(View())
    {
      conns, all, offer, log, down := map[], [], None, [], false;
      new;
      StartIsSound();
    }

    function View(): State
      reads this
    {
      State(conns, all, offer, log, down)
    }

    method CreateConn(streamID: Bytes) returns (conn: nat)
      modifies this`all, this`log
      ensures View() == Create(old(View()), streamID) && conn == |old(all)|
    {
      conn := |all|;
      all := all + [Conn(streamID, false, [])];
      log := log + [Opened(conn, streamID)];
    }

    method GetNewConn(streamID: Bytes) returns (result: GetResult)
      modifies this`conns, this`all, this`log
      ensures View() == GetNew(old(View()), streamID)
      ensures result == if streamID in old(conns) then AlreadyExists else Given(|old(all)|)
    {
      if streamID in conns {
        return AlreadyExists;
      }
      var conn := CreateConn(streamID);
      conns := conns[streamID := conn];
      return Given(conn);
    }

    method CloseConn(conn: nat)
      requires conn < |all|
      modifies this`conns, this`all, this`log
      ensures View() == Shut(old(View()), conn)
    {
      conns := conns - {all[conn].streamID};
      all := all[conn := all[conn].(closed := true)];
      log := log + [Closed(conn)];
    }

    /** The loop's deferred cleanup. */
    method CloseAll()
      modifies this`conns, this`all, this`log, this`down
      ensures View() == TearDown(old(View()))
    {
      ghost var before := View();
      for i := 0 to |all|
        invariant |all| == |before.all| && ShutFrom(View(), i) == ShutFrom(before, 0)
      {
        if all[i].streamID in conns && conns[all[i].streamID] == i {
          CloseConn(i);
        }
      }
      down := true;
    }

    /** Puts a packet on an open connection's queue, unless a teardown comes first. */
    method SendTo(conn: nat, data: Bytes, delivered: bool)
      requires conn < |all| && !all[conn].closed
      modifies this`conns, this`all, this`log, this`down
      ensures View() == Deliver(old(View()), conn, data, delivered)
    {
      if delivered {
        log := log + [Sent(conn, Packet(all[conn].streamID, data))];
        all := all[conn := all[conn].(queue := all[conn].queue + [data])];
      } else {
        CloseAll();
      }
    }

    /** One selection of the loop. */
    method Select(e: Event)
      requires Sound(View())
      modifies this
      ensures View() == Step(old(View()), e) && Sound(View())
    {
      StepIsSound(View(), e);
      if down {
        return;
      }
      match e {
        case Get(id, delivered) =>
          if offer.Some? && all[offer.value.conn].streamID == id {
            TakeOffer(delivered);
          } else {
            var _ := GetNewConn(id);
          }
        case Accepted(delivered) =>
          if offer.Some? {
            TakeOffer(delivered);
          }
        case Receive(p, delivered) =>
          if offer == None {
            HandlePacket(p, delivered);
          }
        case Close(conn) =>
          if offer == None && conn < |all| {
            var _ := HandleClose(conn);
          }
        case Teardown =>
          CloseAll();
      }
    }

    /** The advertised connection enters the map and gets its packet. */
    method TakeOffer(delivered: bool)
      requires Sound(View()) && offer.Some?
      modifies this
      ensures View() == Settle(old(View()), delivered)
    {
      var conn, data := offer.value.conn, offer.value.data;
      assert Reachable(View(), conn);
      conns := conns[all[conn].streamID := conn];
      offer := None;
      SendTo(conn, data, delivered);
    }

    method HandlePacket(p: Packet, delivered: bool)
      requires Sound(View()) && offer == None && !down
      modifies this
      ensures View() == Step(old(View()), Receive(p, delivered))
    {
      if p.streamID in conns {
        assert Reachable(View(), conns[p.streamID]);
        SendTo(conns[p.streamID], p.data, delivered);
      } else {
        var conn := CreateConn(p.streamID);
        offer := Some(Offer(conn, p.data));
      }
    }

    method HandleClose(conn: nat) returns (result: CloseResult)
      requires Sound(View()) && offer == None && !down && conn < |all|
      modifies this
      ensures View() == Step(old(View()), Close(conn))
      ensures result == ConnNotFound <==> old(all)[conn].streamID !in old(conns)
      ensures result == CloseOk ==> old(all)[conn].streamID in old(conns)
      ensures all[conn].closed && (!old(all)[conn].closed ==> all[conn].streamID !in conns)
    {
      CloseCloses(View(), conn);
      var streamID := all[conn].streamID;
      if streamID !in conns {
        return ConnNotFound;
      }
      if conns[streamID] == conn {
        CloseConn(conn);
      }
      return CloseOk;
    }
  }
}
