/** The life of a transport across both nodes, over whole runs: when the promises
    about it are kept, and when a node tears down. */
module ControlLife {
  import opened Common
  import opened ControlTracker
  import opened ControlFactory
  import opened ControlNetwork

  /** What must have happened before a transport is touched. */
  predicate Justified(before: seq<Record>, rec: Record) {
    match rec.effect
    case Made(t) => rec !in before
    case Offered(t) =>
      Record(A, Made(t)) in before && Record(B, Made(t)) in before && rec !in before
    case OfferedNothing(_) => false
    case WriteSideClosed(t) => Record(rec.side, Offered(t)) in before && rec !in before
    case FullyClosed(t, onAck) =>
      && Record(rec.side, WriteSideClosed(t)) in before
      && Record(rec.side, FullyClosed(t, true)) !in before
      && Record(rec.side, FullyClosed(t, false)) !in before
      && (onAck ==> Record(rec.side.Other(), FullyClosed(t, false)) in before)
  }

  predicate Orderly(log: seq<Record>) {
    forall i | 0 <= i < |log| :: Justified(log[..i], log[i])
  }

  /** The side has offered the transport, closed it for writing and closed it. */
  predicate Released(log: seq<Record>, side: Side, t: Transport) {
    && Record(side, Offered(t)) in log && Record(side, WriteSideClosed(t)) in log
    && (Record(side, FullyClosed(t, true)) in log || Record(side, FullyClosed(t, false)) in log)
  }

  /** What the log says about one side's transports for a room, given how many it
      made and the state it is in. */
  ghost predicate Tally(log: seq<Record>, side: Side, r: RoomID, entry: Entry, made: nat) {
    var state := entry.tracker.state;
    && (forall k: nat :: Record(side, Made(Transport(r, k))) in log <==> 1 <= k <= made)
    && (forall k: nat :: Record(side, Offered(Transport(r, k))) in log ==>
          k <= made && (k == made ==> state != Created))
    && (forall k: nat :: Record(side, WriteSideClosed(Transport(r, k))) in log ==>
          k <= made && (k == made ==> state == WriteClosed || state == Closed))
    && (forall k: nat, onAck :: Record(side, FullyClosed(Transport(r, k), onAck)) in log ==>
          k <= made && (k == made ==> state == Closed))
    && (state == Added || state == WriteClosed ==> Record(side, Offered(Transport(r, made))) in log)
    && (state == WriteClosed ==> Record(side, WriteSideClosed(Transport(r, made))) in log)
    && (state != Closed ==> made > 0)
    && (forall k: nat | 1 <= k <= made && (k == made ==> state == Closed) :: Released(log, side, Transport(r, k)))
    && entry.transport == if state == Closed then None else Some(Transport(r, made))
  }

  function CreatesIn(queue: seq<Event>): nat {
    if Create in queue then 1 else 0
  }

  /** The two sides number their transports alike: they differ only by a create
      on the wire. */
  predicate Matched(v: RoomView, mine: nat, theirs: nat) {
    mine + CreatesIn(v.inbound) == theirs + CreatesIn(v.outbound)
  }

  /** The wire agrees with the counts, and a close_ack on the wire means that its
      sender has closed the matching transport. */
  ghost predicate Wired(s: System, side: Side, r: RoomID) {
    var v, mine, theirs := View(s, side, r), s.At(side).MadeIn(r), s.At(side.Other()).MadeIn(r);
    && Legal(v) && Matched(v, mine, theirs)
    && (CloseAck in v.inbound ==> Record(side.Other(), FullyClosed(Transport(r, mine), false)) in s.log)
    && (CloseAck in v.outbound ==> Record(side, FullyClosed(Transport(r, theirs), false)) in s.log)
  }

  ghost predicate Tallied(s: System, side: Side, r: RoomID) {
    Tally(s.log, side, r, s.At(side).Get(r), s.At(side).MadeIn(r))
  }

  ghost predicate TransportsInOrder(s: System, side: Side, r: RoomID) {
    Tallied(s, side, r) && Wired(s, side, r)
  }

  ghost predicate AllInOrder(s: System) {
    Orderly(s.log) && forall side, r :: TransportsInOrder(s, side, r)
  }

  lemma InTag(side: Side, effects: seq<Effect>, rec: Record)
    ensures rec in Tag(side, effects) <==> rec.side == side && rec.effect in effects
  {
    if rec.side == side && rec.effect in effects {
      var i :| 0 <= i < |effects| && effects[i] == rec.effect;
      assert Tag(side, effects)[i] == rec;
    }
  }

  lemma OrderlyGrows(log: seq<Record>, side: Side, effects: seq<Effect>)
    requires Orderly(log)
    requires forall i | 0 <= i < |effects| :: Justified(log + Tag(side, effects[..i]), Record(side, effects[i]))
    ensures Orderly(log + Tag(side, effects))
  {
    var grown := log + Tag(side, effects);
    forall i | 0 <= i < |grown| ensures Justified(grown[..i], grown[i]) {
      if i < |log| {
        assert grown[..i] == log[..i];
      } else {
        assert grown[..i] == log + Tag(side, effects[..i - |log|]);
      }
    }
  }

  /** The ways in which an event can move a room at one side, and what each does
      to the room's transports; made counts the transports made before. */
  datatype Move = Stay | MakeFirst | MakeSecond | OfferFirst | MuteFirst | CloseSecond | CloseFirst

  function MoveFrom(move: Move): State {
    match move
    case MakeFirst => Closed
    case MakeSecond => Closed
    case OfferFirst => Created
    case CloseFirst => WriteClosed
    case _ => Added
  }

  function MoveTarget(move: Move): State {
    match move
    case MakeFirst => Created
    case MuteFirst => WriteClosed
    case CloseSecond => Closed
    case CloseFirst => Closed
    case _ => Added
  }

  function MoveEffects(move: Move, r: RoomID, made: nat): seq<Effect> {
    var next, cur := Transport(r, made + 1), Transport(r, made);
    match move
    case Stay => []
    case MakeFirst => [Made(next)]
    case MakeSecond => [Made(next), Offered(next)]
    case OfferFirst => [Offered(cur)]
    case MuteFirst => [WriteSideClosed(cur)]
    case CloseSecond => [WriteSideClosed(cur), FullyClosed(cur, false)]
    case CloseFirst => [FullyClosed(cur, true)]
  }

  function MoveMade(move: Move, made: nat): nat {
    if move == MakeFirst || move == MakeSecond then made + 1 else made
  }

  predicate Moves(move: Move, before: Entry, after: Entry, r: RoomID, made: nat) {
    if move == Stay then
      after.tracker.state == before.tracker.state && after.transport == before.transport
    else
      && before.tracker.state == MoveFrom(move)
      && after.tracker.state == MoveTarget(move)
      && after.transport == if MoveTarget(move) == Closed then None else Some(Transport(r, MoveMade(move, made)))
  }

  lemma TallyFollowsMove(log: seq<Record>, side: Side, r: RoomID, before: Entry, after: Entry, made: nat, move: Move)
    requires Tally(log, side, r, before, made) && Moves(move, before, after, r, made)
    ensures Tally(log + Tag(side, MoveEffects(move, r, made)), side, r, after, MoveMade(move, made))
  {
    var effects := MoveEffects(move, r, made);
    forall rec ensures rec in log + Tag(side, effects) <==> rec in log || (rec.side == side && rec.effect in effects) {
      InTag(side, effects, rec);
    }
    if MoveMade(move, made) > made {
      TallyFollowsMake(log, log + Tag(side, effects), side, r, before, after, made, move);
    } else {
      TallyFollowsRest(log, log + Tag(side, effects), side, r, before, after, made, move);
    }
  }

  /** The log grows by one side's effects. */
  ghost predicate Grows(log: seq<Record>, grown: seq<Record>, side: Side, effects: seq<Effect>) {
    forall rec :: rec in grown <==> rec in log || (rec.side == side && rec.effect in effects)
  }

  /** A move that makes a transport starts from a closed room, all of whose transports are
      released. */
  lemma TallyFollowsMake(log: seq<Record>, grown: seq<Record>, side: Side, r: RoomID, before: Entry, after: Entry,
                         made: nat, move: Move)
    requires Tally(log, side, r, before, made) && Moves(move, before, after, r, made)
    requires move in {MakeFirst, MakeSecond} && Grows(log, grown, side, MoveEffects(move, r, made))
    ensures Tally(grown, side, r, after, made + 1)
  {
  }

  lemma TallyFollowsRest(log: seq<Record>, grown: seq<Record>, side: Side, r: RoomID, before: Entry, after: Entry,
                         made: nat, move: Move)
    requires Tally(log, side, r, before, made) && Moves(move, before, after, r, made)
    requires move !in {MakeFirst, MakeSecond} && Grows(log, grown, side, MoveEffects(move, r, made))
    ensures Tally(grown, side, r, after, made)
  {
    match move {
      case Stay =>
      case OfferFirst =>
      case MuteFirst =>
      case CloseSecond =>
      case CloseFirst =>
    }
  }

  /** Appending what one side did in one room says nothing about other sides or rooms. */
  lemma TallyIgnores(log: seq<Record>, side: Side, r: RoomID, entry: Entry, made: nat, other: Side, effects: seq<Effect>)
    requires Tally(log, side, r, entry, made)
    requires other != side || forall e | e in effects :: e.Room() != r
    ensures Tally(log + Tag(other, effects), side, r, entry, made)
  {
    forall rec {
      InTag(other, effects, rec);
    }
  }

  /** What a move needs from the peer: before the second make or the first offer
      the peer has made its transport, and before closing on an acknowledgement
      the peer has closed. */
  predicate PeerReady(log: seq<Record>, side: Side, r: RoomID, made: nat, move: Move) {
    && (move == MakeSecond ==> Record(side.Other(), Made(Transport(r, made + 1))) in log)
    && (move == OfferFirst ==> Record(side.Other(), Made(Transport(r, made))) in log)
    && (move == CloseFirst ==> Record(side.Other(), FullyClosed(Transport(r, made), false)) in log)
  }

  lemma MoveIsJustified(log: seq<Record>, side: Side, r: RoomID, before: Entry, after: Entry, made: nat, move: Move)
    requires Orderly(log)
    requires Tally(log, side, r, before, made) && Moves(move, before, after, r, made)
    requires PeerReady(log, side, r, made, move)
    ensures Orderly(log + Tag(side, MoveEffects(move, r, made)))
  {
    var effects := MoveEffects(move, r, made);
    forall i | 0 <= i < |effects| ensures Justified(log + Tag(side, effects[..i]), Record(side, effects[i])) {
      forall rec {
        InTag(side, effects[..i], rec);
      }
      assert i == 1 ==> effects[0] in effects[..i];
      assert i == 1 ==> Record(side, effects[0]) in Tag(side, effects[..i]);
    }
    OrderlyGrows(log, side, effects);
  }

  /** The move that a local event, or an accepted remote event, makes. */
  function WishMove(state: State, want: Want): Move {
    if state == Closed && want == WantCreate then MakeFirst
    else if state == Added && want == WantClose then MuteFirst
    else Stay
  }

  function EventMove(state: State, event: Event): Move {
    if state == Closed && event == Create then MakeSecond
    else if state == Created && event == CreateAck then OfferFirst
    else if state == Added && event == Close then CloseSecond
    else if state == WriteClosed && event == CloseAck then CloseFirst
    else Stay
  }

  /** A room has a transport, its latest, exactly when it is not closed. */
  predicate Stocked(n: Node, room: RoomID) {
    n.Get(room).transport ==
    if n.Get(room).tracker.state == Closed then None else Some(Transport(room, n.MadeIn(room)))
  }

  predicate Performs(n: Node, room: RoomID, o: Outcome, move: Move) {
    && o.effects <= MoveEffects(move, room, n.MadeIn(room))
    && (o.alive ==>
          && o.effects == MoveEffects(move, room, n.MadeIn(room))
          && o.node.MadeIn(room) == MoveMade(move, n.MadeIn(room))
          && Moves(move, n.Get(room), o.node.Get(room), room, n.MadeIn(room)))
  }

  lemma WishPerforms(n: Node, room: RoomID, want: Want, luck: Luck)
    requires Stocked(n, room)
    ensures var o, move := OnLocalWant(n, room, want, luck), WishMove(n.Get(room).tracker.state, want);
      && Performs(n, room, o, move)
      && (o.alive <==> move == Stay || (luck.sends && (move == MakeFirst ==> luck.makes)))
  {
  }

  /** The event makes the node offer a transport that it failed to make. */
  predicate OffersNil(n: Node, m: Message, luck: Luck) {
    n.Get(m.room).tracker.state == Closed && m.event == Create && !luck.makes && luck.offers
  }

  /** An accepted event tears a node down only for want of luck: its transport is
      never missing. */
  lemma DeliveryPerforms(n: Node, m: Message, luck: Luck)
    requires Stocked(n, m.room) && OnRemote(n.Get(m.room).tracker, m.event).Accepted? && !OffersNil(n, m, luck)
    ensures var o, move := OnRemoteMessage(n, m, luck), EventMove(n.Get(m.room).tracker.state, m.event);
      && Performs(n, m.room, o, move)
      && (o.alive <==>
            && (m.event == Create || m.event == Close ==> luck.sends)
            && (move == MakeSecond || move == OfferFirst ==> luck.offers))
  {
  }

  lemma WishKeepsMatch(v: RoomView, want: Want, mine: nat, theirs: nat)
    requires Legal(v) && Matched(v, mine, theirs)
    ensures Matched(AfterWish(v, want), MoveMade(WishMove(v.me, want), mine), theirs)
    ensures CloseAck in v.inbound ==> MoveMade(WishMove(v.me, want), mine) == mine
    ensures CloseAck in AfterWish(v, want).outbound ==> CloseAck in v.outbound
  {
  }

  lemma DeliveryKeepsMatch(v: RoomView, mine: nat, theirs: nat)
    requires Legal(v) && Matched(v, mine, theirs) && v.inbound != [] && !Crossed(v)
    requires OnRemote(Tracker(v.me, NoEvent), v.inbound[0]).Accepted?
    ensures var move, w := EventMove(v.me, v.inbound[0]), AfterDelivery(v);
      && Matched(w, MoveMade(move, mine), theirs)
      && CloseAck !in w.inbound
      && (CloseAck in w.outbound ==> move == CloseSecond && mine == theirs)
      && (move == MakeSecond ==> theirs == mine + 1)
      && (move == OfferFirst ==> theirs == mine)
      && (move == CloseFirst ==> CloseAck in v.inbound)
  {
    match v.inbound[0] {
      case Create => assert v == RoomView(Closed, Created, [], [Create]);
      case CreateAck =>
        assert v == RoomView(Created, Added, [], [CreateAck]) || v == RoomView(Created, WriteClosed, [], [CreateAck, Close]);
      case Close => assert v == RoomView(Added, WriteClosed, [], [Close]);
      case CloseAck =>
        assert v == RoomView(WriteClosed, Closed, [], [CloseAck]) || v == RoomView(WriteClosed, Created, [], [CloseAck, Create]);
    }
  }

  lemma TalliesFollowMove(s: System, side: Side, room: RoomID, o: Outcome, rest: seq<Message>, move: Move, r: RoomID, k: Side)
    requires Tallied(s, k, r)
    requires Performs(s.At(side), room, o, move) && o.alive
    requires r != room ==> o.node.Get(r) == s.At(side).Get(r) && o.node.MadeIn(r) == s.At(side).MadeIn(r)
    ensures Tallied(Install(s, side, room, o, rest), k, r)
  {
    var n := s.At(side);
    if k == side && r == room {
      TallyFollowsMove(s.log, side, r, n.Get(r), o.node.Get(r), n.MadeIn(r), move);
    } else {
      TallyIgnores(s.log, k, r, s.At(k).Get(r), s.At(k).MadeIn(r), side, o.effects);
    }
  }

  lemma OrderlyPrefix(log: seq<Record>, side: Side, part: seq<Effect>, whole: seq<Effect>)
    requires part <= whole && Orderly(log + Tag(side, whole))
    ensures Orderly(log + Tag(side, part))
  {
    var long, short := log + Tag(side, whole), log + Tag(side, part);
    assert short == long[..|short|];
    forall i | 0 <= i < |short| ensures Justified(short[..i], short[i]) {
      assert short[..i] == long[..i];
    }
  }

  lemma PerformedInOrder(s: System, side: Side, room: RoomID, o: Outcome, rest: seq<Message>, move: Move)
    requires Orderly(s.log) && TransportsInOrder(s, side, room)
    requires Performs(s.At(side), room, o, move)
    requires PeerReady(s.log, side, room, s.At(side).MadeIn(room), move)
    requires MoveFrom(move) == StateAt(s, side, room) || move == Stay
    ensures Orderly(Install(s, side, room, o, rest).log)
  {
    var n := s.At(side);
    var made := n.MadeIn(room);
    var target := if move == Stay then n.Get(room) else
      Entry(Tracker(MoveTarget(move), NoEvent),
            if MoveTarget(move) == Closed then None else Some(Transport(room, MoveMade(move, made))));
    MoveIsJustified(s.log, side, room, n.Get(room), target, made, move);
    OrderlyPrefix(s.log, side, o.effects, MoveEffects(move, room, made));
  }

  lemma WiredFlips(s: System, side: Side, r: RoomID)
    ensures Wired(s, side.Other(), r) == Wired(s, side, r)
  {
    FlipView(s, side, r);
  }

  lemma AskStaysWired(s: System, action: Action, r: RoomID)
    requires action.Ask? && !s.down && !Step(s, action).down
    requires Stocked(s.At(action.side), action.room) && Wired(s, action.side, r)
    ensures Wired(Step(s, action), action.side, r)
  {
    var side, n := action.side, s.At(action.side);
    WishPerforms(n, action.room, action.want, action.luck);
    WishMovesOneRoom(n, action.room, action.want, action.luck, r);
    StepKeepsLegal(s, action, r);
    WishView(s, action, r);
    WishKeepsMatch(View(s, side, r), action.want, n.MadeIn(r), s.At(side.Other()).MadeIn(r));
  }

  lemma AskStaysOrderly(s: System, action: Action)
    requires action.Ask? && !s.down && AllInOrder(s)
    ensures Orderly(Step(s, action).log)
  {
    var side, room, n := action.side, action.room, s.At(action.side);
    assert TransportsInOrder(s, side, room);
    WishPerforms(n, room, action.want, action.luck);
    PerformedInOrder(s, side, room, OnLocalWant(n, room, action.want, action.luck), s.Inbox(side),
                     WishMove(n.Get(room).tracker.state, action.want));
  }

  lemma AskStaysInOrder(s: System, action: Action, r: RoomID, k: Side)
    requires action.Ask? && !s.down && AllInOrder(s) && !Step(s, action).down
    ensures TransportsInOrder(Step(s, action), k, r)
  {
    var side, room, n := action.side, action.room, s.At(action.side);
    assert TransportsInOrder(s, side, room) && TransportsInOrder(s, k, r) && TransportsInOrder(s, side, r);
    var o := OnLocalWant(n, room, action.want, action.luck);
    WishPerforms(n, room, action.want, action.luck);
    WishMovesOneRoom(n, room, action.want, action.luck, r);
    TalliesFollowMove(s, side, room, o, s.Inbox(side), WishMove(n.Get(room).tracker.state, action.want), r, k);
    AskStaysWired(s, action, r);
    WiredFlips(Step(s, action), side, r);
  }

  /** The step makes a node offer a transport that it failed to make. */
  predicate StepOffersNil(s: System, action: Action) {
    && action.Deliver? && !s.down && s.Inbox(action.side) != []
    && OffersNil(s.At(action.side), s.Inbox(action.side)[0], action.luck)
  }

  lemma DeliveryStaysWired(s: System, action: Action, r: RoomID)
    requires action.Deliver? && !s.down && !Step(s, action).down && !StepOffersNil(s, action)
    requires s.Inbox(action.side) != []
    requires Stocked(s.At(action.side), s.Inbox(action.side)[0].room) && Wired(s, action.side, r)
    ensures Wired(Step(s, action), action.side, r)
  {
    var side, n, m := action.side, s.At(action.side), s.Inbox(action.side)[0];
    DeliveryMovesOneRoom(n, m, action.luck, r);
    StepKeepsLegal(s, action, r);
    DeliveryView(s, action, r);
    if r == m.room {
      var v := View(s, side, r);
      HeadOfInbox(s, side);
      DeliveryKeepsShape(v);
      DeliveryPerforms(n, m, action.luck);
      DeliveryKeepsMatch(v, n.MadeIn(r), s.At(side.Other()).MadeIn(r));
      InTag(side, MoveEffects(CloseSecond, r, n.MadeIn(r)), Record(side, FullyClosed(Transport(r, n.MadeIn(r)), false)));
    }
  }

  /** What the peer must have done before a delivery has in fact been done. */
  lemma DeliveryFindsPeerReady(s: System, side: Side)
    requires AllInOrder(s) && s.Inbox(side) != []
    ensures var m, n := s.Inbox(side)[0], s.At(side);
      OnRemote(n.Get(m.room).tracker, m.event).Accepted? ==>
      PeerReady(s.log, side, m.room, n.MadeIn(m.room), EventMove(n.Get(m.room).tracker.state, m.event))
  {
    var m, n := s.Inbox(side)[0], s.At(side);
    assert TransportsInOrder(s, side, m.room) && TransportsInOrder(s, side.Other(), m.room);
    HeadOfInbox(s, side);
    var v := View(s, side, m.room);
    DeliveryKeepsShape(v);
    if OnRemote(n.Get(m.room).tracker, m.event).Accepted? {
      DeliveryKeepsMatch(v, n.MadeIn(m.room), s.At(side.Other()).MadeIn(m.room));
    }
  }

  lemma DeliveryStaysOrderly(s: System, action: Action)
    requires action.Deliver? && !s.down && !StepOffersNil(s, action) && AllInOrder(s)
    requires s.Inbox(action.side) != []
    ensures Orderly(Step(s, action).log)
  {
    var side, n, m := action.side, s.At(action.side), s.Inbox(action.side)[0];
    assert TransportsInOrder(s, side, m.room);
    var o := OnRemoteMessage(n, m, action.luck);
    if OnRemote(n.Get(m.room).tracker, m.event).Unexpected? {
      assert o.effects == [] && Step(s, action).log == s.log;
    } else {
      DeliveryPerforms(n, m, action.luck);
      DeliveryFindsPeerReady(s, side);
      PerformedInOrder(s, side, m.room, o, s.Inbox(side)[1..], EventMove(n.Get(m.room).tracker.state, m.event));
    }
  }

  lemma DeliveryStaysInOrder(s: System, action: Action, r: RoomID, k: Side)
    requires action.Deliver? && !s.down && !StepOffersNil(s, action) && AllInOrder(s)
    requires s.Inbox(action.side) != [] && !Step(s, action).down
    ensures TransportsInOrder(Step(s, action), k, r)
  {
    var side, n, m := action.side, s.At(action.side), s.Inbox(action.side)[0];
    assert TransportsInOrder(s, side, m.room) && TransportsInOrder(s, k, r) && TransportsInOrder(s, side, r);
    var o := OnRemoteMessage(n, m, action.luck);
    DeliveryPerforms(n, m, action.luck);
    DeliveryMovesOneRoom(n, m, action.luck, r);
    TalliesFollowMove(s, side, m.room, o, s.Inbox(side)[1..], EventMove(n.Get(m.room).tracker.state, m.event), r, k);
    DeliveryStaysWired(s, action, r);
    WiredFlips(Step(s, action), side, r);
  }

  lemma StepStaysInOrder(s: System, action: Action)
    requires !s.down && !StepOffersNil(s, action) && AllInOrder(s)
    ensures Orderly(Step(s, action).log)
    ensures !Step(s, action).down ==> AllInOrder(Step(s, action))
  {
    if action.Ask? {
      AskStaysOrderly(s, action);
    } else if s.Inbox(action.side) != [] {
      DeliveryStaysOrderly(s, action);
    }
    forall r, k ensures !Step(s, action).down ==> TransportsInOrder(Step(s, action), k, r) {
      if Step(s, action).down {
      } else if action.Ask? {
        AskStaysInOrder(s, action, r, k);
      } else if s.Inbox(action.side) != [] {
        DeliveryStaysInOrder(s, action, r, k);
      }
    }
  }

  /** No step of the run offers a transport that could not be made. */
  predicate NeverOffersNil(actions: seq<Action>) {
    actions == [] ||
    var before, last := actions[..|actions| - 1], actions[|actions| - 1];
    NeverOffersNil(before) && !StepOffersNil(After(before), last)
  }

  lemma StartsInOrder()
    ensures AllInOrder(START)
  {
  }

  /** Somebody was offered nothing. */
  ghost predicate NothingOffered(log: seq<Record>) {
    exists side, r :: Record(side, OfferedNothing(r)) in log
  }

  lemma EventOffersNothing(n: Node, m: Message, luck: Luck, r: RoomID)
    ensures OfferedNothing(r) in OnRemoteMessage(n, m, luck).effects <==> r == m.room && OffersNil(n, m, luck)
  {
  }

  lemma StepOffersNothing(s: System, action: Action)
    ensures NothingOffered(Step(s, action).log) <==> NothingOffered(s.log) || StepOffersNil(s, action)
  {
    var t := Step(s, action);
    var n := s.At(action.side);
    if s.down || (action.Deliver? && s.Inbox(action.side) == []) {
    } else {
      var o := if action.Ask? then OnLocalWant(n, action.room, action.want, action.luck)
               else OnRemoteMessage(n, s.Inbox(action.side)[0], action.luck);
      assert t.log == s.log + Tag(action.side, o.effects);
      forall side, r ensures Record(side, OfferedNothing(r)) in t.log <==>
        Record(side, OfferedNothing(r)) in s.log ||
        (side == action.side && StepOffersNil(s, action) && r == s.Inbox(side)[0].room)
      {
        InTag(action.side, o.effects, Record(side, OfferedNothing(r)));
        if action.Deliver? {
          EventOffersNothing(n, s.Inbox(action.side)[0], action.luck, r);
        }
      }
      if StepOffersNil(s, action) {
        assert Record(action.side, OfferedNothing(s.Inbox(action.side)[0].room)) in t.log;
      }
    }
  }

  /** In every run nothing at all is offered if and only if some step delivers a
      create to a closed room, fails to make its transport, and finds a taker. */
  lemma {:induction false} OffersNothingExactlyWhen(actions: seq<Action>)
    ensures NothingOffered(After(actions).log) <==> !NeverOffersNil(actions)
  {
    if actions != [] {
      var before := actions[..|actions| - 1];
      OffersNothingExactlyWhen(before);
      StepOffersNothing(After(before), actions[|actions| - 1]);
    }
  }

  lemma NothingIsDisorderly(log: seq<Record>)
    requires NothingOffered(log)
    ensures !Orderly(log)
  {
    var side, r :| Record(side, OfferedNothing(r)) in log;
    var i :| 0 <= i < |log| && log[i] == Record(side, OfferedNothing(r));
    assert !Justified(log[..i], log[i]);
  }

  lemma {:induction false} StaysInOrder(actions: seq<Action>)
    requires NeverOffersNil(actions)
    ensures Orderly(After(actions).log)
    ensures !After(actions).down ==> AllInOrder(After(actions))
  {
    if actions == [] {
      StartsInOrder();
    } else {
      var before, last := actions[..|actions| - 1], actions[|actions| - 1];
      StaysInOrder(before);
      if !After(before).down {
        StepStaysInOrder(After(before), last);
      }
    }
  }

  /** In every run, up to and including the step that tears a node down: each
      transport is made once, offered at most once and only after both ends made
      theirs, closed for writing before it is closed, and closed at most once;
      a node that closes on an acknowledgement does so after its peer closed the
      matching transport; and nobody is offered nothing. All of this holds exactly
      when no step offers a transport that could not be made; and then, until a
      teardown, a tracked room has a transport, its latest, exactly when it is not
      closed. */
  lemma {:induction false} TransportsLiveInOrder(actions: seq<Action>)
    ensures Orderly(After(actions).log) <==> NeverOffersNil(actions)
    ensures NeverOffersNil(actions) && !After(actions).down ==> AllInOrder(After(actions))
    ensures NeverOffersNil(actions) && !After(actions).down ==>
      forall side: Side, r :: Stocked(After(actions).At(side), r)
  {
    if NeverOffersNil(actions) {
      StaysInOrder(actions);
      if !After(actions).down {
        forall side: Side, r ensures Stocked(After(actions).At(side), r) {
          assert TransportsInOrder(After(actions), side, r);
        }
      }
    } else {
      OffersNothingExactlyWhen(actions);
      NothingIsDisorderly(After(actions).log);
    }
  }

  /** No transport is left behind: until a teardown, every transport that a node made for
      a room and is no longer using has been offered, closed for writing and closed. */
  lemma {:induction false} TransportsAreReleased(actions: seq<Action>, side: Side, r: RoomID, k: nat)
    requires NeverOffersNil(actions) && !After(actions).down
    requires var n := After(actions).At(side);
      1 <= k <= n.MadeIn(r) && (n.Get(r).tracker.state == Closed || k < n.MadeIn(r))
    ensures Released(After(actions).log, side, Transport(r, k))
  {
    TransportsLiveInOrder(actions);
    assert TransportsInOrder(After(actions), side, r);
  }

  // -----------------------------------------------------------------------
  // Teardown
  // -----------------------------------------------------------------------

  /** The environment lets this action down: an event it must send is not sent, a
      transport it asked for is not made, or one it must offer is not taken. */
  predicate LetDown(s: System, action: Action) {
    match action
    case Ask(side, room, want, luck) =>
      var move := WishMove(StateAt(s, side, room), want);
      (move != Stay && !luck.sends) || (move == MakeFirst && !luck.makes)
    case Deliver(side, luck) =>
      s.Inbox(side) != [] &&
      var m := s.Inbox(side)[0];
      || (m.event in {Create, Close} && !luck.sends)
      || (EventMove(StateAt(s, side, m.room), m.event) in {MakeSecond, OfferFirst} && !luck.offers)
  }

  /** The action delivers a request to a node that has made the same request. */
  predicate MeetsItsLike(s: System, action: Action) {
    action.Deliver? && s.Inbox(action.side) != [] && Crossed(View(s, action.side, s.Inbox(action.side)[0].room))
  }

  /** The action is to close a room that was added without a transport. */
  predicate MissesTransport(s: System, action: Action) {
    match action
    case Ask(side, room, want, _) =>
      want == WantClose && StateAt(s, side, room) == Added && s.At(side).Get(room).transport == None
    case Deliver(side, _) =>
      s.Inbox(side) != [] &&
      var m := s.Inbox(side)[0];
      m.event == Close && StateAt(s, side, m.room) == Added && s.At(side).Get(m.room).transport == None
  }

  /** A side that waits for an acknowledgement has a transport. */
  predicate WaitsWithTransport(n: Node, room: RoomID) {
    n.Get(room).tracker.state in {Created, WriteClosed} ==> n.Get(room).transport.Some?
  }

  lemma StepWaitsWithTransport(s: System, action: Action, side: Side, r: RoomID)
    requires !s.down && !Step(s, action).down && WaitsWithTransport(s.At(side), r)
    ensures WaitsWithTransport(Step(s, action).At(side), r)
  {
    var n := s.At(action.side);
    if side != action.side {
      assert Step(s, action).At(side) == s.At(side);
    } else if action.Ask? {
      WishMovesOneRoom(n, action.room, action.want, action.luck, r);
    } else if s.Inbox(side) != [] {
      DeliveryMovesOneRoom(n, s.Inbox(side)[0], action.luck, r);
    }
  }

  lemma {:induction false} RunWaitsWithTransport(actions: seq<Action>, side: Side, r: RoomID)
    requires !After(actions).down
    ensures WaitsWithTransport(After(actions).At(side), r)
  {
    if actions != [] {
      var before, last := actions[..|actions| - 1], actions[|actions| - 1];
      RunWaitsWithTransport(before, side, r);
      StepWaitsWithTransport(After(before), last, side, r);
    }
  }

  /** Exactly when a step of any run tears down. */
  lemma {:induction false} TeardownExactlyWhen(actions: seq<Action>, action: Action)
    requires !After(actions).down
    ensures var s := After(actions);
      Step(s, action).down <==> LetDown(s, action) || MeetsItsLike(s, action) || MissesTransport(s, action)
  {
    var s := After(actions);
    if action.Ask? {
      RunWaitsWithTransport(actions, action.side, action.room);
      AskDownExactlyWhen(s, action);
    } else if s.Inbox(action.side) != [] {
      var m := s.Inbox(action.side)[0];
      RunWaitsWithTransport(actions, action.side, m.room);
      RefusedOnlyWhenCrossed(actions, action.side);
      DeliveryDownExactlyWhen(s, action);
    }
  }

  /** Without such an offer no step finds a transport missing. */
  lemma {:induction false} NeverMissesTransport(actions: seq<Action>, action: Action)
    requires NeverOffersNil(actions) && !After(actions).down
    ensures !MissesTransport(After(actions), action)
  {
    TransportsLiveInOrder(actions);
    var s, side := After(actions), action.side;
    if action.Ask? {
      assert Stocked(s.At(side), action.room);
    } else if s.Inbox(side) != [] {
      assert Stocked(s.At(side), s.Inbox(side)[0].room);
    }
  }

  lemma AskDownExactlyWhen(s: System, action: Action)
    requires action.Ask? && !s.down && WaitsWithTransport(s.At(action.side), action.room)
    ensures Step(s, action).down <==> LetDown(s, action) || MissesTransport(s, action)
  {
  }

  lemma DeliveryDownExactlyWhen(s: System, action: Action)
    requires action.Deliver? && !s.down && s.Inbox(action.side) != []
    requires WaitsWithTransport(s.At(action.side), s.Inbox(action.side)[0].room)
    ensures var m := s.Inbox(action.side)[0];
      Step(s, action).down <==>
      || LetDown(s, action) || MissesTransport(s, action)
      || OnRemote(s.At(action.side).Get(m.room).tracker, m.event).Unexpected?
  {
  }

  /** In each room only one side asks to create, and only one side to close. */
  predicate OneSided(actions: seq<Action>, creator: RoomID -> Side, closer: RoomID -> Side) {
    forall i | 0 <= i < |actions| && actions[i].Ask? ::
      && (actions[i].want == WantCreate ==> actions[i].side == creator(actions[i].room))
      && (actions[i].want == WantClose ==> actions[i].side == closer(actions[i].room))
  }

  predicate AlwaysLucky(actions: seq<Action>) {
    forall i | 0 <= i < |actions| :: actions[i].luck == Luck(true, true, true)
  }

  /** A side that never asks is never in the state that follows asking. */
  ghost predicate Deferential(s: System, creator: RoomID -> Side, closer: RoomID -> Side) {
    forall r :: StateAt(s, creator(r).Other(), r) != Created && StateAt(s, closer(r).Other(), r) != WriteClosed
  }

  /** A step puts a side into created or write_closed only by that side's asking. */
  lemma OnlyAskingMoves(s: System, action: Action, k: Side, r: RoomID)
    requires !s.down && !Step(s, action).down
    ensures StateAt(Step(s, action), k, r) == Created ==>
      StateAt(s, k, r) == Created || (action.Ask? && action.want == WantCreate && action.side == k && action.room == r)
    ensures StateAt(Step(s, action), k, r) == WriteClosed ==>
      StateAt(s, k, r) == WriteClosed || (action.Ask? && action.want == WantClose && action.side == k && action.room == r)
  {
    if k != action.side {
      assert Step(s, action).At(k) == s.At(k);
    } else if action.Ask? {
      WishView(s, action, r);
      OnlyWishesMove(View(s, k, r), action.want);
    } else if s.Inbox(k) != [] {
      DeliveryView(s, action, r);
      if r == s.Inbox(k)[0].room {
        DeliveriesSettle(View(s, k, r));
      }
    }
  }

  lemma OnlyWishesMove(v: RoomView, want: Want)
    ensures AfterWish(v, want).me == Created ==> v.me == Created || want == WantCreate
    ensures AfterWish(v, want).me == WriteClosed ==> v.me == WriteClosed || want == WantClose
  {
  }

  lemma DeliveriesSettle(v: RoomView)
    requires v.inbound != [] && OnRemote(Tracker(v.me, NoEvent), v.inbound[0]).Accepted?
    ensures AfterDelivery(v).me in {Created, WriteClosed} ==> AfterDelivery(v).me == v.me
  {
  }

  lemma StepStaysDeferential(s: System, action: Action, creator: RoomID -> Side, closer: RoomID -> Side)
    requires Deferential(s, creator, closer) && !s.down && !Step(s, action).down
    requires action.Ask? && action.want == WantCreate ==> action.side == creator(action.room)
    requires action.Ask? && action.want == WantClose ==> action.side == closer(action.room)
    ensures Deferential(Step(s, action), creator, closer)
  {
    var t := Step(s, action);
    forall r ensures StateAt(t, creator(r).Other(), r) != Created && StateAt(t, closer(r).Other(), r) != WriteClosed {
      OnlyAskingMoves(s, action, creator(r).Other(), r);
      OnlyAskingMoves(s, action, closer(r).Other(), r);
    }
  }

  lemma DeferenceAvoidsCrossing(s: System, action: Action, creator: RoomID -> Side, closer: RoomID -> Side)
    requires Deferential(s, creator, closer)
    ensures !MeetsItsLike(s, action)
  {
    if action.Deliver? && s.Inbox(action.side) != [] {
      var r := s.Inbox(action.side)[0].room;
      assert StateAt(s, creator(r).Other(), r) != Created && StateAt(s, closer(r).Other(), r) != WriteClosed;
    }
  }

  /** If each room has one side that creates and one side that closes, no run
      tears down, however the rooms and the two queues interleave. */
  lemma {:induction false} OneSidedRunsStayUp(actions: seq<Action>, creator: RoomID -> Side, closer: RoomID -> Side)
    requires AlwaysLucky(actions) && OneSided(actions, creator, closer)
    ensures !After(actions).down && Deferential(After(actions), creator, closer) && NeverOffersNil(actions)
  {
    if actions != [] {
      var before, last := actions[..|actions| - 1], actions[|actions| - 1];
      OneSidedRunsStayUp(before, creator, closer);
      var s := After(before);
      TeardownExactlyWhen(before, last);
      NeverMissesTransport(before, last);
      DeferenceAvoidsCrossing(s, last, creator, closer);
      StepStaysDeferential(s, last, creator, closer);
    }
  }

  const LUCKY := Luck(true, true, true)

  lemma AfterNext(actions: seq<Action>, action: Action)
    ensures After(actions + [action]) == Step(After(actions), action)
  {
    assert (actions + [action])[..|actions|] == actions;
  }

  /** One side asks for a room, and its request is on its way. */
  lemma OneAsks(r: RoomID)
    ensures var s := After([Ask(A, r, WantCreate, LUCKY)]);
      && !s.down && s.toB == [Message(r, Create)] && s.toA == []
      && StateAt(s, A, r) == Created && s.a.Get(r).transport.Some? && s.b == START.b
  {
    AfterNext([], Ask(A, r, WantCreate, LUCKY));
    assert [] + [Ask(A, r, WantCreate, LUCKY)] == [Ask(A, r, WantCreate, LUCKY)];
  }

  /** Two sides that both ask to create a room do tear down. */
  lemma CrossedCreatesTearDown(r: RoomID)
    ensures After([Ask(A, r, WantCreate, LUCKY), Ask(B, r, WantCreate, LUCKY), Deliver(A, LUCKY)]).down
  {
    var one := [Ask(A, r, WantCreate, LUCKY)];
    var two := one + [Ask(B, r, WantCreate, LUCKY)];
    OneAsks(r);
    AfterNext(one, Ask(B, r, WantCreate, LUCKY));
    assert StateAt(After(two), A, r) == Created && After(two).toA == [Message(r, Create)] && !After(two).down;
    AfterNext(two, Deliver(A, LUCKY));
    assert two + [Deliver(A, LUCKY)] == [Ask(A, r, WantCreate, LUCKY), Ask(B, r, WantCreate, LUCKY), Deliver(A, LUCKY)];
  }

  /** A room that one side asked for and both have added. */
  function Opening(r: RoomID): seq<Action> {
    [Ask(A, r, WantCreate, LUCKY)] + [Deliver(B, LUCKY)] + [Deliver(A, LUCKY)]
  }

  lemma Opened(r: RoomID)
    ensures var s := After(Opening(r));
      && !s.down && s.toA == [] && s.toB == []
      && StateAt(s, A, r) == Added && StateAt(s, B, r) == Added
      && s.a.Get(r).transport.Some? && s.b.Get(r).transport.Some?
  {
    var one := [Ask(A, r, WantCreate, LUCKY)];
    var two := one + [Deliver(B, LUCKY)];
    OneAsks(r);
    AfterNext(one, Deliver(B, LUCKY));
    assert After(two).toA == [Message(r, CreateAck)] && After(two).toB == [] && After(two).a == After(one).a;
    AfterNext(two, Deliver(A, LUCKY));
  }

  /** Two sides that both ask to close a room do tear down. */
  lemma CrossedClosesTearDown(r: RoomID)
    ensures After(Opening(r) + [Ask(A, r, WantClose, LUCKY)] + [Ask(B, r, WantClose, LUCKY)] + [Deliver(A, LUCKY)]).down
  {
    var one := Opening(r) + [Ask(A, r, WantClose, LUCKY)];
    var two := one + [Ask(B, r, WantClose, LUCKY)];
    Opened(r);
    AfterNext(Opening(r), Ask(A, r, WantClose, LUCKY));
    AskToClose(After(Opening(r)), A, r);
    AfterNext(one, Ask(B, r, WantClose, LUCKY));
    AskToClose(After(one), B, r);
    AfterNext(two, Deliver(A, LUCKY));
    HeadOfInbox(After(two), A);
  }

  lemma AskToClose(s: System, side: Side, r: RoomID)
    requires !s.down && StateAt(s, side, r) == Added && s.At(side).Get(r).transport.Some?
    ensures var t := Step(s, Ask(side, r, WantClose, LUCKY));
      && !t.down && StateAt(t, side, r) == WriteClosed && t.At(side.Other()) == s.At(side.Other())
      && t.Inbox(side) == s.Inbox(side) && t.Inbox(side.Other()) == s.Inbox(side.Other()) + [Message(r, Close)]
  {
  }

  /** When a transport cannot be made for a remote create, the room is added and
      acknowledged without one; asking to close it then tears the node down. */
  lemma FailedCreateOffersNothing(r: RoomID)
    ensures var actions := [Ask(A, r, WantCreate, LUCKY), Deliver(B, Luck(false, true, true))];
      var s := After(actions);
      && !s.down && Record(B, OfferedNothing(r)) in s.log
      && StateAt(s, B, r) == Added && s.b.Get(r).transport == None && s.toA == [Message(r, CreateAck)]
      && After(actions + [Ask(B, r, WantClose, LUCKY)]).down
  {
    var one := [Ask(A, r, WantCreate, LUCKY)];
    var fails := Deliver(B, Luck(false, true, true));
    OneAsks(r);
    AfterNext(one, fails);
    FailedDelivery(After(one), B, r);
    assert one + [fails] == [Ask(A, r, WantCreate, LUCKY), fails];
    AfterNext(one + [fails], Ask(B, r, WantClose, LUCKY));
    AskDownExactlyWhen(After(one + [fails]), Ask(B, r, WantClose, LUCKY));
  }

  lemma FailedDelivery(s: System, side: Side, r: RoomID)
    requires !s.down && s.Inbox(side) == [Message(r, Create)] && StateAt(s, side, r) == Closed
    ensures var t := Step(s, Deliver(side, Luck(false, true, true)));
      && !t.down && Record(side, OfferedNothing(r)) in t.log
      && StateAt(t, side, r) == Added && t.At(side).Get(r).transport == None
      && t.Inbox(side.Other()) == s.Inbox(side.Other()) + [Message(r, CreateAck)]
  {
    var o := OnRemoteMessage(s.At(side), Message(r, Create), Luck(false, true, true));
    assert o.effects == [OfferedNothing(r)];
    InTag(side, o.effects, Record(side, OfferedNothing(r)));
  }
}
