/** Two factories joined by a control stream: any number of rooms, any
    interleaving of local wishes and deliveries, one FIFO queue each way. */
module ControlNetwork {
  import opened Common
  import opened ControlTracker
  import opened ControlFactory

  datatype Side = A | B {
    function Other(): Side { if this == A then B else A }
  }

  datatype Record = Record(side: Side, effect: Effect)

  /** The two nodes, the events on their way to each, everything done to
      transports in order, and whether some node has torn down. */
  datatype System = System(a: Node, b: Node, toA: seq<Message>, toB: seq<Message>, log: seq<Record>, down: bool) {
    function At(side: Side): Node { if side == A then a else b }
    function Inbox(side: Side): seq<Message> { if side == A then toA else toB }
  }

  datatype Action =
    | Ask(side: Side, room: RoomID, want: Want, luck: Luck)
    | Deliver(side: Side, luck: Luck)

  const START := System(Node(map[], map[]), Node(map[], map[]), [], [], [], false)

  function Tag(side: Side, effects: seq<Effect>): seq<Record> {
    seq(|effects|, i requires 0 <= i < |effects| => Record(side, effects[i]))
  }

  /** Installs the outcome of an event at one side, whose inbox becomes rest. */
  function Install(s: System, side: Side, room: RoomID, o: Outcome, rest: seq<Message>): System {
    var log := s.log + Tag(side, o.effects);
    if side == A then System(o.node, s.b, rest, s.toB + Address(room, o.sent), log, !o.alive)
    else System(s.a, o.node, s.toA + Address(room, o.sent), rest, log, !o.alive)
  }

  /** One step; a delivery with nothing to deliver, or after a teardown, is void. */
  function Step(s: System, action: Action): System {
    if s.down then s
    else match action
      case Ask(side, room, want, luck) =>
        Install(s, side, room, OnLocalWant(s.At(side), room, want, luck), s.Inbox(side))
      case Deliver(side, luck) =>
        var inbox := s.Inbox(side);
        if inbox == [] then s
        else Install(s, side, inbox[0].room, OnRemoteMessage(s.At(side), inbox[0], luck), inbox[1..])
  }

  function After(actions: seq<Action>): System {
    if actions == [] then START
    else Step(After(actions[..|actions| - 1]), actions[|actions| - 1])
  }

  // -----------------------------------------------------------------------
  // One room, seen from one side
  // -----------------------------------------------------------------------

  function InRoom(queue: seq<Message>, room: RoomID): seq<Event> {
    if queue == [] then []
    else (if queue[0].room == room then [queue[0].event] else []) + InRoom(queue[1..], room)
  }

  function StateAt(s: System, side: Side, room: RoomID): State {
    s.At(side).Get(room).tracker.state
  }

  datatype RoomView = RoomView(me: State, peer: State, outbound: seq<Event>, inbound: seq<Event>)

  function View(s: System, side: Side, room: RoomID): RoomView {
    RoomView(StateAt(s, side, room), StateAt(s, side.Other(), room),
             InRoom(s.Inbox(side.Other()), room), InRoom(s.Inbox(side), room))
  }

  /** The shapes a room can take, up to exchanging the two sides. */
  predicate Shape(v: RoomView) {
    || v == RoomView(Closed, Closed, [], [])
    || v == RoomView(Created, Closed, [Create], [])
    || v == RoomView(Created, Created, [Create], [Create])
    || v == RoomView(Created, Added, [], [CreateAck])
    || v == RoomView(Created, WriteClosed, [], [CreateAck, Close])
    || v == RoomView(Added, Added, [], [])
    || v == RoomView(WriteClosed, Added, [Close], [])
    || v == RoomView(WriteClosed, WriteClosed, [Close], [Close])
    || v == RoomView(WriteClosed, Closed, [], [CloseAck])
    || v == RoomView(WriteClosed, Created, [], [CloseAck, Create])
  }

  function Flip(v: RoomView): RoomView {
    RoomView(v.peer, v.me, v.inbound, v.outbound)
  }

  predicate Legal(v: RoomView) {
    Shape(v) || Shape(Flip(v))
  }

  /** Both sides asked for the same thing and neither request has arrived yet. */
  predicate Crossed(v: RoomView) {
    || v == RoomView(Created, Created, [Create], [Create])
    || v == RoomView(WriteClosed, WriteClosed, [Close], [Close])
  }

  lemma {:induction false} InRoomAppend(queue: seq<Message>, more: seq<Message>, room: RoomID)
    ensures InRoom(queue + more, room) == InRoom(queue, room) + InRoom(more, room)
  {
    if queue == [] {
      assert queue + more == more;
    } else {
      var head := if queue[0].room == room then [queue[0].event] else [];
      calc {
        InRoom(queue + more, room);
        { assert (queue + more)[1..] == queue[1..] + more; }
        head + InRoom(queue[1..] + more, room);
        { InRoomAppend(queue[1..], more, room); }
        head + (InRoom(queue[1..], room) + InRoom(more, room));
        InRoom(queue, room) + InRoom(more, room);
      }
    }
  }

  lemma InRoomAddress(room: RoomID, event: Event, r: RoomID)
    ensures InRoom(Address(room, event), r) == if event == NoEvent || r != room then [] else [event]
  {
    assert Address(room, event) == [] || Address(room, event)[1..] == [];
  }

  /** Installing an outcome for one room is invisible in every other room, and
      in its own room moves one side and extends its outbound queue. */
  lemma InstallView(s: System, side: Side, room: RoomID, o: Outcome, rest: seq<Message>, r: RoomID)
    requires forall q | q != room :: o.node.Get(q) == s.At(side).Get(q)
    ensures var v, w := View(s, side, r), View(Install(s, side, room, o, rest), side, r);
      && w.peer == v.peer
      && w.me == o.node.Get(r).tracker.state
      && w.inbound == InRoom(rest, r)
      && w.outbound == v.outbound + if o.sent == NoEvent || r != room then [] else [o.sent]
  {
    InRoomAppend(s.Inbox(side.Other()), Address(room, o.sent), r);
    InRoomAddress(room, o.sent, r);
  }

  /** A room, seen from the side that handles a local event. */
  function AfterWish(v: RoomView, want: Want): RoomView {
    var r := OnLocal(Tracker(v.me, NoEvent), want);
    v.(me := r.tracker.state, outbound := v.outbound + if r.send == NoEvent then [] else [r.send])
  }

  /** A room, seen from the side that handles the next event of its inbox. */
  function AfterDelivery(v: RoomView): RoomView
    requires v.inbound != [] && OnRemote(Tracker(v.me, NoEvent), v.inbound[0]).Accepted?
  {
    var r := OnRemote(Tracker(v.me, NoEvent), v.inbound[0]);
    v.(me := r.tracker.state, inbound := v.inbound[1..],
       outbound := v.outbound + if r.response == NoEvent then [] else [r.response])
  }

  lemma WishKeepsShape(v: RoomView, want: Want)
    requires Legal(v)
    ensures Legal(AfterWish(v, want))
  {
    if v.me == Closed && want == WantCreate {
      assert v.outbound == [] || v.outbound == [CloseAck];
      assert v.outbound == [CloseAck] ==> AfterWish(v, want).outbound == [CloseAck, Create];
    } else if v.me == Added && want == WantClose {
      assert v.outbound == [] || v.outbound == [CreateAck];
      assert v.outbound == [CreateAck] ==> AfterWish(v, want).outbound == [CreateAck, Close];
    } else {
      assert AfterWish(v, want).outbound == v.outbound;
    }
  }

  /** The next event of an inbox is refused exactly when two requests crossed. */
  lemma DeliveryKeepsShape(v: RoomView)
    requires Legal(v) && v.inbound != []
    ensures OnRemote(Tracker(v.me, NoEvent), v.inbound[0]).Unexpected? <==> Crossed(v)
    ensures !Crossed(v) ==> Legal(AfterDelivery(v))
  {
    if !Crossed(v) {
      var w := AfterDelivery(v);
      assert w.inbound == [] || w.inbound == [Close] || w.inbound == [Create];
    }
  }

  lemma WishMovesOneRoom(n: Node, room: RoomID, want: Want, luck: Luck, q: RoomID)
    ensures var o := OnLocalWant(n, room, want, luck);
      && (q != room ==> o.node.Get(q) == n.Get(q) && o.node.MadeIn(q) == n.MadeIn(q))
      && var r := OnLocal(Tracker(n.Get(room).tracker.state, NoEvent), want);
         && o.node.Get(room).tracker.state == r.tracker.state
         && (o.alive ==> o.sent == r.send)
  {
  }

  lemma DeliveryMovesOneRoom(n: Node, m: Message, luck: Luck, q: RoomID)
    ensures var o := OnRemoteMessage(n, m, luck);
      && (q != m.room ==> o.node.Get(q) == n.Get(q) && o.node.MadeIn(q) == n.MadeIn(q))
      && var r := OnRemote(Tracker(n.Get(m.room).tracker.state, NoEvent), m.event);
         && (r.Unexpected? ==> !o.alive)
         && (o.alive ==> o.node.Get(m.room).tracker.state == r.tracker.state && o.sent == r.response)
  {
  }

  lemma WishView(s: System, action: Action, r: RoomID)
    requires action.Ask? && !s.down && !Step(s, action).down
    ensures var v := View(s, action.side, r);
      View(Step(s, action), action.side, r) == if r == action.room then AfterWish(v, action.want) else v
  {
    var n := s.At(action.side);
    var o := OnLocalWant(n, action.room, action.want, action.luck);
    forall q {
      WishMovesOneRoom(n, action.room, action.want, action.luck, q);
    }
    InstallView(s, action.side, action.room, o, s.Inbox(action.side), r);
  }

  lemma DeliveryView(s: System, action: Action, r: RoomID)
    requires action.Deliver? && !s.down && !Step(s, action).down && s.Inbox(action.side) != []
    ensures var v := View(s, action.side, r);
      if r == s.Inbox(action.side)[0].room then
        && v.inbound != []
        && OnRemote(Tracker(v.me, NoEvent), v.inbound[0]).Accepted?
        && View(Step(s, action), action.side, r) == AfterDelivery(v)
      else View(Step(s, action), action.side, r) == v
  {
    var n, inbox := s.At(action.side), s.Inbox(action.side);
    var o := OnRemoteMessage(n, inbox[0], action.luck);
    forall q {
      DeliveryMovesOneRoom(n, inbox[0], action.luck, q);
    }
    InstallView(s, action.side, inbox[0].room, o, inbox[1..], r);
  }

  lemma StepKeepsLegal(s: System, action: Action, r: RoomID)
    requires !s.down && !Step(s, action).down
    requires Legal(View(s, action.side, r))
    ensures Legal(View(Step(s, action), action.side, r))
  {
    var v := View(s, action.side, r);
    if action.Ask? {
      WishView(s, action, r);
      WishKeepsShape(v, action.want);
    } else if s.Inbox(action.side) != [] {
      DeliveryView(s, action, r);
      if r == s.Inbox(action.side)[0].room {
        DeliveryKeepsShape(v);
      }
    }
  }

  lemma FlipView(s: System, side: Side, r: RoomID)
    ensures View(s, side.Other(), r) == Flip(View(s, side, r))
    ensures Legal(View(s, side.Other(), r)) == Legal(View(s, side, r))
  {
  }

  /** Safety over whole runs: until a teardown every room has a legal shape, on
      both sides, whatever the environment does. */
  lemma {:induction false} RoomsStayLegal(actions: seq<Action>, side: Side, r: RoomID)
    requires !After(actions).down
    ensures Legal(View(After(actions), side, r))
  {
    if actions != [] {
      var before, last := actions[..|actions| - 1], actions[|actions| - 1];
      RoomsStayLegal(before, last.side, r);
      StepKeepsLegal(After(before), last, r);
      FlipView(After(actions), last.side, r);
    }
  }

  /** At most one event on the wire is a request rather than an acknowledgement. */
  predicate OneRequest(queue: seq<Event>) {
    forall i, j | 0 <= i < j < |queue| :: !(queue[i] in {Create, Close} && queue[j] in {Create, Close})
  }

  /** With nothing in flight the two nodes agree, and no side ever has two
      requests on the wire. */
  lemma QuietRoomsAgree(actions: seq<Action>, side: Side, r: RoomID)
    requires !After(actions).down
    ensures var v := View(After(actions), side, r);
      && (v.outbound == [] && v.inbound == [] ==> v.me == v.peer && v.me in {Closed, Added})
      && OneRequest(v.outbound) && OneRequest(v.inbound)
  {
    RoomsStayLegal(actions, side, r);
  }

  lemma HeadOfInbox(s: System, side: Side)
    requires s.Inbox(side) != []
    ensures var m := s.Inbox(side)[0];
      var v := View(s, side, m.room);
      && v.inbound != [] && v.inbound[0] == m.event
      && OnRemote(s.At(side).Get(m.room).tracker, m.event).Unexpected? ==
         OnRemote(Tracker(v.me, NoEvent), m.event).Unexpected?
  {
  }

  /** In every run the next event for a side is refused exactly when it is a
      create that met a create, or a close that met a close. */
  lemma RefusedOnlyWhenCrossed(actions: seq<Action>, side: Side)
    requires !After(actions).down && After(actions).Inbox(side) != []
    ensures var s := After(actions);
      var m := s.Inbox(side)[0];
      OnRemote(s.At(side).Get(m.room).tracker, m.event).Unexpected? <==> Crossed(View(s, side, m.room))
  {
    var s := After(actions);
    var room := s.Inbox(side)[0].room;
    RoomsStayLegal(actions, side, room);
    HeadOfInbox(s, side);
    DeliveryKeepsShape(View(s, side, room));
  }
}
