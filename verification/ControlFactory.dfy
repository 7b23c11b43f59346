/** The transport factory of one node: it keeps a tracker and a transport per
    room, and turns local wishes and remote control events into transports made,
    offered, closed for writing and closed. */
module ControlFactory {
  import opened Common
  import opened ControlTracker

  type RoomID = string

  /** A transport is identified by its room and by how many transports the node
      had made for that room when it was made (1, 2, ...). */
  datatype Transport = Transport(room: RoomID, serial: nat)

  datatype Message = Message(room: RoomID, event: Event)

  /** What the factory does to the outside world, other than sending. */
  datatype Effect =
    | Made(transport: Transport)
    | Offered(transport: Transport)
    | OfferedNothing(room: RoomID)
    | WriteSideClosed(transport: Transport)
    | FullyClosed(transport: Transport, onAck: bool)
  {
    function Room(): RoomID {
      if OfferedNothing? then room else transport.room
    }
  }

  /** The outcomes that the factory does not decide: whether createTransport
      succeeds, whether an offered transport is taken before a teardown, and
      whether the control stream accepts an event. */
  datatype Luck = Luck(makes: bool, offers: bool, sends: bool)

  datatype Entry = Entry(tracker: Tracker, transport: Option<Transport>)

  /** The factory's map, and how many transports it has made for each room. */
  datatype Node = Node(rooms: map<RoomID, Entry>, made: map<RoomID, nat>) {
    function Get(room: RoomID): Entry {
      if room in rooms then rooms[room] else Entry(INITIAL, None)
    }
    function MadeIn(room: RoomID): nat {
      if room in made then made[room] else 0
    }
    function Put(room: RoomID, entry: Entry): Node {
      this.(rooms := rooms[room := entry])
    }
    function Make(room: RoomID, tracker: Tracker): Node {
      Put(room, Entry(tracker, Some(Transport(room, MadeIn(room) + 1)))).(made := made[room := MadeIn(room) + 1])
    }
    function Drop(room: RoomID): Node {
      this.(rooms := rooms - {room})
    }
  }

  /** The result of handling one event; the factory tears down unless alive. */
  datatype Outcome = Outcome(node: Node, effects: seq<Effect>, sent: Event, alive: bool)

  function Address(room: RoomID, event: Event): seq<Message> {
    if event == NoEvent then [] else [Message(room, event)]
  }

  /** Follows a reaction with the event to send, unless the factory is tearing down. */
  function ThenSend(o: Outcome, event: Event, luck: Luck): Outcome {
    if !o.alive || event == NoEvent then o
    else if luck.sends then o.(sent := event)
    else o.(alive := false)
  }

  function Offering(n: Node, before: seq<Effect>, offer: Effect, luck: Luck): Outcome {
    Outcome(n, before + if luck.offers then [offer] else [], NoEvent, luck.offers)
  }

  /** The reaction to an accepted event that changed the room's state. */
  function Reacting(n: Node, m: Message, luck: Luck): (o: Outcome)
    ensures o.sent == NoEvent
  {
    var e := n.Get(m.room);
    if m.event == Create then
      if luck.makes then
        var t := Transport(m.room, n.MadeIn(m.room) + 1);
        Offering(n.Make(m.room, e.tracker), [Made(t)], Offered(t), luck)
      else
        Offering(n.Put(m.room, e.(transport := None)), [], OfferedNothing(m.room), luck)
    else if e.transport == None then Outcome(n, [], NoEvent, false)
    else if m.event == CreateAck then Offering(n, [], Offered(e.transport.value), luck)
    else if m.event == Close then
      Outcome(n.Drop(m.room), [WriteSideClosed(e.transport.value), FullyClosed(e.transport.value, false)], NoEvent, true)
    else
      Outcome(n.Drop(m.room), [FullyClosed(e.transport.value, true)], NoEvent, true)
  }

  function OnRemoteMessage(n: Node, m: Message, luck: Luck): Outcome {
    var e := n.Get(m.room);
    match OnRemote(e.tracker, m.event)
    case Unexpected => Outcome(n.Put(m.room, e), [], NoEvent, false)
    case Accepted(tracker, response, changed) =>
      var moved := n.Put(m.room, e.(tracker := tracker));
      ThenSend(if changed then Reacting(moved, m, luck) else Outcome(moved, [], NoEvent, true), response, luck)
  }

  /** The reaction to a local event for which the tracker asks to send something. */
  function ReactingLocally(n: Node, room: RoomID, event: Event, luck: Luck): (o: Outcome)
    ensures o.sent == NoEvent
  {
    var e := n.Get(room);
    if event == Create then
      if luck.makes then Outcome(n.Make(room, e.tracker), [Made(Transport(room, n.MadeIn(room) + 1))], NoEvent, true)
      else Outcome(n, [], NoEvent, false)
    else if event == Close then
      if e.transport != None then Outcome(n, [WriteSideClosed(e.transport.value)], NoEvent, true)
      else Outcome(n, [], NoEvent, false)
    else Outcome(n, [], NoEvent, true)
  }

  function OnLocalWant(n: Node, room: RoomID, want: Want, luck: Luck): Outcome {
    var e := n.Get(room);
    var Reaction(tracker, event) := OnLocal(e.tracker, want);
    ThenSend(ReactingLocally(n.Put(room, e.(tracker := tracker)), room, event, luck), event, luck)
  }

  /** Entering a room's entry beforehand changes nothing about an event's outcome. */
  lemma FirstEventCreatesEntry(n: Node, room: RoomID, want: Want, m: Message, luck: Luck)
    requires m.room == room
    ensures OnRemoteMessage(n.Put(room, n.Get(room)), m, luck) == OnRemoteMessage(n, m, luck)
    ensures OnLocalWant(n.Put(room, n.Get(room)), room, want, luck) == OnLocalWant(n, room, want, luck)
  {
    var entered := n.Put(room, n.Get(room));
    assert forall e :: entered.Put(room, e) == n.Put(room, e);
    assert forall e :: entered.Put(room, e).Drop(room) == n.Put(room, e).Drop(room);
  }

  /** The factory drives a room's tracker as its driver is modelled: it never handles
      pending events, and it forgets exactly the rooms that an event closes. */
  lemma DrivesTrackers(n: Node, room: RoomID, want: Want, event: Event, luck: Luck)
    ensures var o := OnLocalWant(n, room, want, luck);
      room in o.node.rooms && o.node.Get(room).tracker == Drive(Driver.Factory, n.Get(room).tracker, Local(want))
    ensures var o, v := OnRemoteMessage(n, Message(room, event), luck), OnRemote(n.Get(room).tracker, event);
      o.alive ==>
        && o.node.Get(room).tracker == Drive(Driver.Factory, n.Get(room).tracker, Remote(event))
        && v.Accepted? && (room in o.node.rooms <==> !(v.changed && v.tracker.state == Closed))
  {
  }

  class TransportWithTracker {
    var transport: Option<Transport>
    const tracker: ControlStateTracker

    constructor ()
      ensures View() == Entry(INITIAL, None) && fresh(tracker)
    {
      transport := None;
      tracker := new ControlStateTracker();
    }

    function View(): Entry
      reads this, tracker
    {
      Entry(tracker.View(), transport)
    }
  }

  class Factory {
    var transports: map<RoomID, TransportWithTracker>
    /** Stands for the identity of the transports that createTransport returns. */
    var made: map<RoomID, nat>
    /** Control events handed to the control stream. */
    var outbox: seq<Message>
    var effects: seq<Effect>
    /** The entries as values, kept in step with the objects. */
    ghost var rooms: map<RoomID, Entry>
    ghost var repr: set<object>

    constructor ()
      ensures Valid() && fresh(repr)
      ensures View() == Node(map[], map[]) && outbox == [] && effects == []
    {
      transports, made, outbox, effects := map[], map[], [], [];
      rooms, repr := map[], {};
    }

    /** The objects hold the entries, and no two rooms share one (sharing an entry would
        share its tracker). */
    ghost predicate Valid()
      reads this`transports, this`rooms, this`repr, repr
    {
      && this !in repr && transports.Keys == rooms.Keys
      && (forall r | r in transports ::
            && transports[r] in repr && transports[r].tracker in repr
            && transports[r].View() == rooms[r])
      && forall r, s | r in transports && s in transports && r != s ::
           transports[r].tracker != transports[s].tracker
    }

    ghost function View(): Node
      reads this`rooms, this`made
    {
      Node(rooms, made)
    }

    method GetOrCreate(room: RoomID) returns (t: TransportWithTracker)
      requires Valid()
      modifies this`transports, this`rooms, this`repr
      ensures Valid() && room in transports && transports[room] == t
      ensures View() == old(View()).Put(room, old(View()).Get(room))
      ensures fresh(repr - old(repr))
    {
      if room in transports {
        t := transports[room];
      } else {
        t := new TransportWithTracker();
        transports := transports[room := t];
        rooms := rooms[room := Entry(INITIAL, None)];
        repr := repr + {t, t.tracker};
      }
    }

    /** Hands a remote event to the room's tracker. */
    method TrackRemote(room: RoomID, event: Event) returns (response: Event, changed: bool, failed: bool)
      requires Valid() && room in transports
      modifies transports[room].tracker, this`rooms
      ensures Valid()
      ensures var v := OnRemote(old(View()).Get(room).tracker, event);
        if failed then v == Unexpected && View() == old(View()).Put(room, old(View()).Get(room))
        else
          && v.Accepted? && v.response == response && v.changed == changed
          && View() == old(View()).Put(room, old(View()).Get(room).(tracker := v.tracker))
    {
      response, changed, failed := transports[room].tracker.HandleRemoteEvent(event);
      rooms := rooms[room := transports[room].View()];
    }

    /** Hands a local event to the room's tracker. */
    method TrackLocal(room: RoomID, want: Want) returns (event: Event)
      requires Valid() && room in transports
      modifies transports[room].tracker, this`rooms
      ensures Valid()
      ensures var r := OnLocal(old(View()).Get(room).tracker, want);
        event == r.send && View() == old(View()).Put(room, old(View()).Get(room).(tracker := r.tracker))
    {
      event := transports[room].tracker.HandleLocalEvent(want);
      rooms := rooms[room := transports[room].View()];
    }

    method SetTransport(room: RoomID, transport: Option<Transport>)
      requires Valid() && room in transports
      modifies this`rooms, transports[room]
      ensures Valid() && transports[room].transport == transport
      ensures View() == old(View()).Put(room, old(View()).Get(room).(transport := transport))
    {
      transports[room].transport := transport;
      rooms := rooms[room := transports[room].View()];
    }

    /** createTransport, whose result (None when it fails) becomes the room's. */
    method MakeTransport(room: RoomID, luck: Luck)
      requires Valid() && room in transports
      modifies this`made, this`effects, this`rooms, transports[room]
      ensures Valid()
      ensures luck.makes ==>
        && View() == old(View()).Make(room, old(View()).Get(room).tracker)
        && effects == old(effects) + [Made(Transport(room, old(View()).MadeIn(room) + 1))]
      ensures !luck.makes ==>
        && View() == old(View()).Put(room, old(View()).Get(room).(transport := None))
        && effects == old(effects)
    {
      if luck.makes {
        var serial := (if room in made then made[room] else 0) + 1;
        made := made[room := serial];
        effects := effects + [Made(Transport(room, serial))];
        SetTransport(room, Some(Transport(room, serial)));
      } else {
        SetTransport(room, None);
      }
    }

    method Remove(room: RoomID)
      requires Valid()
      modifies this`transports, this`rooms
      ensures Valid()
      ensures View() == old(View()).Drop(room)
    {
      transports := transports - {room};
      rooms := rooms - {room};
    }

    method SendControl(room: RoomID, event: Event, luck: Luck) returns (ok: bool)
      requires Valid()
      modifies this`outbox
      ensures Valid()
      ensures ok <==> event == NoEvent || luck.sends
      ensures outbox == old(outbox) + Address(room, if ok then event else NoEvent)
    {
      if event == NoEvent {
        return true;
      }
      if luck.sends {
        outbox := outbox + [Message(room, event)];
      }
      return luck.sends;
    }

    /** The reaction to a remote create: whatever was made is offered. */
    method ReactToCreate(room: RoomID, luck: Luck) returns (alive: bool)
      requires Valid() && room in transports
      modifies this`made, this`effects, this`rooms, transports[room]
      ensures Valid()
      ensures var o := Reacting(old(View()), Message(room, Create), luck);
        View() == o.node && effects == old(effects) + o.effects && alive == o.alive
    {
      MakeTransport(room, luck);
      if luck.offers {
        var transport := transports[room].transport;
        effects := effects + [if transport == None then OfferedNothing(room) else Offered(transport.value)];
      }
      return luck.offers;
    }

    /** The reaction to a remote event that changed the room's state. */
    method React(m: Message, luck: Luck) returns (alive: bool)
      requires Valid() && m.room in transports && m.event != NoEvent
      modifies this`transports, this`made, this`effects, this`rooms, transports[m.room]
      ensures Valid()
      ensures var o := Reacting(old(View()), m, luck);
        View() == o.node && effects == old(effects) + o.effects && alive == o.alive
    {
      var t := transports[m.room];
      match m.event {
        case Create =>
          alive := ReactToCreate(m.room, luck);
          return;
        case CreateAck =>
          if t.transport == None || !luck.offers {
            return false;
          }
          effects := effects + [Offered(t.transport.value)];
        case Close =>
          if t.transport == None {
            return false;
          }
          effects := effects + [WriteSideClosed(t.transport.value)];
          effects := effects + [FullyClosed(t.transport.value, false)];
          Remove(m.room);
        case CloseAck =>
          if t.transport == None {
            return false;
          }
          effects := effects + [FullyClosed(t.transport.value, true)];
          Remove(m.room);
      }
      return true;
    }

    /** Remote event handling once the room has an entry. */
    method HandleTrackedRemoteEvent(m: Message, luck: Luck) returns (alive: bool)
      requires Valid() && m.room in transports
      modifies this`transports, this`made, this`effects, this`rooms, this`outbox
      modifies transports[m.room], transports[m.room].tracker
      ensures Valid()
      ensures var o := OnRemoteMessage(old(View()), m, luck);
        && View() == o.node && alive == o.alive
        && effects == old(effects) + o.effects
        && outbox == old(outbox) + Address(m.room, o.sent)
    {
      var response, stateChanged, failed := TrackRemote(m.room, m.event);
      if failed {
        return false;
      }
      if stateChanged {
        var ok := React(m, luck);
        if !ok {
          return false;
        }
      }
      alive := SendControl(m.room, response, luck);
    }

    method HandleRemoteEvent(m: Message, luck: Luck) returns (alive: bool)
      requires Valid()
      modifies this, repr
      ensures Valid() && fresh(repr - old(repr))
      ensures var o := OnRemoteMessage(old(View()), m, luck);
        && View() == o.node && alive == o.alive
        && effects == old(effects) + o.effects
        && outbox == old(outbox) + Address(m.room, o.sent)
    {
      var t := GetOrCreate(m.room);
      FirstEventCreatesEntry(old(View()), m.room, WantNothing, m, luck);
      alive := HandleTrackedRemoteEvent(m, luck);
    }

    /** The reaction to a local event for which the tracker asks to send something. */
    method ReactLocally(room: RoomID, event: Event, luck: Luck) returns (alive: bool)
      requires Valid() && room in transports
      modifies this`made, this`effects, this`rooms, transports[room]
      ensures Valid()
      ensures var o := ReactingLocally(old(View()), room, event, luck);
        View() == o.node && effects == old(effects) + o.effects && alive == o.alive
    {
      match event {
        case Create =>
          if !luck.makes {
            return false;
          }
          MakeTransport(room, luck);
        case Close =>
          var t := transports[room];
          if t.transport == None {
            return false;
          }
          effects := effects + [WriteSideClosed(t.transport.value)];
        case _ =>
      }
      return true;
    }

    /** Local event handling once the room has an entry. */
    method HandleTrackedLocalEvent(room: RoomID, want: Want, luck: Luck) returns (alive: bool)
      requires Valid() && room in transports
      modifies this`made, this`effects, this`rooms, this`outbox
      modifies transports[room], transports[room].tracker
      ensures Valid()
      ensures var o := OnLocalWant(old(View()), room, want, luck);
        && View() == o.node && alive == o.alive
        && effects == old(effects) + o.effects
        && outbox == old(outbox) + Address(room, o.sent)
    {
      var event := TrackLocal(room, want);
      alive := ReactLocally(room, event, luck);
      if alive {
        alive := SendControl(room, event, luck);
      }
    }

    method HandleLocalEvent(room: RoomID, want: Want, luck: Luck) returns (alive: bool)
      requires Valid()
      modifies this, repr
      ensures Valid() && fresh(repr - old(repr))
      ensures var o := OnLocalWant(old(View()), room, want, luck);
        && View() == o.node && alive == o.alive
        && effects == old(effects) + o.effects
        && outbox == old(outbox) + Address(room, o.sent)
    {
      var t := GetOrCreate(room);
      FirstEventCreatesEntry(old(View()), room, want, Message(room, NoEvent), luck);
      alive := HandleTrackedLocalEvent(room, want, luck);
    }
  }
}
