/** The per-room control state tracker of the node-to-node transport.

    The tracker is modelled twice: as the class that the factory mutates, and as
    a value with transition functions, which is what the class is proved
    against and what the theorems are about. */
module ControlTracker {

  datatype State = Closed | Created | Added | WriteClosed

  /** Events exchanged between the two nodes. */
  datatype Event = NoEvent | Create | CreateAck | Close | CloseAck

  /** Events raised by the local node. */
  datatype Want = WantNothing | WantCreate | WantClose

  datatype Tracker = Tracker(state: State, pending: Event)

  const INITIAL := Tracker(Closed, NoEvent)

  /** The tracker after a local event, and the event to send (or NoEvent). */
  datatype Reaction = Reaction(tracker: Tracker, send: Event)

  /** The outcome of a remote event; an unexpected event leaves the tracker alone. */
  datatype Verdict = Accepted(tracker: Tracker, response: Event, changed: bool) | Unexpected

  function OnWantCreate(t: Tracker): Reaction {
    match t.state
    case Closed => Reaction(t.(state := Created), Create)
    case Created => Reaction(t.(pending := NoEvent), NoEvent)
    case Added => Reaction(t.(pending := NoEvent), NoEvent)
    case WriteClosed => Reaction(t.(pending := Create), NoEvent)
  }

  function OnWantClose(t: Tracker): Reaction {
    match t.state
    case Closed => Reaction(t.(pending := NoEvent), NoEvent)
    case Created => Reaction(t.(pending := Close), NoEvent)
    case Added => Reaction(Tracker(WriteClosed, NoEvent), Close)
    case WriteClosed => Reaction(t.(pending := NoEvent), NoEvent)
  }

  function OnLocal(t: Tracker, want: Want): Reaction {
    match want
    case WantNothing => Reaction(t, NoEvent)
    case WantCreate => OnWantCreate(t)
    case WantClose => OnWantClose(t)
  }

  function OnPending(t: Tracker): Reaction {
    if t.pending == Close then OnWantClose(t)
    else if t.pending == Create then OnWantCreate(t)
    else Reaction(t, NoEvent)
  }

  function MoveTo(t: Tracker, state: State, response: Event): Verdict {
    Accepted(t.(state := state), response, t.state != state)
  }

  function OnRemote(t: Tracker, event: Event): Verdict {
    match event
    case Create => if t.state == Closed || t.state == Added then MoveTo(t, Added, CreateAck) else Unexpected
    case CreateAck => if t.state == Created then MoveTo(t, Added, NoEvent) else Unexpected
    case Close => if t.state == Added || t.state == Closed then MoveTo(t, Closed, CloseAck) else Unexpected
    case CloseAck => if t.state == WriteClosed then MoveTo(t, Closed, NoEvent) else Unexpected
    case NoEvent => Unexpected
  }

  class ControlStateTracker {
    var state: State
    var pendingLocalEvent: Event

    constructor ()
      ensures View() == INITIAL
    {
      state, pendingLocalEvent := Closed, NoEvent;
    }

    function View(): Tracker
      reads this
    {
      Tracker(state, pendingLocalEvent)
    }

    method WantCreate() returns (send: Event)
      modifies this
      ensures Reaction(View(), send) == OnWantCreate(old(View()))
    {
      send := NoEvent;
      match state {
        case Closed =>
          state := Created;
          return Create;
        case Created => pendingLocalEvent := NoEvent;
        case Added => pendingLocalEvent := NoEvent;
        case WriteClosed => pendingLocalEvent := Create;
      }
    }

    method WantClose() returns (send: Event)
      modifies this
      ensures Reaction(View(), send) == OnWantClose(old(View()))
    {
      send := NoEvent;
      match state {
        case Closed => pendingLocalEvent := NoEvent;
        case Created => pendingLocalEvent := Close;
        case Added =>
          pendingLocalEvent := NoEvent;
          state := WriteClosed;
          return Close;
        case WriteClosed => pendingLocalEvent := NoEvent;
      }
    }

    method HandleLocalEvent(want: Want) returns (send: Event)
      modifies this
      ensures Reaction(View(), send) == OnLocal(old(View()), want)
    {
      match want {
        case WantClose => send := WantClose();
        case WantCreate => send := WantCreate();
        case WantNothing => send := NoEvent;
      }
    }

    method HandlePendingEvent() returns (send: Event)
      modifies this
      ensures Reaction(View(), send) == OnPending(old(View()))
    {
      match pendingLocalEvent {
        case Close => send := WantClose();
        case Create => send := WantCreate();
        case _ => send := NoEvent;
      }
    }

    method HandleRemoteEvent(event: Event) returns (response: Event, changed: bool, failed: bool)
      modifies this
      ensures failed <==> OnRemote(old(View()), event).Unexpected?
      ensures failed ==> View() == old(View()) && response == NoEvent && !changed
      ensures !failed ==> Accepted(View(), response, changed) == OnRemote(old(View()), event)
    {
      var prevState := state;
      match event {
        case Create =>
          if state == Closed || state == Added {
            state := Added;
            return CreateAck, state != prevState, false;
          }
        case CreateAck =>
          if state == Created {
            state := Added;
            return NoEvent, state != prevState, false;
          }
        case Close =>
          if state == Added || state == Closed {
            state := Closed;
            return CloseAck, state != prevState, false;
          }
        case CloseAck =>
          if state == WriteClosed {
            state := Closed;
            return NoEvent, state != prevState, false;
          }
        case NoEvent =>
      }
      return NoEvent, false, true;
    }
  }

  // -----------------------------------------------------------------------
  // The last wish wins
  // -----------------------------------------------------------------------

  datatype Input = Local(want: Want) | Remote(event: Event)

  /** Who drives the tracker. The documentation asks for handlePendingEvent after
      every remote event; the factory never calls it, and forgets the tracker
      when its room closes. */
  datatype Driver = Documented | Factory

  function Drive(driver: Driver, t: Tracker, input: Input): Tracker {
    match input
    case Local(want) => OnLocal(t, want).tracker
    case Remote(event) =>
      var verdict := OnRemote(t, event);
      var after := if verdict.Accepted? then verdict.tracker else t;
      if driver == Documented then OnPending(after).tracker
      else if verdict.Accepted? && verdict.changed && after.state == Closed then INITIAL
      else after
  }

  function Run(driver: Driver, history: seq<Input>): Tracker {
    if history == [] then INITIAL
    else Drive(driver, Run(driver, history[..|history| - 1]), history[|history| - 1])
  }

  datatype Wish = Open | Shut

  /** The wish that an input voices, if any: acknowledgements voice none, and so
      does a remote request that the tracker refuses. */
  function Voices(t: Tracker, input: Input): set<Wish> {
    match input
    case Local(WantCreate) => {Open}
    case Local(WantClose) => {Shut}
    case Local(WantNothing) => {}
    case Remote(event) =>
      if OnRemote(t, event).Unexpected? then {}
      else if event == Create then {Open}
      else if event == Close then {Shut}
      else {}
  }

  /** The most recent wish voiced in a history; every room starts out shut. */
  function LastWish(driver: Driver, history: seq<Input>): Wish {
    if history == [] then Shut
    else
      var before := history[..|history| - 1];
      var voiced := Voices(Run(driver, before), history[|history| - 1]);
      if Open in voiced then Open else if Shut in voiced then Shut else LastWish(driver, before)
  }

  /** How the state and the pending event together encode a wish. */
  function EncodedWish(t: Tracker): Wish {
    match t.state
    case Closed => Shut
    case Created => if t.pending == Close then Shut else Open
    case Added => Open
    case WriteClosed => if t.pending == Create then Open else Shut
  }

  /** A wish is only ever pending while an acknowledgement is awaited. */
  predicate PendingOnlyWhileWaiting(t: Tracker) {
    match t.state
    case Closed => t.pending == NoEvent
    case Created => t.pending in {NoEvent, Create, Close}
    case Added => t.pending == NoEvent
    case WriteClosed => t.pending in {NoEvent, Create}
  }

  lemma {:induction false} LastWishWins(history: seq<Input>)
    ensures EncodedWish(Run(Documented, history)) == LastWish(Documented, history)
    ensures PendingOnlyWhileWaiting(Run(Documented, history))
  {
    if history != [] {
      LastWishWins(history[..|history| - 1]);
    }
  }

  /** The acknowledgement that a tracker is waiting for. */
  function AwaitedAck(t: Tracker): Event {
    match t.state
    case Created => CreateAck
    case WriteClosed => CloseAck
    case _ => NoEvent
  }

  /** A tracker asks the peer exactly when it starts to wait: it sends create exactly when
      it moves to created, close exactly when it moves to write_closed, and otherwise
      stays where it is, whether the wish is new or was parked. */
  lemma AsksExactlyWhenItStartsToWait(t: Tracker, want: Want)
    ensures forall r | r in {OnLocal(t, want), OnPending(t)} ::
      && (r.send == Create <==> t.state != Created && r.tracker.state == Created)
      && (r.send == Close <==> t.state != WriteClosed && r.tracker.state == WriteClosed)
      && (r.send !in {Create, Close} ==> r.send == NoEvent && r.tracker.state == t.state)
  {
  }

  /** A wish against a request that awaits its acknowledgement is parked; any other wish
      clears what was parked, except that a create in a closed room starts at once. */
  lemma ParksExactlyAgainstRequests(t: Tracker, want: Want)
    requires want != WantNothing
    ensures var u, wish := OnLocal(t, want).tracker, if want == WantCreate then Create else Close;
      && (Parks(t, Local(want)) ==> u == t.(pending := wish))
      && (!Parks(t, Local(want)) && !(want == WantCreate && t.state == Closed) ==> u.pending == NoEvent)
      && (want == WantCreate && t.state == Closed ==> u == t.(state := Created))
  {
  }

  /** A parked wish is taken up as if it were voiced now, and only if there is one. */
  lemma PendingIsVoicedAgain(t: Tracker)
    ensures OnPending(t) ==
      OnLocal(t, if t.pending == Close then WantClose else if t.pending == Create then WantCreate else WantNothing)
    ensures PendingOnlyWhileWaiting(t) && t.pending in {Create, Close} ==>
      EncodedWish(OnPending(t).tracker) == EncodedWish(t)
  {
  }

  /** A tracker refuses requests exactly while it waits for an acknowledgement, and
      acknowledgements exactly unless it waits for them. What it accepts brings it to the
      state asked for, is acknowledged if it is a request, leaves a parked wish alone, and
      counts as a change exactly if the state is another one. */
  lemma AnswersExactlyWhenNotWaiting(t: Tracker, event: Event)
    requires event != NoEvent
    ensures var v := OnRemote(t, event);
      && (v.Accepted? <==> if event in {Create, Close} then AwaitedAck(t) == NoEvent else AwaitedAck(t) == event)
      && (v.Accepted? ==>
            && v.tracker == Tracker(if event in {Create, CreateAck} then Added else Closed, t.pending)
            && v.response == (if event == Create then CreateAck else if event == Close then CloseAck else NoEvent)
            && (v.changed <==> v.tracker.state != t.state))
  {
  }

  /** The acknowledgements that settle a tracker once no more wishes arrive. */
  function SettlingAcks(t: Tracker): seq<Input> {
    if AwaitedAck(t) == NoEvent then []
    else
      var next := Drive(Documented, t, Remote(AwaitedAck(t)));
      [Remote(AwaitedAck(t))] + if AwaitedAck(next) == NoEvent then [] else [Remote(AwaitedAck(next))]
  }

  /** Once wishes stop, at most two acknowledgements bring the tracker to the
      resting state of the last wish, and none of them voices a wish. */
  lemma SettlesWithinTwoAcks(history: seq<Input>)
    ensures var acks := SettlingAcks(Run(Documented, history));
      && |acks| <= 2
      && (forall k | 0 <= k < |acks| ::
            acks[k].Remote? && OnRemote(Run(Documented, history + acks[..k]), acks[k].event).Accepted?)
      && LastWish(Documented, history + acks) == LastWish(Documented, history)
      && Run(Documented, history + acks) == Tracker(if LastWish(Documented, history) == Open then Added else Closed, NoEvent)
  {
    LastWishWins(history);
    var acks := SettlingAcks(Run(Documented, history));
    assert history + acks[..0] == history;
    assert history + acks == if |acks| == 0 then history else history + acks;
    if |acks| >= 1 {
      var one := history + acks[..1];
      assert one[..|one| - 1] == history;
      LastWishWins(one);
      if |acks| == 2 {
        var two := history + acks;
        assert two[..|two| - 1] == one && two[|two| - 1] == acks[1];
        LastWishWins(two);
      } else {
        assert history + acks == one;
      }
    }
  }

  /** The wish that a state is working towards, leaving pending events aside. */
  function StateWish(state: State): Wish {
    if state == Created || state == Added then Open else Shut
  }

  /** A want that contradicts a request still waiting for its acknowledgement. */
  predicate Parks(t: Tracker, input: Input) {
    || (t.state == Created && input == Local(WantClose))
    || (t.state == WriteClosed && input == Local(WantCreate))
  }

  /** The most recent wish was voiced against an unacknowledged request. */
  predicate LastWishParked(history: seq<Input>) {
    if history == [] then false
    else
      var t := Run(Factory, history[..|history| - 1]);
      var input := history[|history| - 1];
      if Voices(t, input) != {} then Parks(t, input) else LastWishParked(history[..|history| - 1])
  }

  /** The factory, which never asks for pending events, works towards the last
      wish exactly when that wish did not contradict an unacknowledged request. */
  lemma {:induction false} FactoryHonoursUnparkedWishesOnly(history: seq<Input>)
    ensures StateWish(Run(Factory, history).state) == LastWish(Factory, history) <==> !LastWishParked(history)
  {
    if history != [] {
      FactoryHonoursUnparkedWishesOnly(history[..|history| - 1]);
    }
  }

  /** A create whose close arrives before the acknowledgement: the factory ends
      up added although the last wish was to close. */
  lemma FactoryLosesParkedWish()
    ensures var history := [Local(WantCreate), Local(WantClose), Remote(CreateAck)];
      Run(Factory, history).state == Added && LastWish(Factory, history) == Shut
  {
    var history := [Local(WantCreate), Local(WantClose), Remote(CreateAck)];
    var one, two := history[..1], history[..2];
    assert one[..0] == [] && two[..1] == one;
    assert Run(Factory, one) == Tracker(Created, NoEvent);
    assert Run(Factory, two) == Tracker(Created, Close) && LastWish(Factory, two) == Shut;
  }
}
