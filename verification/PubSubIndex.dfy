/** The record of published tracks and the subscriptions to them, as a value: three
    maps, the subscribers of each reader, and the tracks added to each transport. */
module PubSubIndex {
  import opened Common

  type ClientID = string
  type TrackID = string

  /** A reader of a track and a transport of a client, by identity. */
  datatype Reader = Reader(id: nat, track: TrackID)
  datatype Transport = Transport(id: nat, client: ClientID)

  datatype Publisher = Publisher(clientID: ClientID, reader: Reader)

  datatype Subscriber = Subscriber(transport: Transport, publishersByTrack: map<TrackID, Publisher>)

  datatype EventType = Add | Remove

  datatype Event = Event(kind: EventType, clientID: ClientID, track: TrackID)

  datatype State = State(
    publishers: map<TrackID, Publisher>,
    publishersByPubClientID: map<ClientID, set<Reader>>,
    subsBySubClientID: map<ClientID, Subscriber>,
    readers: map<Reader, set<ClientID>>,
    transports: map<Transport, set<TrackID>>,
    events: seq<Event>)
  {
    /** The subscribers of a reader. */
    function SubsOf(r: Reader): set<ClientID> { if r in readers then readers[r] else {} }

    /** The tracks added to a transport. */
    function TracksOf(t: Transport): set<TrackID> { if t in transports then transports[t] else {} }

    /** The readers that a client publishes. */
    function ReadersOf(c: ClientID): set<Reader> {
      if c in publishersByPubClientID then publishersByPubClientID[c] else {}
    }

    /** A client's subscription map. */
    function SubscriptionsOf(c: ClientID): map<TrackID, Publisher> {
      if c in subsBySubClientID then subsBySubClientID[c].publishersByTrack else map[]
    }

    predicate Subscribed(c: ClientID, t: TrackID) {
      t in SubscriptionsOf(c)
    }

    predicate Publishes(c: ClientID, t: TrackID) {
      t in publishers && publishers[t].clientID == c
    }
  }

  const EMPTY := State(map[], map[], map[], map[], map[], [])

  // -----------------------------------------------------------------------
  // Agreement
  // -----------------------------------------------------------------------

  /** A client publishes its track through a reader. */
  predicate PublishesVia(s: State, c: ClientID, r: Reader) {
    r.track in s.publishers && s.publishers[r.track] == Publisher(c, r)
  }

  /** A client's subscription map has the reader's track, under that very reader. */
  predicate SubscribedVia(s: State, c: ClientID, r: Reader) {
    s.Subscribed(c, r.track) && s.SubscriptionsOf(c)[r.track].reader == r
  }

  /** A reader is in its owner's set exactly when it is the publisher of its track. */
  ghost predicate PublishersAgree(s: State) {
    && (forall t | t in s.publishers :: s.publishers[t].reader.track == t)
    && (forall c, r :: r in s.ReadersOf(c) <==> PublishesVia(s, c, r))
  }

  /** A client is among a reader's subscribers exactly when its subscription map says
      so, and subscription maps only name current publishers. */
  ghost predicate SubscriptionsAgree(s: State) {
    && (forall c, r :: c in s.SubsOf(r) <==> SubscribedVia(s, c, r))
    && (forall c, t :: s.Subscribed(c, t) ==> t in s.publishers && s.SubscriptionsOf(c)[t] == s.publishers[t])
  }

  /** The transport that a subscribed client registered. */
  predicate Registered(s: State, tr: Transport) {
    tr.client in s.subsBySubClientID && s.subsBySubClientID[tr.client].transport == tr
  }

  /** A registered transport has exactly its client's subscribed tracks, and no other
      transport has any. */
  ghost predicate TransportsAgree(s: State) {
    && (forall c | c in s.subsBySubClientID :: s.subsBySubClientID[c].transport.client == c)
    && (forall tr, t :: t in s.TracksOf(tr) <==> s.Subscribed(tr.client, t) && Registered(s, tr))
  }

  /** No client has an empty entry. */
  ghost predicate NoEmptyEntry(s: State) {
    && (forall c | c in s.publishersByPubClientID :: s.publishersByPubClientID[c] != {})
    && (forall c | c in s.subsBySubClientID :: s.subsBySubClientID[c].publishersByTrack != map[])
  }

  /** What a listener that applies the events knows to be published, and by whom. */
  function Replay(events: seq<Event>): map<TrackID, ClientID> {
    if events == [] then map[]
    else
      var e, before := events[|events| - 1], Replay(events[..|events| - 1]);
      if e.kind == Add then before[e.track := e.clientID] else before - {e.track}
  }

  function Owners(publishers: map<TrackID, Publisher>): map<TrackID, ClientID> {
    map t | t in publishers :: publishers[t].clientID
  }

  /** The listeners of events know exactly what is published. */
  predicate ListenersAgree(s: State) {
    Replay(s.events) == Owners(s.publishers)
  }

  ghost predicate Agree(s: State) {
    PublishersAgree(s) && SubscriptionsAgree(s) && TransportsAgree(s) && NoEmptyEntry(s) && ListenersAgree(s)
  }

  lemma EmptyAgrees()
    ensures Agree(EMPTY)
  {
  }

  lemma ReplayAppend(events: seq<Event>, e: Event)
    ensures Replay(events + [e]) == if e.kind == Add then Replay(events)[e.track := e.clientID] else Replay(events) - {e.track}
  {
    assert (events + [e])[..|events|] == events;
  }

  // -----------------------------------------------------------------------
  // Publishing
  // -----------------------------------------------------------------------

  function Published(s: State, c: ClientID, r: Reader): State {
    s.(publishers := s.publishers[r.track := Publisher(c, r)],
       publishersByPubClientID := s.publishersByPubClientID[c := s.ReadersOf(c) + {r}],
       events := s.events + [Event(Add, c, r.track)])
  }

  lemma PublishersAfterPublish(s: State, u: State, c: ClientID, r: Reader)
    requires PublishersAgree(s)
    requires r.track !in s.publishers || s.publishers[r.track] == Publisher(c, r)
    requires u.publishers == s.publishers[r.track := Publisher(c, r)]
    requires forall b :: u.ReadersOf(b) == if b == c then s.ReadersOf(b) + {r} else s.ReadersOf(b)
    ensures PublishersAgree(u)
  {
    forall b, q ensures q in u.ReadersOf(b) <==> PublishesVia(u, b, q) {
      assert q in s.ReadersOf(b) <==> PublishesVia(s, b, q);
    }
  }

  /** Subscriptions and transports look at the same things in two states. */
  predicate SameSubscriptions(s: State, u: State) {
    u.readers == s.readers && u.transports == s.transports && u.subsBySubClientID == s.subsBySubClientID
  }

  lemma SubscriptionsUnaffected(s: State, u: State)
    requires SubscriptionsAgree(s) && TransportsAgree(s) && SameSubscriptions(s, u)
    requires forall c, t :: s.Subscribed(c, t) ==> t in u.publishers && u.publishers[t] == s.publishers[t]
    ensures SubscriptionsAgree(u) && TransportsAgree(u)
  {
    forall c, r ensures c in u.SubsOf(r) <==> SubscribedVia(u, c, r) {
      assert c in s.SubsOf(r) <==> SubscribedVia(s, c, r);
    }
    forall tr, t ensures t in u.TracksOf(tr) <==> u.Subscribed(tr.client, t) && Registered(u, tr) {
      assert t in s.TracksOf(tr) <==> s.Subscribed(tr.client, t) && Registered(s, tr);
    }
    forall c, t ensures u.Subscribed(c, t) ==> t in u.publishers && u.SubscriptionsOf(c)[t] == u.publishers[t] {
      assert s.Subscribed(c, t) <==> u.Subscribed(c, t);
    }
  }

  lemma PublishKeepsAgreement(s: State, c: ClientID, r: Reader)
    requires Agree(s) && (r.track in s.publishers ==> s.publishers[r.track] == Publisher(c, r))
    ensures Agree(Published(s, c, r))
  {
    var u := Published(s, c, r);
    PublishersAfterPublish(s, u, c, r);
    SubscriptionsUnaffected(s, u);
    ListenersAfterPublish(s, c, r);
  }

  lemma ListenersAfterPublish(s: State, c: ClientID, r: Reader)
    requires ListenersAgree(s) && NoEmptyEntry(s)
    ensures ListenersAgree(Published(s, c, r)) && NoEmptyEntry(Published(s, c, r))
  {
    ReplayAppend(s.events, Event(Add, c, r.track));
    assert Owners(Published(s, c, r).publishers) == Owners(s.publishers)[r.track := c];
  }

  /** Publishing keeps the indexes in agreement exactly when the track is not
      published yet, or by the same client through the same reader. */
  lemma PublishAgrees(s: State, c: ClientID, r: Reader)
    requires Agree(s)
    ensures Agree(Published(s, c, r)) <==> (r.track in s.publishers ==> s.publishers[r.track] == Publisher(c, r))
  {
    if r.track in s.publishers && s.publishers[r.track] != Publisher(c, r) {
      var u, prior := Published(s, c, r), s.publishers[r.track];
      assert prior.reader in s.ReadersOf(prior.clientID) <==> PublishesVia(s, prior.clientID, prior.reader);
      assert prior.reader in u.ReadersOf(prior.clientID) && !PublishesVia(u, prior.clientID, prior.reader);
    } else {
      PublishKeepsAgreement(s, c, r);
    }
  }

  // -----------------------------------------------------------------------
  // Unpublishing
  // -----------------------------------------------------------------------

  /** The publisher is dropped, once its subscribers are gone. */
  function Unpublished(s: State, c: ClientID, p: Publisher): State {
    var rest := s.ReadersOf(c) - {p.reader};
    s.(publishers := s.publishers - {p.reader.track},
       publishersByPubClientID := if rest == {} then s.publishersByPubClientID - {c}
                                  else s.publishersByPubClientID[c := rest],
       events := s.events + [Event(Remove, c, p.reader.track)])
  }

  lemma PublishersAfterUnpublish(s: State, u: State, p: Publisher)
    requires PublishersAgree(s) && PublishesVia(s, p.clientID, p.reader)
    requires u.publishers == s.publishers - {p.reader.track}
    requires forall b :: u.ReadersOf(b) == if b == p.clientID then s.ReadersOf(b) - {p.reader} else s.ReadersOf(b)
    ensures PublishersAgree(u)
  {
    forall b, q ensures q in u.ReadersOf(b) <==> PublishesVia(u, b, q) {
      assert q in s.ReadersOf(b) <==> PublishesVia(s, b, q);
    }
  }

  /** Unpublishing a track that nobody subscribes to any more keeps agreement
      exactly when it names the track's publisher. */
  lemma UnpublishAgrees(s: State, c: ClientID, p: Publisher)
    requires Agree(s) && PublishesVia(s, p.clientID, p.reader)
    requires forall b :: !s.Subscribed(b, p.reader.track)
    ensures Agree(Unpublished(s, c, p)) <==> c == p.clientID
  {
    var t, u := p.reader.track, Unpublished(s, c, p);
    if c != p.clientID {
      assert p.reader in s.ReadersOf(p.clientID);
      assert p.reader in u.ReadersOf(p.clientID) && !PublishesVia(u, p.clientID, p.reader);
    } else {
      PublishersAfterUnpublish(s, u, p);
      SubscriptionsUnaffected(s, u);
      ReplayAppend(s.events, Event(Remove, c, t));
      assert Owners(u.publishers) == Owners(s.publishers) - {t};
    }
  }

  // -----------------------------------------------------------------------
  // Subscribing
  // -----------------------------------------------------------------------

  /** The reader and the transport accept a subscription. */
  function Subscribing(s: State, p: Publisher, tr: Transport): State {
    var c, t := tr.client, p.reader.track;
    var existing := if c in s.subsBySubClientID then s.subsBySubClientID[c] else Subscriber(tr, map[]);
    s.(readers := s.readers[p.reader := s.SubsOf(p.reader) + {c}],
       transports := s.transports[tr := s.TracksOf(tr) + {t}],
       subsBySubClientID := s.subsBySubClientID[c := existing.(publishersByTrack := existing.publishersByTrack[t := p])])
  }

  lemma SubscriptionsAfterSubscribe(s: State, u: State, p: Publisher, c: ClientID)
    requires SubscriptionsAgree(s) && PublishesVia(s, p.clientID, p.reader) && u.publishers == s.publishers
    requires forall r :: u.SubsOf(r) == if r == p.reader then s.SubsOf(r) + {c} else s.SubsOf(r)
    requires forall b ::
      u.SubscriptionsOf(b) == if b == c then s.SubscriptionsOf(b)[p.reader.track := p] else s.SubscriptionsOf(b)
    ensures SubscriptionsAgree(u)
    ensures forall b, t :: u.Subscribed(b, t) <==> s.Subscribed(b, t) || (b == c && t == p.reader.track)
  {
    forall b, r ensures b in u.SubsOf(r) <==> SubscribedVia(u, b, r) {
      assert b in s.SubsOf(r) <==> SubscribedVia(s, b, r);
      assert s.Subscribed(b, r.track) ==> s.SubscriptionsOf(b)[r.track] == s.publishers[r.track];
    }
    forall b, t ensures u.Subscribed(b, t) ==> t in u.publishers && u.SubscriptionsOf(b)[t] == u.publishers[t] {
      assert s.Subscribed(b, t) ==> s.SubscriptionsOf(b)[t] == s.publishers[t];
    }
  }

  lemma TransportsAfterSubscribe(s: State, u: State, t: TrackID, tr: Transport)
    requires TransportsAgree(s) && (tr.client in s.subsBySubClientID ==> s.subsBySubClientID[tr.client].transport == tr)
    requires u.subsBySubClientID.Keys == s.subsBySubClientID.Keys + {tr.client}
    requires forall c | c in u.subsBySubClientID ::
      u.subsBySubClientID[c].transport == if c == tr.client then tr else s.subsBySubClientID[c].transport
    requires forall q :: u.TracksOf(q) == if q == tr then s.TracksOf(q) + {t} else s.TracksOf(q)
    requires forall b, x :: u.Subscribed(b, x) <==> s.Subscribed(b, x) || (b == tr.client && x == t)
    ensures TransportsAgree(u)
  {
    forall q, x ensures x in u.TracksOf(q) <==> u.Subscribed(q.client, x) && Registered(u, q) {
      assert x in s.TracksOf(q) <==> s.Subscribed(q.client, x) && Registered(s, q);
      assert u.Subscribed(q.client, x) <==> s.Subscribed(q.client, x) || (q.client == tr.client && x == t);
      assert s.Subscribed(q.client, x) ==> q.client in s.subsBySubClientID;
    }
  }

  lemma SubscribingObserved(s: State, p: Publisher, tr: Transport)
    requires NoEmptyEntry(s)
    ensures var c, t, u := tr.client, p.reader.track, Subscribing(s, p, tr);
      && (forall r :: u.SubsOf(r) == if r == p.reader then s.SubsOf(r) + {c} else s.SubsOf(r))
      && (forall b :: u.SubscriptionsOf(b) == if b == c then s.SubscriptionsOf(b)[t := p] else s.SubscriptionsOf(b))
      && (forall q :: u.TracksOf(q) == if q == tr then s.TracksOf(q) + {t} else s.TracksOf(q))
      && u.subsBySubClientID.Keys == s.subsBySubClientID.Keys + {c}
      && NoEmptyEntry(u)
  {
    var c, u := tr.client, Subscribing(s, p, tr);
    assert p.reader.track in u.subsBySubClientID[c].publishersByTrack;
  }

  /** Subscribing to a published track keeps agreement exactly when the client has
      no subscriptions yet or comes with the same transport, and adds exactly that
      subscription. */
  lemma SubscribeAgrees(s: State, p: Publisher, tr: Transport)
    requires Agree(s) && PublishesVia(s, p.clientID, p.reader)
    requires p.reader.track !in s.TracksOf(tr) && tr.client !in s.SubsOf(p.reader)
    ensures Agree(Subscribing(s, p, tr)) <==>
      (tr.client in s.subsBySubClientID ==> s.subsBySubClientID[tr.client].transport == tr)
    ensures forall c, t :: Subscribing(s, p, tr).Subscribed(c, t) <==>
      s.Subscribed(c, t) || (c == tr.client && t == p.reader.track)
  {
    var c, t, u := tr.client, p.reader.track, Subscribing(s, p, tr);
    SubscribingObserved(s, p, tr);
    SubscriptionsAfterSubscribe(s, u, p, c);
    if c in s.subsBySubClientID && s.subsBySubClientID[c].transport != tr {
      assert t in u.TracksOf(tr) && !Registered(u, tr);
    } else {
      TransportsAfterSubscribe(s, u, t, tr);
      assert PublishersAgree(u) by {
        PublishersUnaffected(s, u);
      }
    }
  }

  lemma PublishersUnaffected(s: State, u: State)
    requires PublishersAgree(s) && u.publishers == s.publishers && u.publishersByPubClientID == s.publishersByPubClientID
    ensures PublishersAgree(u)
  {
    forall b, q ensures q in u.ReadersOf(b) <==> PublishesVia(u, b, q) {
      assert q in s.ReadersOf(b) <==> PublishesVia(s, b, q);
    }
  }

  // -----------------------------------------------------------------------
  // Unsubscribing
  // -----------------------------------------------------------------------

  /** A subscribed client's map and transport drop a track, and the entry goes when
      it is empty. */
  function Forgotten(s: State, c: ClientID, t: TrackID): State
    requires c in s.subsBySubClientID
  {
    var sub := s.subsBySubClientID[c];
    var rest := sub.publishersByTrack - {t};
    s.(transports := s.transports[sub.transport := s.TracksOf(sub.transport) - {t}],
       subsBySubClientID := if rest == map[] then s.subsBySubClientID - {c}
                            else s.subsBySubClientID[c := sub.(publishersByTrack := rest)])
  }

  /** The reader forgets a client, and so do the client's subscription map and its
      transport, if the client has any subscription. */
  function Unsubscribed(s: State, c: ClientID, p: Publisher): State {
    var s1 := s.(readers := s.readers[p.reader := s.SubsOf(p.reader) - {c}]);
    if c in s.subsBySubClientID then Forgotten(s1, c, p.reader.track) else s1
  }

  lemma SubscriptionsAfterUnsubscribe(s: State, u: State, p: Publisher, c: ClientID)
    requires SubscriptionsAgree(s) && PublishesVia(s, p.clientID, p.reader) && u.publishers == s.publishers
    requires forall r :: u.SubsOf(r) == if r == p.reader then s.SubsOf(r) - {c} else s.SubsOf(r)
    requires forall b ::
      u.SubscriptionsOf(b) == if b == c then s.SubscriptionsOf(b) - {p.reader.track} else s.SubscriptionsOf(b)
    ensures SubscriptionsAgree(u)
    ensures forall b, t :: u.Subscribed(b, t) <==> s.Subscribed(b, t) && !(b == c && t == p.reader.track)
  {
    forall b, r ensures b in u.SubsOf(r) <==> SubscribedVia(u, b, r) {
      assert b in s.SubsOf(r) <==> SubscribedVia(s, b, r);
      assert s.Subscribed(b, r.track) ==> s.SubscriptionsOf(b)[r.track] == s.publishers[r.track];
    }
    forall b, t ensures u.Subscribed(b, t) ==> t in u.publishers && u.SubscriptionsOf(b)[t] == u.publishers[t] {
      assert s.Subscribed(b, t) ==> s.SubscriptionsOf(b)[t] == s.publishers[t];
    }
  }

  lemma TransportsAfterUnsubscribe(s: State, u: State, t: TrackID, c: ClientID)
    requires TransportsAgree(s)
    requires forall b | b in u.subsBySubClientID ::
      b in s.subsBySubClientID && u.subsBySubClientID[b].transport == s.subsBySubClientID[b].transport
    requires forall q :: u.TracksOf(q) == if q.client == c && Registered(s, q) then s.TracksOf(q) - {t} else s.TracksOf(q)
    requires forall b, x :: u.Subscribed(b, x) <==> s.Subscribed(b, x) && !(b == c && x == t)
    ensures TransportsAgree(u)
  {
    forall q, x ensures x in u.TracksOf(q) <==> u.Subscribed(q.client, x) && Registered(u, q) {
      assert x in s.TracksOf(q) <==> s.Subscribed(q.client, x) && Registered(s, q);
      assert u.Subscribed(q.client, x) <==> s.Subscribed(q.client, x) && !(q.client == c && x == t);
      assert u.Subscribed(q.client, x) ==> q.client in u.subsBySubClientID;
    }
  }

  /** What the indexes look like after a client unsubscribes. */
  lemma MapsAfterUnsubscribe(s: State, c: ClientID, p: Publisher)
    ensures var t, u := p.reader.track, Unsubscribed(s, c, p);
      && (forall b :: u.SubscriptionsOf(b) == if b == c then s.SubscriptionsOf(b) - {t} else s.SubscriptionsOf(b))
      && (forall b | b in u.subsBySubClientID ::
            b in s.subsBySubClientID && u.subsBySubClientID[b].transport == s.subsBySubClientID[b].transport)
  {
  }

  lemma NoEmptyAfterUnsubscribe(s: State, c: ClientID, p: Publisher)
    requires NoEmptyEntry(s)
    ensures NoEmptyEntry(Unsubscribed(s, c, p))
  {
  }

  lemma SetsAfterUnsubscribe(s: State, c: ClientID, p: Publisher)
    requires TransportsAgree(s)
    ensures var t, u := p.reader.track, Unsubscribed(s, c, p);
      && (forall r :: u.SubsOf(r) == if r == p.reader then s.SubsOf(r) - {c} else s.SubsOf(r))
      && (forall q :: u.TracksOf(q) == if q.client == c && Registered(s, q) then s.TracksOf(q) - {t} else s.TracksOf(q))
  {
  }

  /** Unsubscribing keeps agreement and removes exactly that subscription. */
  lemma UnsubscribeAgrees(s: State, c: ClientID, p: Publisher)
    requires Agree(s) && PublishesVia(s, p.clientID, p.reader)
    ensures var u := Unsubscribed(s, c, p);
      && Agree(u)
      && (forall b, t :: u.Subscribed(b, t) <==> s.Subscribed(b, t) && !(b == c && t == p.reader.track))
      && (forall b | b in u.subsBySubClientID ::
            b in s.subsBySubClientID && u.subsBySubClientID[b].transport == s.subsBySubClientID[b].transport)
  {
    var t, u := p.reader.track, Unsubscribed(s, c, p);
    assert NoEmptyEntry(u) by {
      NoEmptyAfterUnsubscribe(s, c, p);
    }
    MapsAfterUnsubscribe(s, c, p);
    SetsAfterUnsubscribe(s, c, p);
    assert PublishersAgree(u) by {
      PublishersUnaffected(s, u);
    }
    SubscriptionsAfterUnsubscribe(s, u, p, c);
    assert TransportsAgree(u) by {
      TransportsAfterUnsubscribe(s, u, t, c);
    }
  }
}
