/** The operations that keep the publish/subscribe indexes, on an object. */
module PubSub {
  import opened Common
  import opened PubSubIndex

  datatype SubError = NoError | SubscribeToOwnTrack | TrackNotFound | TrackAlreadyAdded | ReaderRefused | SubNotFound | NotSubscribed

  lemma UpdateThenDrop(subs: map<ClientID, Subscriber>, c: ClientID, sub: Subscriber)
    ensures subs[c := sub] - {c} == subs - {c}
  {
  }

  lemma SubscribersAreSubscribed(s: State, p: Publisher, c: ClientID)
    requires Agree(s) && PublishesVia(s, p.clientID, p.reader)
    ensures s.Subscribed(c, p.reader.track) <==> c in s.SubsOf(p.reader)
  {
    assert c in s.SubsOf(p.reader) <==> SubscribedVia(s, c, p.reader);
    assert s.Subscribed(c, p.reader.track) ==> s.SubscriptionsOf(c)[p.reader.track] == p;
  }

  lemma SubscribersOf(s: State, p: Publisher)
    requires Agree(s) && PublishesVia(s, p.clientID, p.reader)
    ensures forall c :: s.Subscribed(c, p.reader.track) <==> c in s.SubsOf(p.reader)
  {
    forall c ensures s.Subscribed(c, p.reader.track) <==> c in s.SubsOf(p.reader) {
      SubscribersAreSubscribed(s, p, c);
    }
  }

  lemma TransportHasTrack(s: State, c: ClientID, t: TrackID)
    requires Agree(s) && s.Subscribed(c, t)
    ensures c in s.subsBySubClientID && t in s.TracksOf(s.subsBySubClientID[c].transport)
  {
    var tr := s.subsBySubClientID[c].transport;
    assert t in s.TracksOf(tr) <==> s.Subscribed(tr.client, t) && Registered(s, tr);
  }

  lemma NobodySubscribed(s: State, t: TrackID)
    requires Agree(s) && t !in s.publishers
    ensures forall c :: !s.Subscribed(c, t)
  {
  }

  /** Subscribed clients keep the transport they registered. */
  predicate SubscriptionsWithin(u: State, s: State) {
    forall c | c in u.subsBySubClientID ::
      c in s.subsBySubClientID && u.subsBySubClientID[c].transport == s.subsBySubClientID[c].transport
  }

  lemma SameTracksAgree(s: State, u: State)
    requires Agree(s) && u == s.(transports := u.transports) && forall tr :: u.TracksOf(tr) == s.TracksOf(tr)
    ensures Agree(u)
  {
    PublishersUnaffected(s, u);
    assert SubscriptionsAgree(u) by {
      forall c, r ensures c in u.SubsOf(r) <==> SubscribedVia(u, c, r) {
        assert c in s.SubsOf(r) <==> SubscribedVia(s, c, r);
      }
      forall c, t ensures u.Subscribed(c, t) ==> t in u.publishers && u.SubscriptionsOf(c)[t] == u.publishers[t] {
        assert s.Subscribed(c, t) <==> u.Subscribed(c, t);
      }
    }
    assert TransportsAgree(u) by {
      forall tr, t ensures t in u.TracksOf(tr) <==> u.Subscribed(tr.client, t) && Registered(u, tr) {
        assert t in s.TracksOf(tr) <==> s.Subscribed(tr.client, t) && Registered(s, tr);
      }
    }
  }

  lemma PublishedObserved(s: State, c: ClientID, r: Reader)
    ensures var u := Published(s, c, r);
      && u.ReadersOf(c) == s.ReadersOf(c) + {r}
      && (forall b | b != c :: u.ReadersOf(b) == s.ReadersOf(b))
      && (forall b, t :: u.Subscribed(b, t) <==> s.Subscribed(b, t))
  {
  }

  lemma UnpublishedObserved(s: State, c: ClientID, p: Publisher)
    ensures var u := Unpublished(s, c, p);
      && (forall b | b != c :: u.ReadersOf(b) == s.ReadersOf(b))
      && u.ReadersOf(c) == s.ReadersOf(c) - {p.reader}
      && (forall b, t :: u.Subscribed(b, t) <==> s.Subscribed(b, t))
  {
  }

  /** The publishers that remain when a client terminates. */
  function KeptPublishers(publishers: map<TrackID, Publisher>, c: ClientID): map<TrackID, Publisher> {
    map t | t in publishers && publishers[t].clientID != c :: publishers[t]
  }

  /** The tracks that a client publishes. */
  function TracksBy(publishers: map<TrackID, Publisher>, c: ClientID): set<TrackID> {
    set t | t in publishers && publishers[t].clientID == c
  }

  function Removals(c: ClientID, tracks: set<TrackID>): set<Event> {
    set t | t in tracks :: Event(Remove, c, t)
  }

  /** The later events announce the removal of exactly these tracks of a client, each
      once. */
  predicate AnnouncesRemovals(earlier: seq<Event>, later: seq<Event>, c: ClientID, tracks: set<TrackID>) {
    earlier <= later && multiset(later[|earlier|..]) == multiset(Removals(c, tracks))
  }

  lemma AnnouncesOneMore(earlier: seq<Event>, later: seq<Event>, c: ClientID, tracks: set<TrackID>, t: TrackID)
    requires AnnouncesRemovals(earlier, later, c, tracks) && t !in tracks
    ensures AnnouncesRemovals(earlier, later + [Event(Remove, c, t)], c, tracks + {t})
  {
    var e := Event(Remove, c, t);
    assert (later + [e])[|earlier|..] == later[|earlier|..] + [e];
    assert Removals(c, tracks + {t}) == Removals(c, tracks) + {e};
    assert e !in Removals(c, tracks);
  }

  /** The reader has one more subscriber and the transport one more track; a client keeps
      the transport that it registered first. */
  ghost predicate Joined(s: State, u: State, r: Reader, tr: Transport) {
    && (forall q :: u.SubsOf(q) == if q == r then s.SubsOf(q) + {tr.client} else s.SubsOf(q))
    && (forall x :: u.TracksOf(x) == if x == tr then s.TracksOf(x) + {r.track} else s.TracksOf(x))
    && u.subsBySubClientID.Keys == s.subsBySubClientID.Keys + {tr.client}
    && (forall c | c in u.subsBySubClientID ::
          u.subsBySubClientID[c].transport == if c in s.subsBySubClientID then s.subsBySubClientID[c].transport else tr)
  }

  lemma SubscribingJoins(s: State, p: Publisher, tr: Transport)
    requires NoEmptyEntry(s)
    ensures Joined(s, Subscribing(s, p, tr), p.reader, tr)
  {
    SubscribingObserved(s, p, tr);
  }

  /** Of the subscriptions to a track only those of the remaining clients are left. */
  ghost predicate Trimmed(u: State, s: State, track: TrackID, remaining: set<ClientID>) {
    && u.publishers == s.publishers && u.publishersByPubClientID == s.publishersByPubClientID && u.events == s.events
    && SubscriptionsWithin(u, s)
    && forall c, t :: u.Subscribed(c, t) <==> s.Subscribed(c, t) && (t == track ==> c in remaining)
  }

  lemma TrimmedFurther(s: State, u: State, p: Publisher, c: ClientID, remaining: set<ClientID>)
    requires Agree(u) && PublishesVia(u, p.clientID, p.reader) && Trimmed(u, s, p.reader.track, remaining)
    ensures var v := Unsubscribed(u, c, p); Agree(v) && Trimmed(v, s, p.reader.track, remaining - {c})
  {
    UnsubscribeAgrees(u, c, p);
  }

  /** The state u is s without some tracks of a client and without the subscriptions to
      them, whose removal is announced. */
  ghost predicate LeftOf(u: State, s: State, c: ClientID) {
    && SubscriptionsWithin(u, s)
    && KeptPublishers(s.publishers, c) == KeptPublishers(u.publishers, c)
    && u.publishers.Keys <= s.publishers.Keys
    && (forall t | t in u.publishers :: u.publishers[t] == s.publishers[t])
    && (forall b, t :: u.Subscribed(b, t) <==> s.Subscribed(b, t) && t in u.publishers)
    && AnnouncesRemovals(s.events, u.events, c, s.publishers.Keys - u.publishers.Keys)
  }

  lemma LeftAtFirst(s: State, c: ClientID)
    requires Agree(s)
    ensures LeftOf(s, s, c)
  {
    SubscribedArePublished(s);
    assert Removals(c, s.publishers.Keys - s.publishers.Keys) == {};
  }

  /** One track fewer. */
  lemma LeftAfter(s: State, u: State, v: State, c: ClientID, t: TrackID)
    requires LeftOf(u, s, c) && t in u.publishers && u.publishers[t].clientID == c
    requires SubscriptionsWithin(v, u) && v.publishers == u.publishers - {t}
    requires v.events == u.events + [Event(Remove, c, t)]
    requires forall b, x :: v.Subscribed(b, x) <==> u.Subscribed(b, x) && x != t
    ensures LeftOf(v, s, c)
  {
    UnpubKeepsOthers(u.publishers, s.publishers, c, t);
    assert s.publishers.Keys - v.publishers.Keys == (s.publishers.Keys - u.publishers.Keys) + {t};
    AnnouncesOneMore(s.events, u.events, c, s.publishers.Keys - u.publishers.Keys, t);
  }

  /** Some of the published tracks with their owners. */
  function Owned(publishers: map<TrackID, Publisher>, tracks: set<TrackID>): set<(ClientID, TrackID)>
    requires tracks <= publishers.Keys
  {
    set t | t in tracks :: (publishers[t].clientID, t)
  }

  /** What a listener would list. */
  function Listing(known: map<TrackID, ClientID>): set<(ClientID, TrackID)> {
    set t | t in known :: (known[t], t)
  }

  lemma OwnedIsListing(publishers: map<TrackID, Publisher>)
    ensures Owned(publishers, publishers.Keys) == Listing(Owners(publishers))
  {
    forall pair ensures pair in Owned(publishers, publishers.Keys) <==> pair in Listing(Owners(publishers)) {
      assert pair.1 in publishers <==> pair.1 in Owners(publishers);
    }
  }

  lemma OwnedOneMore(publishers: map<TrackID, Publisher>, tracks: set<TrackID>, t: TrackID)
    requires tracks <= publishers.Keys && t in publishers && t !in tracks
    ensures multiset(Owned(publishers, tracks + {t})) ==
            multiset(Owned(publishers, tracks)) + multiset{(publishers[t].clientID, t)}
  {
    var pair := (publishers[t].clientID, t);
    assert Owned(publishers, tracks + {t}) == Owned(publishers, tracks) + {pair};
    assert pair !in Owned(publishers, tracks);
  }

  lemma SubscribedArePublished(s: State)
    requires Agree(s)
    ensures forall c, t :: s.Subscribed(c, t) ==> t in s.publishers && s.SubscriptionsOf(c)[t] == s.publishers[t]
  {
  }

  lemma UnpubKeepsOthers(now: map<TrackID, Publisher>, was: map<TrackID, Publisher>, c: ClientID, t: TrackID)
    requires t in now && now[t].clientID == c && KeptPublishers(was, c) == KeptPublishers(now, c)
    ensures KeptPublishers(now - {t}, c) == KeptPublishers(was, c)
  {
  }

  lemma NothingPublished(s: State, c: ClientID)
    requires Agree(s) && s.ReadersOf(c) == {}
    ensures KeptPublishers(s.publishers, c) == s.publishers
  {
    forall t | t in s.publishers ensures s.publishers[t].clientID != c {
      var p := s.publishers[t];
      assert p.reader in s.ReadersOf(p.clientID) <==> PublishesVia(s, p.clientID, p.reader);
    }
  }

  lemma NoEntryLeft(s: State, c: ClientID)
    requires Agree(s) && (forall t | t in s.publishers :: s.publishers[t].clientID != c) && forall t :: !s.Subscribed(c, t)
    ensures c !in s.publishersByPubClientID && c !in s.subsBySubClientID
  {
    forall r ensures r !in s.ReadersOf(c) {
      assert r in s.ReadersOf(c) <==> PublishesVia(s, c, r);
    }
    assert s.ReadersOf(c) == {};
    forall t ensures t !in s.SubscriptionsOf(c) {
      assert !s.Subscribed(c, t);
    }
    assert s.SubscriptionsOf(c) == map[];
  }

  class PubSub {
    var publishers: map<TrackID, Publisher>
    var publishersByPubClientID: map<ClientID, set<Reader>>
    var subsBySubClientID: map<ClientID, Subscriber>
    /** The subscribers that each reader keeps. */
    var readers: map<Reader, set<ClientID>>
    /** The tracks that each transport keeps. */
    var transports: map<Transport, set<TrackID>>
    /** The events handed to the event channel. */
    var events: seq<Event>

    constructor ()
      ensures View() == EMPTY && Agree(View())
    {
      publishers, publishersByPubClientID, subsBySubClientID := map[], map[], map[];
      readers, transports, events := map[], map[], [];
      new;
      EmptyAgrees();
    }

    function View(): State
      reads this
    {
      State(publishers, publishersByPubClientID, subsBySubClientID, readers, transports, events)
    }

    method Pub(pubClientID: ClientID, reader: Reader)
      modifies this
      ensures View() == Published(old(View()), pubClientID, reader)
      ensures publishers == old(publishers)[reader.track := Publisher(pubClientID, reader)]
      ensures View().ReadersOf(pubClientID) == old(View()).ReadersOf(pubClientID) + {reader}
      ensures forall c | c != pubClientID :: View().ReadersOf(c) == old(View()).ReadersOf(c)
      ensures events == old(events) + [Event(Add, pubClientID, reader.track)]
      ensures forall c, t :: View().Subscribed(c, t) <==> old(View()).Subscribed(c, t)
      ensures old(Agree(View())) ==>
        (Agree(View()) <==>
         (reader.track in old(publishers) ==> old(publishers)[reader.track] == Publisher(pubClientID, reader)))
    {
      ghost var before := View();
      EnterPublisher(pubClientID, reader);
      PublishedObserved(before, pubClientID, reader);
      if Agree(before) {
        PublishAgrees(before, pubClientID, reader);
      }
    }

    /** Enters a publisher into the indexes and announces it. */
    method EnterPublisher(pubClientID: ClientID, reader: Reader)
      modifies this
      ensures View() == Published(old(View()), pubClientID, reader)
    {
      publishers := publishers[reader.track := Publisher(pubClientID, reader)];
      if pubClientID !in publishersByPubClientID {
        publishersByPubClientID := publishersByPubClientID[pubClientID := {}];
      }
      publishersByPubClientID := publishersByPubClientID[pubClientID := publishersByPubClientID[pubClientID] + {reader}];
      events := events + [Event(Add, pubClientID, reader.track)];
    }

    /** Drops one subscription; the caller holds the publisher. */
    method UnsubFrom(subClientID: ClientID, pub: Publisher) returns (err: SubError)
      modifies this
      ensures View() == Unsubscribed(old(View()), subClientID, pub)
      ensures err in {NoError, SubNotFound, NotSubscribed}
      ensures err == SubNotFound <==> subClientID !in old(subsBySubClientID)
      ensures err == NoError <==>
        && subClientID in old(subsBySubClientID)
        && subClientID in old(View()).SubsOf(pub.reader)
        && pub.reader.track in old(View()).TracksOf(old(subsBySubClientID)[subClientID].transport)
    {
      var trackID := pub.reader.track;
      var before := View();
      var failed := subClientID !in before.SubsOf(pub.reader);
      readers := readers[pub.reader := before.SubsOf(pub.reader) - {subClientID}];
      if subClientID !in subsBySubClientID {
        return SubNotFound;
      }
      failed := failed || trackID !in before.TracksOf(subsBySubClientID[subClientID].transport);
      Forget(subClientID, trackID);
      return if failed then NotSubscribed else NoError;
    }

    /** Removes a track from a subscribed client's transport and map. */
    method Forget(subClientID: ClientID, trackID: TrackID)
      requires subClientID in subsBySubClientID
      modifies this
      ensures View() == Forgotten(old(View()), subClientID, trackID)
    {
      var sub := subsBySubClientID[subClientID];
      transports := transports[sub.transport := View().TracksOf(sub.transport) - {trackID}];
      var rest := sub.publishersByTrack - {trackID};
      UpdateThenDrop(subsBySubClientID, subClientID, sub.(publishersByTrack := rest));
      subsBySubClientID := subsBySubClientID[subClientID := sub.(publishersByTrack := rest)];
      if |rest| == 0 {
        assert rest == map[];
        subsBySubClientID := subsBySubClientID - {subClientID};
      }
    }

    method Unsub(pubClientID: ClientID, trackID: TrackID, subClientID: ClientID) returns (err: SubError)
      requires Agree(View())
      modifies this
      ensures Agree(View()) && publishers == old(publishers) && events == old(events)
      ensures err == NoError <==> old(View()).Subscribed(subClientID, trackID)
      ensures err == TrackNotFound <==> trackID !in old(publishers)
      ensures forall c, t :: View().Subscribed(c, t) <==>
        old(View()).Subscribed(c, t) && !(c == subClientID && t == trackID)
    {
      ghost var before := View();
      if trackID !in publishers {
        return TrackNotFound;
      }
      var pub := publishers[trackID];
      assert before.Subscribed(subClientID, trackID) <==> subClientID in before.SubsOf(pub.reader) by {
        SubscribersAreSubscribed(before, pub, subClientID);
      }
      UnsubscribeAgrees(before, subClientID, pub);
      err := UnsubFrom(subClientID, pub);
      if before.Subscribed(subClientID, trackID) {
        TransportHasTrack(before, subClientID, trackID);
      }
    }

    method Sub(pubClientID: ClientID, trackID: TrackID, transport: Transport, readerOpen: bool) returns (err: SubError)
      requires Agree(View())
      modifies this
      ensures publishers == old(publishers) && events == old(events)
      ensures err == NoError ==>
        && trackID in old(publishers)
        && View() == Subscribing(old(View()), old(publishers)[trackID], transport)
        && (forall c, t :: View().Subscribed(c, t) <==>
              old(View()).Subscribed(c, t) || (c == transport.client && t == trackID))
        && Joined(old(View()), View(), old(publishers)[trackID].reader, transport)
        && (Agree(View()) <==>
            (transport.client in old(subsBySubClientID) ==> old(subsBySubClientID)[transport.client].transport == transport))
      ensures err != NoError ==>
        && Agree(View())
        && forall c, t :: View().Subscribed(c, t) <==> old(View()).Subscribed(c, t)
      ensures err == NoError <==>
        && pubClientID != transport.client && trackID in old(publishers) && readerOpen
        && trackID !in old(View()).TracksOf(transport) && !old(View()).Subscribed(transport.client, trackID)
      ensures err == SubscribeToOwnTrack <==> pubClientID == transport.client
      ensures err == TrackNotFound <==> pubClientID != transport.client && trackID !in old(publishers)
      ensures err == TrackAlreadyAdded <==>
        pubClientID != transport.client && trackID in old(publishers) && trackID in old(View()).TracksOf(transport)
    {
      var before := View();
      if pubClientID == transport.client {
        return SubscribeToOwnTrack;
      }
      if trackID !in publishers {
        return TrackNotFound;
      }
      var pub := publishers[trackID];
      SubscribersAreSubscribed(before, pub, transport.client);
      err := SubTo(pub, transport, readerOpen);
      if err == NoError {
        SubscribeAgrees(before, pub, transport);
        SubscribingJoins(before, pub, transport);
      } else {
        SameTracksAgree(before, View());
      }
    }

    /** Subscribes to a publisher, undoing the track that was added if its reader refuses. */
    method SubTo(pub: Publisher, transport: Transport, readerOpen: bool) returns (err: SubError)
      modifies this
      ensures err == NoError <==>
        && readerOpen && pub.reader.track !in old(View()).TracksOf(transport)
        && transport.client !in old(View()).SubsOf(pub.reader)
      ensures err in {NoError, TrackAlreadyAdded, ReaderRefused}
      ensures err == TrackAlreadyAdded <==> pub.reader.track in old(View()).TracksOf(transport)
      ensures err == NoError ==> View() == Subscribing(old(View()), pub, transport)
      ensures err != NoError ==>
        && View() == old(View()).(transports := transports)
        && forall tr :: View().TracksOf(tr) == old(View()).TracksOf(tr)
    {
      var before, trackID := View(), pub.reader.track;
      if trackID in before.TracksOf(transport) {
        return TrackAlreadyAdded;
      }
      transports := transports[transport := before.TracksOf(transport) + {trackID}];
      if !readerOpen || transport.client in before.SubsOf(pub.reader) {
        transports := transports[transport := View().TracksOf(transport) - {trackID}];
        return ReaderRefused;
      }
      Register(pub, transport, before);
      return NoError;
    }

    /** Enters a subscription whose track has been added to the transport. */
    method Register(pub: Publisher, transport: Transport, ghost before: State)
      requires View() == before.(transports := before.transports[transport := before.TracksOf(transport) + {pub.reader.track}])
      modifies this
      ensures View() == Subscribing(before, pub, transport)
    {
      readers := readers[pub.reader := View().SubsOf(pub.reader) + {transport.client}];
      var sub :=
        if transport.client in subsBySubClientID then subsBySubClientID[transport.client] else Subscriber(transport, map[]);
      subsBySubClientID := subsBySubClientID[
        transport.client := sub.(publishersByTrack := sub.publishersByTrack[pub.reader.track := pub])];
    }

    /** The clients that are subscribed to a track. */
    method Subscribers(pubClientID: ClientID, trackID: TrackID) returns (subs: set<ClientID>)
      requires Agree(View())
      ensures forall c :: c in subs <==> View().Subscribed(c, trackID)
    {
      subs := {};
      if trackID in publishers {
        SubscribersOf(View(), publishers[trackID]);
        subs := View().SubsOf(publishers[trackID].reader);
      } else {
        NobodySubscribed(View(), trackID);
      }
    }

    /** All published tracks with their owners, in any order: what a listener knows. */
    method Tracks() returns (tracks: seq<(ClientID, TrackID)>)
      requires Agree(View())
      ensures multiset(tracks) == multiset(Listing(Replay(events)))
    {
      tracks := [];
      var remaining := publishers.Keys;
      ghost var listed: set<TrackID> := {};
      while remaining != {}
        invariant remaining !! listed && remaining + listed == publishers.Keys
        invariant multiset(tracks) == multiset(Owned(publishers, listed))
        decreases remaining
      {
        var t :| t in remaining;
        OwnedOneMore(publishers, listed, t);
        tracks := tracks + [(publishers[t].clientID, t)];
        remaining, listed := remaining - {t}, listed + {t};
      }
      OwnedIsListing(publishers);
    }

    /** Unsubscribes every subscriber of a published track. */
    method UnsubAll(pub: Publisher)
      requires Agree(View()) && PublishesVia(View(), pub.clientID, pub.reader)
      modifies this
      ensures Agree(View())
      ensures publishers == old(publishers) && publishersByPubClientID == old(publishersByPubClientID)
      ensures events == old(events)
      ensures SubscriptionsWithin(View(), old(View()))
      ensures forall c, t :: View().Subscribed(c, t) <==> old(View()).Subscribed(c, t) && t != pub.reader.track
    {
      ghost var before, track := View(), pub.reader.track;
      var remaining := View().SubsOf(pub.reader);
      SubscribersOf(before, pub);
      while remaining != {}
        invariant Agree(View()) && Trimmed(View(), before, track, remaining)
        decreases remaining
      {
        var subClientID :| subClientID in remaining;
        TrimmedFurther(before, View(), pub, subClientID, remaining);
        var _ := UnsubFrom(subClientID, pub);
        remaining := remaining - {subClientID};
      }
    }

    /** Deletes a publisher from the indexes and announces it. */
    method DropPublisher(pubClientID: ClientID, pub: Publisher)
      modifies this
      ensures View() == Unpublished(old(View()), pubClientID, pub)
    {
      var rest := View().ReadersOf(pubClientID) - {pub.reader};
      publishersByPubClientID :=
        if |rest| == 0 then publishersByPubClientID - {pubClientID} else publishersByPubClientID[pubClientID := rest];
      publishers := publishers - {pub.reader.track};
      events := events + [Event(Remove, pubClientID, pub.reader.track)];
    }

    method Unpub(pubClientID: ClientID, trackID: TrackID)
      requires Agree(View())
      modifies this
      ensures Agree(View()) <==> (trackID in old(publishers) ==> old(publishers)[trackID].clientID == pubClientID)
      ensures publishers == old(publishers) - {trackID}
      ensures events == old(events) + if trackID in old(publishers) then [Event(Remove, pubClientID, trackID)] else []
      ensures SubscriptionsWithin(View(), old(View()))
      ensures forall c, t :: View().Subscribed(c, t) <==> old(View()).Subscribed(c, t) && t != trackID
      ensures forall c | c != pubClientID || trackID !in old(publishers) :: View().ReadersOf(c) == old(View()).ReadersOf(c)
      ensures trackID in old(publishers) ==>
        View().ReadersOf(pubClientID) == old(View()).ReadersOf(pubClientID) - {old(publishers)[trackID].reader}
    {
      if trackID in publishers {
        var pub := publishers[trackID];
        UnsubAll(pub);
        UnpublishAgrees(View(), pubClientID, pub);
        UnpublishedObserved(View(), pubClientID, pub);
        DropPublisher(pubClientID, pub);
      } else {
        NobodySubscribed(View(), trackID);
      }
    }

    /** Unpublishes every track of a client. */
    method UnpubAll(clientID: ClientID)
      requires Agree(View())
      modifies this
      ensures Agree(View()) && SubscriptionsWithin(View(), old(View()))
      ensures publishers == KeptPublishers(old(publishers), clientID)
      ensures forall c, t :: View().Subscribed(c, t) <==> old(View()).Subscribed(c, t) && t in publishers
      ensures AnnouncesRemovals(old(events), events, clientID, TracksBy(old(publishers), clientID))
    {
      ghost var before := View();
      var remaining := View().ReadersOf(clientID);
      LeftAtFirst(before, clientID);
      while remaining != {}
        invariant Agree(View()) && LeftOf(View(), before, clientID)
        invariant remaining == View().ReadersOf(clientID)
        decreases remaining
      {
        var reader :| reader in remaining;
        ghost var now := View();
        assert PublishesVia(now, clientID, reader);
        Unpub(clientID, reader.track);
        LeftAfter(before, now, View(), clientID, reader.track);
        remaining := remaining - {reader};
      }
      NothingPublished(View(), clientID);
      assert before.publishers.Keys - publishers.Keys == TracksBy(before.publishers, clientID);
    }

    /** Drops every subscription of a client. */
    method UnsubEverywhere(clientID: ClientID)
      requires Agree(View())
      modifies this
      ensures Agree(View()) && SubscriptionsWithin(View(), old(View()))
      ensures publishers == old(publishers) && events == old(events)
      ensures forall c, t :: View().Subscribed(c, t) <==> old(View()).Subscribed(c, t) && c != clientID
    {
      ghost var before := View();
      var subscriptions := View().SubscriptionsOf(clientID);
      var remaining := subscriptions.Keys;
      SubscribedArePublished(before);
      while remaining != {}
        invariant Agree(View()) && SubscriptionsWithin(View(), before)
        invariant publishers == before.publishers && events == before.events && remaining <= subscriptions.Keys
        invariant forall c, t :: View().Subscribed(c, t) <==> before.Subscribed(c, t) && (c == clientID ==> t in remaining)
        decreases remaining
      {
        var trackID :| trackID in remaining;
        assert before.Subscribed(clientID, trackID);
        UnsubscribeAgrees(View(), clientID, subscriptions[trackID]);
        var _ := UnsubFrom(clientID, subscriptions[trackID]);
        remaining := remaining - {trackID};
      }
    }

    /** Afterwards the client publishes nothing and is subscribed to nothing, nobody
        is subscribed to its former tracks, nothing else has changed, and the removal of
        each of its tracks has been announced once. */
    method Terminate(clientID: ClientID)
      requires Agree(View())
      modifies this
      ensures Agree(View()) && SubscriptionsWithin(View(), old(View()))
      ensures publishers == KeptPublishers(old(publishers), clientID)
      ensures forall c, t :: View().Subscribed(c, t) <==>
        old(View()).Subscribed(c, t) && c != clientID && !old(View()).Publishes(clientID, t)
      ensures clientID !in publishersByPubClientID && clientID !in subsBySubClientID
      ensures AnnouncesRemovals(old(events), events, clientID, TracksBy(old(publishers), clientID))
    {
      ghost var before := View();
      SubscribedArePublished(before);
      UnpubAll(clientID);
      UnsubEverywhere(clientID);
      NoEntryLeft(View(), clientID);
    }
  }
}
