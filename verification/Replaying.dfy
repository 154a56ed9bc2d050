/** How the media servers' sessions follow the commands. */
module Replaying {
  import opened RoomModel
  import opened Counting
  import opened Handlers
  import opened RoomSpec

  ghost function SubFeedsOf(subs: map<Id, Subscriber>, ids: set<Id>): set<Feed> {
    set i | i in ids && i in subs :: SubFeed(subs[i])
  }

  ghost function PubFeedsOf(pubs: map<Id, Publisher>, ids: set<Id>): set<Feed> {
    set i | i in ids && i in pubs :: PubFeed(pubs[i])
  }

  /** The sessions of a room whose listed subscribers and publishers have been told to leave. */
  ghost function MediaWithout(room: Room, subIds: set<Id>, pubIds: set<Id>): Media {
    Media(PubFeeds(room.pubs) - PubFeedsOf(room.pubs, pubIds), SubFeeds(room.subs) - SubFeedsOf(room.subs, subIds),
          VPubs(room.bridges), VSubs(room.bridges))
  }

  lemma MediaWithoutNone(room: Room)
    ensures MediaWithout(room, {}, {}) == MediaOf(room)
  {
    assert SubFeedsOf(room.subs, {}) == {};
    assert PubFeedsOf(room.pubs, {}) == {};
  }

  lemma MediaPublish(room: Room, p: Publisher, log: seq<Command>)
    requires p.id !in room.pubs && Replay(log) == MediaOf(room)
    ensures Replay(log + [AddPublisher(p.erizo, p.client, p.id, p.name)]) == MediaOf(room.(pubs := room.pubs[p.id := p]))
  {
    var pubs := room.pubs[p.id := p];
    ReplayOne(log, AddPublisher(p.erizo, p.client, p.id, p.name));
    assert PubFeeds(pubs) == PubFeeds(room.pubs) + {PubFeed(p)} by {
      assert forall i :: i in room.pubs ==> PubFeed(pubs[i]) == PubFeed(room.pubs[i]) && i in pubs;
      assert PubFeed(pubs[p.id]) == PubFeed(p);
    }
  }

  lemma MediaAnswer(room: Room, p: Publisher)
    requires p.id in room.pubs && PubFeed(p) == PubFeed(room.pubs[p.id])
    ensures MediaOf(room.(pubs := room.pubs[p.id := p])) == MediaOf(room)
  {
    var pubs := room.pubs[p.id := p];
    assert forall i :: i in room.pubs ==> PubFeed(pubs[i]) == PubFeed(room.pubs[i]) && i in pubs;
    assert PubFeeds(pubs) == PubFeeds(room.pubs);
  }

  lemma SubFeedsAdd(subs: map<Id, Subscriber>, s: Subscriber)
    requires s.id !in subs
    ensures SubFeeds(subs[s.id := s]) == SubFeeds(subs) + {SubFeed(s)}
  {
    var more := subs[s.id := s];
    assert forall i :: i in subs ==> SubFeed(more[i]) == SubFeed(subs[i]) && i in more;
    assert SubFeed(more[s.id]) == SubFeed(s);
  }

  lemma MediaWelcome(h: Handler, p: Publisher, room: Room, log: seq<Command>)
    requires h.Subscribe? && h.sid !in room.subs && Replay(log) == MediaOf(room)
    ensures var sub := NewSubscriber(h, p);
      Replay(log + [Welcome(h, p)]) == MediaOf(room.(subs := room.subs[sub.id := sub]))
  {
    ReplayOne(log, Welcome(h, p));
    SubFeedsAdd(room.subs, NewSubscriber(h, p));
  }

  lemma MediaRaise(room: Room, b: Bridge)
    requires b.id in room.bridges && VPub(b) == VPub(room.bridges[b.id]) && VSub(b) == VSub(room.bridges[b.id])
    ensures MediaOf(room.(bridges := room.bridges[b.id := b])) == MediaOf(room)
  {
    VirtualsSame(room.bridges, b);
  }

  lemma VirtualsSame(bridges: map<Id, Bridge>, b: Bridge)
    requires b.id in bridges && VPub(b) == VPub(bridges[b.id]) && VSub(b) == VSub(bridges[b.id])
    ensures VPubs(bridges[b.id := b]) == VPubs(bridges) && VSubs(bridges[b.id := b]) == VSubs(bridges)
  {
    var more := bridges[b.id := b];
    assert forall i :: i in bridges ==> VPub(more[i]) == VPub(bridges[i]) && VSub(more[i]) == VSub(bridges[i]) && i in more;
  }

  lemma MediaConnect(room: Room, p: Publisher, b: Bridge, log: seq<Command>)
    requires b.id !in room.bridges && Replay(log) == MediaOf(room)
    ensures Replay(log + Connect(p, b)) == MediaOf(room.(bridges := room.bridges[b.id := b]))
  {
    var bridges := room.bridges[b.id := b];
    ReplayTwo(log, Connect(p, b)[0], Connect(p, b)[1]);
    assert forall i :: i in room.bridges ==>
      VPub(bridges[i]) == VPub(room.bridges[i]) && VSub(bridges[i]) == VSub(room.bridges[i]) && i in bridges;
    assert bridges[b.id] == b;
    assert VPubs(bridges) == VPubs(room.bridges) + {VPub(b)};
    assert VSubs(bridges) == VSubs(room.bridges) + {VSub(b)};
  }

  /** A virtual publisher is removed by its source stream alone, and that names one session: keys are unique. */
  lemma VirtualsDisconnect(bridges: map<Id, Bridge>, b: Id, m: Media)
    requires BridgesKeyed(bridges) && UniqueKeys(bridges) && b in bridges
    requires m.vpubs == VPubs(bridges) && m.vsubs == VSubs(bridges)
    ensures var d := Disconnect(bridges[b]);
      Apply(Apply(m, d[0]), d[1]) == m.(vpubs := VPubs(bridges - {b}), vsubs := VSubs(bridges - {b}))
  {
    var fewer := bridges - {b};
    var gone := bridges[b];
    var m' := Apply(Apply(m, Disconnect(gone)[0]), Disconnect(gone)[1]);
    assert forall i :: i in bridges && i != b ==> i in fewer && fewer[i] == bridges[i];
    assert forall i :: i in bridges && i != b ==> BridgeKey(bridges[i]) != BridgeKey(gone) && bridges[i].id != gone.id;
    assert m'.vpubs == VPubs(fewer);
    assert m'.vsubs == VSubs(fewer);
  }

  lemma MediaDisconnect(room: Room, subIds: set<Id>, b: Bridge, log: seq<Command>)
    requires BridgesKeyed(room.bridges) && UniqueKeys(room.bridges)
    requires b.id in room.bridges && Disconnect(b) == Disconnect(room.bridges[b.id])
    requires Replay(log) == MediaWithout(room, subIds, {})
    ensures Replay(log + Disconnect(b)) == MediaWithout(room.(bridges := room.bridges - {b.id}), subIds, {})
  {
    ReplayTwo(log, Disconnect(b)[0], Disconnect(b)[1]);
    VirtualsDisconnect(room.bridges, b.id, Replay(log));
  }

  lemma MediaFarewell(room: Room, subIds: set<Id>, s: Subscriber, log: seq<Command>)
    requires s.id in room.subs && room.subs[s.id] == s
    requires Replay(log) == MediaWithout(room, subIds, {})
    ensures Replay(log + Farewell(s)) == MediaWithout(room, subIds + {s.id}, {})
  {
    ReplayTwo(log, Farewell(s)[0], Farewell(s)[1]);
    var more := subIds + {s.id};
    assert SubFeedsOf(room.subs, more) == SubFeedsOf(room.subs, subIds) + {SubFeed(s)} by {
      assert s.id in more;
      assert forall i :: i in subIds ==> i in more;
    }
  }

  lemma MediaUnpublish(room: Room, subIds: set<Id>, pubIds: set<Id>, p: Publisher, log: seq<Command>)
    requires p.id in room.pubs && room.pubs[p.id] == p
    requires Replay(log) == MediaWithout(room, subIds, pubIds)
    ensures Replay(log + [RemovePublisher(p.erizo, p.client, p.id)]) == MediaWithout(room, subIds, pubIds + {p.id})
  {
    ReplayOne(log, RemovePublisher(p.erizo, p.client, p.id));
    var more := pubIds + {p.id};
    assert PubFeedsOf(room.pubs, more) == PubFeedsOf(room.pubs, pubIds) + {PubFeed(p)} by {
      assert p.id in more;
      assert forall i :: i in pubIds ==> i in more;
    }
  }

  /** Removals by (client, stream) end exactly the doomed subscriptions: a survivor never shares its feed with a doomed record. */
  lemma MediaClosed(c: Client, room: Room)
    requires Keyed(room)
    ensures MediaWithout(room, DoomedSubs(c, room), OwnPubs(c, room)) ==
            MediaOf(room.(pubs := room.pubs - OwnPubs(c, room), subs := room.subs - DoomedSubs(c, room)))
  {
    var doomed, own := DoomedSubs(c, room), OwnPubs(c, room);
    var subs, pubs := room.subs - doomed, room.pubs - own;
    assert forall i :: i in room.subs && i !in doomed ==> i in subs && subs[i] == room.subs[i];
    assert forall i, j :: i in doomed && j in subs ==> SubFeed(room.subs[i]) != SubFeed(subs[j]);
    assert SubFeeds(subs) == SubFeeds(room.subs) - SubFeedsOf(room.subs, doomed);
    assert forall i :: i in room.pubs && i !in own ==> i in pubs && pubs[i] == room.pubs[i];
    assert PubFeeds(pubs) == PubFeeds(room.pubs) - PubFeedsOf(room.pubs, own);
  }
}
