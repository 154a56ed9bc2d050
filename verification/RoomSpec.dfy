/** What each handler is for, said without its steps: the room it leaves behind as a function of the room it found. */
module RoomSpec {
  import opened RoomModel
  import opened Counting
  import opened Handlers

  // ----- What every room satisfies between handlers -----

  ghost predicate Keyed(room: Room) {
    && (forall i :: i in room.pubs ==> room.pubs[i].id == i)
    && (forall i :: i in room.subs ==> room.subs[i].id == i)
  }

  /** `home` gives the one record a client has from its token on; its streams and subscriptions carry that record's agent. */
  ghost predicate Homed(home: Id -> Client, room: Room) {
    && (forall i :: i in room.pubs ==> room.pubs[i].agent == home(room.pubs[i].client).agent)
    && (forall i :: i in room.subs ==> room.subs[i].agent == home(room.subs[i].client).agent)
  }

  /** Every subscriber names a publisher of the room, and is bridged exactly when the two sit on different agents. */
  ghost predicate Linked(room: Room) {
    forall i :: i in room.subs ==>
      && room.subs[i].subscribeTo in room.pubs
      && (room.subs[i].isBridge <==> room.subs[i].agent != room.pubs[room.subs[i].subscribeTo].agent)
  }

  /** Every bridge starts at the erizo of the stream it carries. */
  ghost predicate Sourced(room: Room) {
    forall i :: i in room.bridges ==>
      room.bridges[i].src in room.pubs && room.bridges[i].sender == room.pubs[room.bridges[i].src].erizo
  }

  ghost predicate Wired(home: Id -> Client, room: Room) {
    Keyed(room) && Homed(home, room) && Linked(room) && Sourced(room)
  }

  /** The hashes are consistent, the counts are exact and the media servers run exactly the sessions the hashes call for. */
  ghost predicate Settled(home: Id -> Client, s: Shared) {
    Wired(home, s.room) && Exact(s.room, {}) && Replay(s.log) == MediaOf(s.room)
  }

  // ----- Subscribe -----

  ghost function Raised(bridges: map<Id, Bridge>, k: Key): map<Id, Bridge> {
    map i | i in bridges ::
      if BridgeKey(bridges[i]) == k then bridges[i].(count := bridges[i].count + 1) else bridges[i]
  }

  ghost function SubscribeSpec(h: Handler, room: Room): Room
    requires h.Subscribe? && h.stream in room.pubs
  {
    var p := room.pubs[h.stream];
    var sub := NewSubscriber(h, p);
    var k := SubKey(sub);
    Room(room.pubs, room.subs[sub.id := sub],
         if !sub.isBridge then room.bridges
         else if HasBridge(room.bridges, k) then Raised(room.bridges, k)
         else room.bridges[h.bid := NewBridge(h, p)])
  }

  // ----- Close -----

  /** A subscription ends with a client when it is the client's own or watches one of the client's streams. */
  predicate Doomed(c: Client, pubs: map<Id, Publisher>, s: Subscriber) {
    s.client == c.id || (s.subscribeTo in pubs && pubs[s.subscribeTo].client == c.id)
  }

  ghost function DoomedSubs(c: Client, room: Room): set<Id> {
    set i | i in room.subs && Doomed(c, room.pubs, room.subs[i])
  }

  ghost function OwnPubs(c: Client, room: Room): set<Id> {
    set i | i in room.pubs && room.pubs[i].client == c.id
  }

  /** Every bridge that still has users, counted afresh. */
  ghost function Recount(bridges: map<Id, Bridge>, subs: map<Id, Subscriber>): map<Id, Bridge> {
    map i | i in bridges && UserCount(subs, {}, BridgeKey(bridges[i])) > 0 ::
      bridges[i].(count := UserCount(subs, {}, BridgeKey(bridges[i])))
  }

  ghost function CloseSpec(c: Client, room: Room): Room {
    var subs := room.subs - DoomedSubs(c, room);
    Room(room.pubs - OwnPubs(c, room), subs, Recount(room.bridges, subs))
  }

  // ----- All handlers -----

  /** Whether a handler gets past its reads. */
  predicate Accepts(h: Handler, room: Room) {
    match h
    case Answer(stream, _, _) => stream in room.pubs
    case Subscribe(_, stream, _, _, _) => stream in room.pubs && Answered(room.pubs[stream])
    case _ => true
  }

  ghost function Spec(h: Handler, room: Room): Room {
    if !Accepts(h, room) then room
    else match h
      case Publish(_, stream, _) => room.(pubs := room.pubs[stream := NewPublisher(h)])
      case Answer(stream, video, audio) =>
        room.(pubs := room.pubs[stream := room.pubs[stream].(videoSsrc := video, audioSsrc := audio)])
      case Subscribe(_, _, _, _, _) => SubscribeSpec(h, room)
      case Close(c) => CloseSpec(c, room)
  }

  /** A client acts with the record it was given at its token. */
  ghost predicate Known(home: Id -> Client, h: Handler) {
    match h
    case Publish(c, _, _) => home(c.id) == c
    case Subscribe(c, _, _, _, _) => home(c.id) == c
    case Close(c) => home(c.id) == c
    case Answer(_, _, _) => true
  }

  // ----- Complete teardown -----

  /** After a close nothing of the client is left, nor anything that hangs on its streams, and what survives is
      as it was: no other publisher or subscriber record changes. */
  lemma Teardown(home: Id -> Client, c: Client, room: Room)
    requires Wired(home, room) && Exact(room, {})
    ensures var r := CloseSpec(c, room);
      && (forall i :: i in r.pubs ==> r.pubs[i].client != c.id)
      && (forall i :: i in r.subs ==> r.subs[i].client != c.id && r.subs[i].subscribeTo in r.pubs)
      && (forall i :: i in r.bridges ==> r.bridges[i].src in r.pubs)
      && (forall i :: i in room.pubs && room.pubs[i].client != c.id ==> i in r.pubs && r.pubs[i] == room.pubs[i])
      && (forall i :: i in room.subs && !Doomed(c, room.pubs, room.subs[i]) ==> i in r.subs && r.subs[i] == room.subs[i])
  {
    var r := CloseSpec(c, room);
    forall i | i in r.bridges
      ensures r.bridges[i].src in r.pubs
    {
      var users := Users(r.subs, {}, BridgeKey(room.bridges[i]));
      assert users != {};
      var u :| u in users;
      assert r.subs[u].subscribeTo in r.pubs;
    }
  }

  /** Every bridge that survives carries some other client's stream to at least one surviving subscriber. */
  lemma CloseNeverStrandsABridge(home: Id -> Client, c: Client, room: Room, i: Id) returns (u: Id)
    requires Wired(home, room) && Exact(room, {}) && i in CloseSpec(c, room).bridges
    ensures var r := CloseSpec(c, room);
      u in r.subs && Uses(r.subs[u], BridgeKey(r.bridges[i])) && r.subs[u].client != c.id
  {
    var r := CloseSpec(c, room);
    var users := Users(r.subs, {}, BridgeKey(room.bridges[i]));
    assert users != {};
    u :| u in users;
  }
}
