/** Handlers whose Redis calls are all answered compute their specification and leave the room settled. */
module RoomInvariant {
  import opened RoomModel
  import opened Counting
  import opened Handlers
  import opened RoomSpec
  import opened Replaying
  import opened FailureSafety

  /** How a handler finds the room. */
  ghost predicate Begins(home: Id -> Client, h: Handler, base: Shared) {
    Settled(home, base) && Known(home, h) && Fresh(h, base.room)
  }

  // ----- Wiring -----

  lemma ExactPubs(room: Room, off: set<Id>, pubs: map<Id, Publisher>)
    requires Exact(room, off)
    ensures Exact(room.(pubs := pubs), off)
  {
  }

  lemma PublishSettles(home: Id -> Client, h: Handler, base: Shared)
    requires Begins(home, h, base) && h.Publish?
    ensures var p := NewPublisher(h);
      Settled(home, Shared(Spec(h, base.room), base.log + [AddPublisher(p.erizo, p.client, p.id, p.name)]))
  {
    var p := NewPublisher(h);
    MediaPublish(base.room, p, base.log);
    ExactPubs(base.room, {}, base.room.pubs[p.id := p]);
    assert Wired(home, Spec(h, base.room)) by { hide Exact, MediaOf; }
  }

  lemma AnswerSettles(home: Id -> Client, h: Handler, base: Shared)
    requires Begins(home, h, base) && h.Answer? && h.stream in base.room.pubs
    ensures Settled(home, Shared(Spec(h, base.room), base.log))
  {
    var p := base.room.pubs[h.stream].(videoSsrc := h.video, audioSsrc := h.audio);
    MediaAnswer(base.room, p);
    ExactPubs(base.room, {}, base.room.pubs[p.id := p]);
    assert Wired(home, Spec(h, base.room)) by { hide Exact, MediaOf; }
  }

  lemma WiredSubscribe(home: Id -> Client, h: Handler, room: Room)
    requires Wired(home, room) && Known(home, h) && h.Subscribe? && h.stream in room.pubs && h.sid !in room.subs
    ensures var sub := NewSubscriber(h, room.pubs[h.stream]);
      Wired(home, room.(subs := room.subs[sub.id := sub]))
  {
  }

  lemma WiredBridge(home: Id -> Client, room: Room, b: Bridge)
    requires Wired(home, room) && b.src in room.pubs && b.sender == room.pubs[b.src].erizo
    ensures Wired(home, room.(bridges := room.bridges[b.id := b]))
  {
  }

  // ----- Subscribe -----

  /** The room between a bridged subscriber's record and its bridge. */
  ghost function Joined(h: Handler, room: Room): Room
    requires h.Subscribe? && h.stream in room.pubs
  {
    var sub := NewSubscriber(h, room.pubs[h.stream]);
    room.(subs := room.subs[sub.id := sub])
  }

  ghost predicate SubscribeAt(h: Handler, base: Shared, l: Local, cur: Shared)
    requires Subscribing(l)
  {
    && l.h == h && h.Subscribe?
    && cur.log == base.log
    && (l.SubGet? ==> cur.room == base.room)
    && (!l.SubGet? ==> h.stream in base.room.pubs && l.p == base.room.pubs[h.stream] && Answered(l.p))
    && (l.SubPut? ==> cur.room == base.room)
    && (l.SubScan? || l.SubBump? || l.SubGetAgain? || l.SubNew? ==>
          h.c.agent != l.p.agent && cur.room == Joined(h, base.room))
    && (l.SubGetAgain? || l.SubNew? ==> NoBridgeFor(base.room.bridges, Key(h.stream, h.c.erizo)))
    && (l.SubNew? ==> l.q == l.p)
    && (l.SubBump? ==>
          && l.b.id in base.room.bridges && BridgeKey(l.b) == Key(h.stream, h.c.erizo)
          && l.b == base.room.bridges[l.b.id].(count := base.room.bridges[l.b.id].count + 1))
  }

  lemma PlainSettles(home: Id -> Client, h: Handler, base: Shared)
    requires Begins(home, h, base) && h.Subscribe? && Accepts(h, base.room)
    requires h.c.agent == base.room.pubs[h.stream].agent
    ensures Settled(home, Shared(Spec(h, base.room), base.log + [Welcome(h, base.room.pubs[h.stream])]))
  {
    hide Exact, MediaOf, Wired;
    var p := base.room.pubs[h.stream];
    assert Spec(h, base.room) == Joined(h, base.room);
    ExactAddSub(base.room, NewSubscriber(h, p));
    WiredSubscribe(home, h, base.room);
    MediaWelcome(h, p, base.room, base.log);
  }

  lemma RaisedIsOne(bridges: map<Id, Bridge>, b: Bridge)
    requires BridgesKeyed(bridges) && UniqueKeys(bridges) && b.id in bridges
    requires b == bridges[b.id].(count := bridges[b.id].count + 1)
    ensures HasBridge(bridges, BridgeKey(b)) && Raised(bridges, BridgeKey(b)) == bridges[b.id := b]
  {
    assert BridgeKey(bridges[b.id]) == BridgeKey(b);
  }

  lemma BridgeSource(home: Id -> Client, room: Room, b: Bridge)
    requires Wired(home, room) && b.id in room.bridges && b == room.bridges[b.id].(count := b.count)
    ensures b.src in room.pubs && b.sender == room.pubs[b.src].erizo
  {
  }

  lemma BumpSettles(home: Id -> Client, h: Handler, base: Shared, b: Bridge)
    requires Begins(home, h, base) && h.Subscribe? && Accepts(h, base.room)
    requires h.c.agent != base.room.pubs[h.stream].agent
    requires b.id in base.room.bridges && BridgeKey(b) == Key(h.stream, h.c.erizo)
    requires b == base.room.bridges[b.id].(count := base.room.bridges[b.id].count + 1)
    ensures var joined := Joined(h, base.room);
      && Spec(h, base.room) == joined.(bridges := joined.bridges[b.id := b])
      && Settled(home, Shared(Spec(h, base.room), base.log + [Welcome(h, base.room.pubs[h.stream])]))
  {
    hide Exact, MediaOf, Wired, HasBridge, BridgesKeyed, UniqueKeys, Raised;
    var p := base.room.pubs[h.stream];
    var joined := Joined(h, base.room);
    ExactKeys(base.room, {});
    RaisedIsOne(base.room.bridges, b);
    BridgeSource(home, base.room, b);
    ExactAddSub(base.room, NewSubscriber(h, p));
    ExactBump(joined, h.sid, b.id);
    WiredSubscribe(home, h, base.room);
    WiredBridge(home, joined, b);
    MediaWelcome(h, p, base.room, base.log);
    MediaRaise(joined, b);
  }

  lemma NewSettles(home: Id -> Client, h: Handler, base: Shared)
    requires Begins(home, h, base) && h.Subscribe? && Accepts(h, base.room)
    requires h.c.agent != base.room.pubs[h.stream].agent
    requires NoBridgeFor(base.room.bridges, Key(h.stream, h.c.erizo))
    ensures var joined := Joined(h, base.room);
      var p := base.room.pubs[h.stream];
      var b := NewBridge(h, p);
      && Spec(h, base.room) == joined.(bridges := joined.bridges[b.id := b])
      && Settled(home, Shared(Spec(h, base.room), (base.log + Connect(p, b)) + [Welcome(h, p)]))
  {
    hide Exact, MediaOf, Wired, HasBridge;
    var p := base.room.pubs[h.stream];
    var b := NewBridge(h, p);
    var joined := Joined(h, base.room);
    NoBridgeIsNone(base.room.bridges, BridgeKey(b));
    ExactAddSub(base.room, NewSubscriber(h, p));
    ExactNew(joined, h.sid, b);
    WiredSubscribe(home, h, base.room);
    WiredBridge(home, joined, b);
    MediaConnect(base.room, p, b, base.log);
    MediaWelcome(h, p, base.room.(bridges := base.room.bridges[b.id := b]), base.log + Connect(p, b));
  }

  /** Reads of handleSubscribe, and a bridged subscriber's record. */
  lemma SubscribeGoesOn(home: Id -> Client, h: Handler, base: Shared, l: Local, s: Shared, t: Local, u: Shared)
    requires Begins(home, h, base) && Subscribing(l) && Subscribing(t)
    requires SubscribeAt(h, base, l, s) && SubscribeStep(l, s, Good, t, u)
    ensures SubscribeAt(h, base, t, u)
  {
    hide Begins;
  }

  lemma SubscribeEnds(home: Id -> Client, h: Handler, base: Shared, l: Local, s: Shared, t: Local, u: Shared)
    requires Begins(home, h, base) && Subscribing(l) && !Subscribing(t)
    requires SubscribeAt(h, base, l, s) && SubscribeStep(l, s, Good, t, u)
    ensures Final(t) && Inv(home, h, base, t, u)
  {
    hide Settled, HasBridge, SweepAt, ClearAt, Raised;
    if l.SubPut? {
      PlainSettles(home, h, base);
    } else if l.SubBump? {
      BumpSettles(home, h, base, l.b);
    } else if l.SubNew? {
      NewSettles(home, h, base);
    }
  }

  lemma SubscribeKeeps(home: Id -> Client, h: Handler, base: Shared, l: Local, s: Shared, t: Local, u: Shared)
    requires Begins(home, h, base) && Subscribing(l)
    requires SubscribeAt(h, base, l, s) && SubscribeStep(l, s, Good, t, u)
    ensures Inv(home, h, base, t, u)
  {
    hide Begins, SubscribeAt, SubscribeStep, SweepAt, ClearAt;
    if Subscribing(t) {
      SubscribeGoesOn(home, h, base, l, s, t, u);
    } else {
      SubscribeEnds(home, h, base, l, s, t, u);
    }
  }

  // ----- Close: the nested loop -----

  /** Bridges keep everything but their counts. */
  ghost predicate Shape(before: map<Id, Bridge>, after: map<Id, Bridge>) {
    forall i :: i in after ==> i in before && after[i] == before[i].(count := after[i].count)
  }

  /** Position a of the snapshot has been deleted when the nested loop stands at (i, j). */
  ghost predicate Taken(cl: Closing, room: Room, a: nat)
    requires a < |cl.subs|
  {
    || (a < cl.i && Doomed(cl.c, room.pubs, cl.subs[a]))
    || (a == cl.i && exists x :: 0 <= x < cl.j && x < |cl.pubs| && Watches(cl, a, x))
  }

  predicate Watches(cl: Closing, a: nat, x: nat)
    requires a < |cl.subs| && x < |cl.pubs|
  {
    cl.pubs[x].client == cl.c.id && cl.subs[a].subscribeTo == cl.pubs[x].id
  }

  ghost predicate Marked(cl: Closing, room: Room) {
    && (forall a :: 0 <= a < |cl.subs| ==> (cl.subs[a].id in cl.delSubs <==> Taken(cl, room, a)))
    && (forall x :: x in cl.delSubs ==> x in room.subs)
  }

  ghost predicate Snapped(h: Handler, base: Room, cl: Closing) {
    && h.Close? && cl.c == h.c
    && SubSnapshot(cl.subs, base.subs) && PubSnapshot(cl.pubs, base.pubs)
    && cl.i <= |cl.subs| && cl.j <= |cl.pubs| && cl.k <= |cl.pubs|
  }

  /** What the nested loop maintains, for the subscriber records marked so far. */
  ghost predicate Swept(h: Handler, base: Shared, cl: Closing, cur: Room) {
    && Snapped(h, base.room, cl)
    && cl.k == 0 && cl.delPubs == []
    && cur.subs == base.room.subs && cur.pubs == base.room.pubs
    && Marked(cl, base.room)
    && Shape(base.room.bridges, cur.bridges)
    && Exact(cur, Ids(cl.delSubs))
  }

  /** The point between marking a bridged subscriber and lowering its bridge. */
  ghost predicate Lowering(h: Handler, base: Shared, cl: Closing, cur: Room) {
    && cl.i < |cl.subs|
    && cl.delSubs == Front(cl.delSubs) + [cl.subs[cl.i].id]
    && Swept(h, base, cl.(delSubs := Front(cl.delSubs)), cur)
    && Hit(cl) && cl.subs[cl.i].isBridge
  }

  ghost predicate SweepAt(h: Handler, base: Shared, l: Local, cur: Shared)
    requires Sweeping(l)
  {
    match l
    case Visit(cl) =>
      Swept(h, base, cl, cur.room) && Replay(cur.log) == MediaWithout(cur.room, Ids(cl.delSubs), {})
    case ScanSub(cl) =>
      Lowering(h, base, cl, cur.room) && Replay(cur.log) == MediaWithout(cur.room, Ids(Front(cl.delSubs)), {})
    case WriteSub(cl, b) =>
      && Lowering(h, base, cl, cur.room)
      && b.id in cur.room.bridges && BridgeKey(b) == SubKey(cl.subs[cl.i])
      && b == cur.room.bridges[b.id].(count := cur.room.bridges[b.id].count - 1)
      && Replay(cur.log) ==
           MediaWithout(if b.count <= 0 then Lowered(cur.room, b) else cur.room, Ids(Front(cl.delSubs)), {})
  }

  /** A subscriber that watches a stream of the client is found by exactly one position of the inner loop. */
  lemma WatchedIffOwn(h: Handler, base: Room, cl: Closing, a: nat)
    requires Snapped(h, base, cl) && a < |cl.subs|
    ensures (exists x :: 0 <= x < |cl.pubs| && Watches(cl, a, x)) <==>
            (cl.subs[a].subscribeTo in base.pubs && base.pubs[cl.subs[a].subscribeTo].client == cl.c.id)
  {
    var st := cl.subs[a].subscribeTo;
    if st in base.pubs {
      var x :| 0 <= x < |cl.pubs| && cl.pubs[x].id == st;
      assert base.pubs[st] == cl.pubs[x];
      if cl.pubs[x].client == cl.c.id { assert Watches(cl, a, x); }
    }
  }

  /** What one position of the nested loop adds to the marked records. */
  lemma AdvanceMarks(h: Handler, base: Room, cl: Closing)
    requires Snapped(h, base, cl) && Marked(cl, base) && cl.i < |cl.subs|
    ensures !Hit(cl) ==> Marked(Advance(cl), base)
    ensures Hit(cl) ==> Marked(Advance(cl.(delSubs := cl.delSubs + [cl.subs[cl.i].id])), base)
  {
    var id := cl.subs[cl.i].id;
    var next := Advance(if Hit(cl) then cl.(delSubs := cl.delSubs + [id]) else cl);
    WatchedIffOwn(h, base, cl, cl.i);
    forall a | 0 <= a < |cl.subs|
      ensures next.subs[a].id in next.delSubs <==> Taken(next, base, a)
    {
      assert next.subs[a].id in next.delSubs <==> (cl.subs[a].id in cl.delSubs || (Hit(cl) && a == cl.i));
      if a == cl.i {
        AdvanceTaken(base, cl, next);
      }
    }
  }

  lemma AdvanceTaken(base: Room, cl: Closing, next: Closing)
    requires cl.i < |cl.subs| && cl.j <= |cl.pubs|
    requires next == Advance(cl).(delSubs := next.delSubs)
    requires (exists x :: 0 <= x < |cl.pubs| && Watches(cl, cl.i, x)) <==>
             (cl.subs[cl.i].subscribeTo in base.pubs && base.pubs[cl.subs[cl.i].subscribeTo].client == cl.c.id)
    ensures Taken(next, base, cl.i) <==> (Taken(cl, base, cl.i) || Hit(cl))
  {
    assert forall x :: 0 <= x < |cl.pubs| ==> Watches(next, cl.i, x) == Watches(cl, cl.i, x);
    if cl.j < |cl.pubs| {
      assert Hit(cl) == Watches(cl, cl.i, cl.j);
    }
  }

  /** The two delete branches never take one bridged subscriber twice: a client is never bridged to its own stream. */
  lemma BridgedOnce(home: Id -> Client, h: Handler, base: Shared, cl: Closing)
    requires Begins(home, h, base) && Snapped(h, base.room, cl) && Marked(cl, base.room)
    requires cl.i < |cl.subs| && Hit(cl) && cl.subs[cl.i].isBridge
    ensures cl.subs[cl.i].id !in cl.delSubs
  {
    var s := cl.subs[cl.i];
    var p := base.room.pubs[s.subscribeTo];
    assert base.room.subs[s.id] == s;
    assert p.client != s.client;
    WatchedIffOwn(h, base.room, cl, cl.i);
  }

  lemma VisitKeeps(home: Id -> Client, h: Handler, base: Shared, cl: Closing, s: Shared, t: Local, u: Shared)
    requires Begins(home, h, base)
    requires SweepAt(h, base, Visit(cl), s) && SweepStep(Visit(cl), s, Good, t, u)
    ensures Inv(home, h, base, t, u)
  {
    hide Settled, Exact, MediaWithout, Shape, Marked;
    if cl.i < |cl.subs| {
      var sub := cl.subs[cl.i];
      IdsSnoc(cl.delSubs, sub.id);
      AdvanceMarks(h, base.room, cl);
      if Hit(cl) && !sub.isBridge {
        ExactTakeOff(s.room, Ids(cl.delSubs), sub.id);
        MediaFarewell(s.room, Ids(cl.delSubs), sub, s.log);
      }
    } else {
      assert Ids([]) == {};
      AllMarked(h, base.room, cl);
    }
  }

  lemma SnapAt(h: Handler, base: Room, cl: Closing)
    requires Snapped(h, base, cl) && cl.i < |cl.subs|
    ensures cl.subs[cl.i].id in base.subs && base.subs[cl.subs[cl.i].id] == cl.subs[cl.i]
  {
  }

  lemma UserHasBridge(room: Room, off: set<Id>, i: Id)
    requires Exact(room, off) && i in room.subs && i !in off && room.subs[i].isBridge
    ensures HasBridge(room.bridges, SubKey(room.subs[i]))
  {
  }

  /** removeBridgeStreamSub finds the bridge of every bridged subscriber it is called for. */
  lemma ScanSubFinds(home: Id -> Client, h: Handler, base: Shared, cl: Closing, cur: Room)
    requires Begins(home, h, base) && Lowering(h, base, cl, cur)
    ensures var sub := cl.subs[cl.i];
      && sub.id in cur.subs && cur.subs[sub.id] == sub && sub.id !in Ids(Front(cl.delSubs))
      && HasBridge(cur.bridges, SubKey(sub))
  {
    hide Settled, Exact, Shape, Marked, HasBridge, SubSnapshot, PubSnapshot;
    var back := cl.(delSubs := Front(cl.delSubs));
    BridgedOnce(home, h, base, back);
    SnapAt(h, base.room, back);
    UserHasBridge(cur, Ids(back.delSubs), cl.subs[cl.i].id);
  }

  lemma ScanSubKeeps(home: Id -> Client, h: Handler, base: Shared, cl: Closing, s: Shared, t: Local, u: Shared)
    requires Begins(home, h, base)
    requires SweepAt(h, base, ScanSub(cl), s) && SweepStep(ScanSub(cl), s, Good, t, u)
    ensures Sweeping(t) && SweepAt(h, base, t, u)
  {
    hide Settled, Exact, MediaWithout, Lowering, HasBridge, BridgesKeyed, UniqueKeys;
    var off := Ids(Front(cl.delSubs));
    ScanSubFinds(home, h, base, cl, s.room);
    if t.Visit? {
      NoBridgeIsNone(s.room.bridges, SubKey(cl.subs[cl.i]));
    } else if t.b.count <= 0 {
      LoweringKeys(h, base, cl, s.room);
      MediaDisconnect(s.room, off, t.b, s.log);
    }
  }

  lemma LoweringKeys(h: Handler, base: Shared, cl: Closing, cur: Room)
    requires Lowering(h, base, cl, cur)
    ensures BridgesKeyed(cur.bridges) && UniqueKeys(cur.bridges)
  {
    hide SubSnapshot, PubSnapshot, Marked, Shape;
  }

  lemma ExactKeys(room: Room, off: set<Id>)
    requires Exact(room, off)
    ensures BridgesKeyed(room.bridges) && UniqueKeys(room.bridges)
  {
  }

  lemma LoweredExact(room: Room, off: set<Id>, i: Id, b: Bridge)
    requires Exact(room, off) && i in room.subs && i !in off && b.id in room.bridges
    requires Uses(room.subs[i], BridgeKey(b)) && b == room.bridges[b.id].(count := room.bridges[b.id].count - 1)
    ensures Exact(Lowered(room, b), off + {i})
  {
    ExactLower(room, off, i, b.id);
  }

  lemma LoweredShape(before: map<Id, Bridge>, room: Room, b: Bridge)
    requires Shape(before, room.bridges) && b.id in room.bridges
    requires b == room.bridges[b.id].(count := room.bridges[b.id].count - 1)
    ensures Shape(before, Lowered(room, b).bridges)
  {
  }

  /** Lowering the bridge of a marked subscriber brings the loop to its next position. */
  lemma LoweredSwept(home: Id -> Client, h: Handler, base: Shared, cl: Closing, b: Bridge, cur: Room)
    requires Begins(home, h, base) && Lowering(h, base, cl, cur)
    requires b.id in cur.bridges && BridgeKey(b) == SubKey(cl.subs[cl.i])
    requires b == cur.bridges[b.id].(count := cur.bridges[b.id].count - 1)
    ensures Swept(h, base, Advance(cl), Lowered(cur, b))
  {
    hide Settled, Exact, Shape, Marked, HasBridge, SubSnapshot, PubSnapshot;
    var sub := cl.subs[cl.i];
    var back := cl.(delSubs := Front(cl.delSubs));
    ScanSubFinds(home, h, base, cl, cur);
    AdvanceMarks(h, base.room, back);
    IdsSnoc(back.delSubs, sub.id);
    LoweredExact(cur, Ids(back.delSubs), sub.id, b);
    LoweredShape(base.room.bridges, cur, b);
  }

  lemma WriteSubKeeps(home: Id -> Client, h: Handler, base: Shared, cl: Closing, b: Bridge, s: Shared, t: Local, u: Shared)
    requires Begins(home, h, base)
    requires SweepAt(h, base, WriteSub(cl, b), s) && SweepStep(WriteSub(cl, b), s, Good, t, u)
    ensures Sweeping(t) && SweepAt(h, base, t, u)
  {
    hide Settled, MediaWithout, Lowering, Swept, HasBridge;
    var sub := cl.subs[cl.i];
    LoweredSwept(home, h, base, cl, b, s.room);
    ScanSubFinds(home, h, base, cl, s.room);
    LoweredMedia(s.room, b, Ids(Front(cl.delSubs)), s.log);
    MediaFarewell(u.room, Ids(Front(cl.delSubs)), sub, s.log);
    MarkedLast(h, base, cl, s.room);
  }

  lemma MarkedLast(h: Handler, base: Shared, cl: Closing, cur: Room)
    requires Lowering(h, base, cl, cur)
    ensures Ids(cl.delSubs) == Ids(Front(cl.delSubs)) + {cl.subs[cl.i].id}
  {
    hide Swept;
    IdsSnoc(Front(cl.delSubs), cl.subs[cl.i].id);
  }

  lemma LoweredMedia(room: Room, b: Bridge, off: set<Id>, log: seq<Command>)
    requires b.id in room.bridges && b == room.bridges[b.id].(count := room.bridges[b.id].count - 1)
    requires Replay(log) == MediaWithout(if b.count <= 0 then Lowered(room, b) else room, off, {})
    ensures Replay(log) == MediaWithout(Lowered(room, b), off, {})
  {
    VirtualsSame(room.bridges, b);
  }

  // ----- Close: publishers and deletions -----

  /** The nested loop has marked exactly the subscriptions that end with the client. */
  ghost predicate AllSwept(h: Handler, base: Shared, cl: Closing, cur: Shared) {
    && Snapped(h, base.room, cl)
    && cur.room.subs == base.room.subs && cur.room.pubs == base.room.pubs
    && Ids(cl.delSubs) == DoomedSubs(h.c, base.room)
    && Shape(base.room.bridges, cur.room.bridges)
    && Exact(cur.room, DoomedSubs(h.c, base.room))
  }

  ghost predicate PubsMarked(cl: Closing, room: Room, upto: nat) {
    && (forall a :: 0 <= a < |cl.pubs| ==>
          (cl.pubs[a].id in cl.delPubs <==> (a < upto && cl.pubs[a].client == cl.c.id)))
    && (forall x :: x in cl.delPubs ==> x in room.pubs)
  }

  ghost predicate ClearAt(h: Handler, base: Shared, l: Local, cur: Shared)
    requires Clearing(l)
  {
    match l
    case CloseSubs(c) => h == Close(c) && cur == base
    case ClosePubs(c, subs) => h == Close(c) && cur == base && SubSnapshot(subs, base.room.subs)
    case VisitPub(cl) =>
      && AllSwept(h, base, cl, cur) && PubsMarked(cl, base.room, cl.k)
      && Replay(cur.log) == MediaWithout(cur.room, DoomedSubs(h.c, base.room), Ids(cl.delPubs))
    case ScanPub(cl) =>
      && AllSwept(h, base, cl, cur) && cl.k < |cl.pubs| && cl.pubs[cl.k].client == h.c.id
      && cl.delPubs == Front(cl.delPubs) + [cl.pubs[cl.k].id]
      && PubsMarked(cl.(delPubs := Front(cl.delPubs)), base.room, cl.k)
      && Replay(cur.log) == MediaWithout(cur.room, DoomedSubs(h.c, base.room), Ids(Front(cl.delPubs)))
    case DropPub(_, _) => false
    case DelSubs(cl) =>
      && AllSwept(h, base, cl, cur) && Ids(cl.delPubs) == OwnPubs(h.c, base.room)
      && Replay(cur.log) == MediaWithout(cur.room, DoomedSubs(h.c, base.room), OwnPubs(h.c, base.room))
    case DelPubs(cl, clean) =>
      && clean && h.Close? && Ids(cl.delPubs) == OwnPubs(h.c, base.room)
      && cur.room == base.room.(subs := base.room.subs - DoomedSubs(h.c, base.room), bridges := cur.room.bridges)
      && cur.room.bridges == CloseSpec(h.c, base.room).bridges
      && Exact(cur.room, {})
      && Replay(cur.log) == MediaOf(cur.room.(pubs := base.room.pubs - OwnPubs(h.c, base.room)))
  }

  lemma AllMarked(h: Handler, base: Room, cl: Closing)
    requires Snapped(h, base, cl) && Marked(cl, base) && cl.i == |cl.subs|
    ensures Ids(cl.delSubs) == DoomedSubs(h.c, base)
  {
    forall x | x in base.subs
      ensures x in cl.delSubs <==> Doomed(h.c, base.pubs, base.subs[x])
    {
      var a :| 0 <= a < |cl.subs| && cl.subs[a].id == x;
      assert base.subs[x] == cl.subs[a];
    }
  }

  lemma AllPubsMarked(h: Handler, base: Room, cl: Closing)
    requires Snapped(h, base, cl) && PubsMarked(cl, base, |cl.pubs|)
    ensures Ids(cl.delPubs) == OwnPubs(h.c, base)
  {
    forall x | x in base.pubs
      ensures x in cl.delPubs <==> base.pubs[x].client == h.c.id
    {
      var a :| 0 <= a < |cl.pubs| && cl.pubs[a].id == x;
      assert base.pubs[x] == cl.pubs[a];
    }
  }

  /** By the time the publishers are visited the nested loop has drained every bridge of the client's streams, so
      removeBridgeStreamPub finds nothing to remove. */
  lemma BridgesDrained(c: Client, base: Room, cur: Room)
    requires Exact(cur, DoomedSubs(c, base)) && cur.subs == base.subs
    ensures forall i :: i in cur.bridges ==> cur.bridges[i].src !in OwnPubs(c, base)
  {
    forall i | i in cur.bridges
      ensures cur.bridges[i].src !in OwnPubs(c, base)
    {
      var users := Users(cur.subs, DoomedSubs(c, base), BridgeKey(cur.bridges[i]));
      assert users != {};
      var u :| u in users;
      assert !Doomed(c, base.pubs, base.subs[u]);
    }
  }

  lemma SkipPub(cl: Closing, base: Room)
    requires PubsMarked(cl, base, cl.k) && cl.k < |cl.pubs| && cl.pubs[cl.k].client != cl.c.id
    ensures PubsMarked(cl.(k := cl.k + 1), base, cl.k + 1)
  {
  }

  lemma VisitPubKeeps(home: Id -> Client, h: Handler, base: Shared, cl: Closing, s: Shared, t: Local, u: Shared)
    requires ClearAt(h, base, VisitPub(cl), s) && ClearStep(VisitPub(cl), s, Good, t, u)
    ensures Clearing(t) && !t.DropPub? && ClearAt(h, base, t, u)
  {
    hide Exact, MediaWithout, Shape, SubSnapshot, PubSnapshot, PubsMarked, DoomedSubs, OwnPubs;
    if |cl.pubs| <= cl.k {
      AllPubsMarked(h, base.room, cl);
    } else if cl.pubs[cl.k].client == cl.c.id {
      IdsSnoc(cl.delPubs, cl.pubs[cl.k].id);
      assert cl.(delPubs := cl.delPubs) == cl;
    } else {
      SkipPub(cl, base.room);
    }
  }

  lemma MarkPub(h: Handler, base: Room, cl: Closing)
    requires Snapped(h, base, cl) && cl.k < |cl.pubs| && cl.pubs[cl.k].client == h.c.id
    requires cl.delPubs == Front(cl.delPubs) + [cl.pubs[cl.k].id]
    requires PubsMarked(cl.(delPubs := Front(cl.delPubs)), base, cl.k)
    ensures PubsMarked(cl.(k := cl.k + 1), base, cl.k + 1)
    ensures cl.pubs[cl.k].id in OwnPubs(h.c, base) && cl.pubs[cl.k].id in base.pubs && base.pubs[cl.pubs[cl.k].id] == cl.pubs[cl.k]
  {
    hide SubSnapshot;
    forall x | x in cl.delPubs
      ensures x in base.pubs
    {
      assert x in Front(cl.delPubs) || x == cl.pubs[cl.k].id;
    }
  }

  /** removeBridgeStreamPub finds nothing, so the loop goes on to the next publisher. */
  lemma ScanPubFindsNothing(h: Handler, base: Shared, cl: Closing, s: Shared, t: Local, u: Shared)
    requires AllSwept(h, base, cl, s) && cl.k < |cl.pubs| && cl.pubs[cl.k].id in OwnPubs(h.c, base.room)
    requires ClearStep(ScanPub(cl), s, Good, t, u)
    ensures var p := cl.pubs[cl.k];
      && t == VisitPub(cl.(k := cl.k + 1))
      && u == s.(log := s.log + [RemovePublisher(p.erizo, p.client, p.id)])
  {
    hide Exact, Shape, SubSnapshot, PubSnapshot, DoomedSubs, OwnPubs, NoBridgeFrom;
    BridgesDrained(h.c, base.room, s.room);
  }

  lemma ScanPubKeeps(home: Id -> Client, h: Handler, base: Shared, cl: Closing, s: Shared, t: Local, u: Shared)
    requires ClearAt(h, base, ScanPub(cl), s) && ClearStep(ScanPub(cl), s, Good, t, u)
    ensures Clearing(t) && !t.DropPub? && ClearAt(h, base, t, u)
  {
    hide Exact, MediaWithout, Shape, SubSnapshot, PubSnapshot, DoomedSubs, OwnPubs, PubsMarked, ClearStep;
    var p := cl.pubs[cl.k];
    MarkPub(h, base.room, cl);
    ScanPubFindsNothing(h, base, cl, s, t, u);
    IdsSnoc(Front(cl.delPubs), p.id);
    MediaUnpublish(s.room, DoomedSubs(h.c, base.room), Ids(Front(cl.delPubs)), p, s.log);
  }

  lemma RecountIs(c: Client, base: Room, cur: Room)
    requires Exact(base, {}) && Shape(base.bridges, cur.bridges)
    requires cur.subs == base.subs && Exact(cur, DoomedSubs(c, base))
    ensures cur.bridges == CloseSpec(c, base).bridges
  {
    var gone := DoomedSubs(c, base);
    var subs := base.subs - gone;
    forall k { UsersDelete(base.subs, gone, k); }
    forall i | i in base.bridges && UserCount(subs, {}, BridgeKey(base.bridges[i])) > 0
      ensures i in cur.bridges
    {
      var users := Users(base.subs, gone, BridgeKey(base.bridges[i]));
      assert users != {};
      var u :| u in users;
      var y :| y in cur.bridges && BridgeKey(cur.bridges[y]) == SubKey(cur.subs[u]);
      assert BridgeKey(base.bridges[y]) == BridgeKey(base.bridges[i]);
    }
  }

  lemma DelSubsKeeps(home: Id -> Client, h: Handler, base: Shared, cl: Closing, s: Shared, t: Local, u: Shared)
    requires Begins(home, h, base)
    requires ClearAt(h, base, DelSubs(cl), s) && ClearStep(DelSubs(cl), s, Good, t, u)
    ensures Inv(home, h, base, t, u)
  {
    hide Exact, Shape, Recount;
    var gone := DoomedSubs(h.c, base.room);
    RecountIs(h.c, base.room, s.room);
    ExactDelete(s.room, gone);
    assert Drop(s.room.subs, cl.delSubs) == s.room.subs - gone;
    assert cl.delSubs == [] ==> s.room.subs - gone == s.room.subs;
    MediaClosed(h.c, s.room);
    assert DoomedSubs(h.c, s.room) == gone && OwnPubs(h.c, s.room) == OwnPubs(h.c, base.room);
  }

  lemma CloseWires(home: Id -> Client, c: Client, room: Room)
    requires Wired(home, room) && Exact(room, {})
    ensures Wired(home, CloseSpec(c, room))
  {
    Teardown(home, c, room);
    hide Exact, UserCount;
  }

  lemma DelPubsKeeps(home: Id -> Client, h: Handler, base: Shared, cl: Closing, clean: bool, s: Shared, t: Local, u: Shared)
    requires Begins(home, h, base)
    requires ClearAt(h, base, DelPubs(cl, clean), s) && ClearStep(DelPubs(cl, clean), s, Good, t, u)
    ensures Inv(home, h, base, t, u)
  {
    hide Exact, Recount, MediaOf, Wired;
    var own := OwnPubs(h.c, base.room);
    assert Drop(s.room.pubs, cl.delPubs) == s.room.pubs - own;
    assert cl.delPubs == [] ==> s.room.pubs - own == s.room.pubs;
    assert u.room == CloseSpec(h.c, base.room);
    CloseWires(home, h.c, base.room);
    ExactPubs(s.room, {}, s.room.pubs - own);
  }

  lemma OpenKeeps(home: Id -> Client, h: Handler, base: Shared, l: Local, s: Shared, t: Local, u: Shared)
    requires Begins(home, h, base) && (l.CloseSubs? || l.ClosePubs?)
    requires ClearAt(h, base, l, s) && ClearStep(l, s, Good, t, u)
    ensures Inv(home, h, base, t, u)
  {
    hide Exact, MediaOf, Wired;
    assert Ids([]) == {};
    MediaWithoutNone(base.room);
  }

  // ----- The invariant of a locked section -----

  /** What holds at each point of a handler that began at `base`. Once it is done, the room is its specification
      applied to the room it found, and the room is settled again. */
  ghost predicate Inv(home: Id -> Client, h: Handler, base: Shared, l: Local, cur: Shared) {
    if Subscribing(l) then SubscribeAt(h, base, l, cur)
    else if Sweeping(l) then SweepAt(h, base, l, cur)
    else if Clearing(l) then !l.DropPub? && ClearAt(h, base, l, cur)
    else if l.Done? then
      cur.room == Spec(h, base.room) && Settled(home, cur) && (l.ok <==> Accepts(h, base.room))
    else if l.NotReady? then cur == base && h.Subscribe? && h.stream in base.room.pubs && !Accepts(h, base.room)
    else if l.AnsPut? then
      && cur == base && h.Answer? && h.stream in base.room.pubs
      && l.p == base.room.pubs[h.stream].(videoSsrc := h.video, audioSsrc := h.audio)
    else l.h == h && cur == base
  }

  lemma PublisherKeeps(home: Id -> Client, h: Handler, base: Shared, l: Local, s: Shared, t: Local, u: Shared)
    requires Begins(home, h, base) && Inv(home, h, base, l, s)
    requires PublisherStep(l, s, Good, t, u)
    ensures Inv(home, h, base, t, u)
  {
    hide Settled, SubscribeAt, SweepAt, ClearAt;
    if l.PubPut? {
      PublishSettles(home, h, base);
    } else if l.AnsPut? {
      AnswerSettles(home, h, base);
      StreamKeyed(home, base, h.stream);
    }
  }

  lemma StreamKeyed(home: Id -> Client, s: Shared, stream: Id)
    requires Settled(home, s) && stream in s.room.pubs
    ensures s.room.pubs[stream].id == stream
  {
  }

  lemma StepKeeps(home: Id -> Client, h: Handler, base: Shared, l: Local, s: Shared, t: Local, u: Shared)
    requires Begins(home, h, base) && Inv(home, h, base, l, s)
    requires Step(l, s, Good, t, u)
    ensures Inv(home, h, base, t, u)
  {
    hide Begins, SubscribeAt, SweepAt, ClearAt, SubscribeStep, SweepStep, ClearStep, PublisherStep;
    if Subscribing(l) {
      SubscribeKeeps(home, h, base, l, s, t, u);
    } else if l.Visit? {
      VisitKeeps(home, h, base, l.cl, s, t, u);
    } else if l.ScanSub? {
      ScanSubKeeps(home, h, base, l.cl, s, t, u);
    } else if l.WriteSub? {
      WriteSubKeeps(home, h, base, l.cl, l.b, s, t, u);
    } else if l.VisitPub? {
      VisitPubKeeps(home, h, base, l.cl, s, t, u);
    } else if l.ScanPub? {
      ScanPubKeeps(home, h, base, l.cl, s, t, u);
    } else if l.DelSubs? {
      DelSubsKeeps(home, h, base, l.cl, s, t, u);
    } else if l.DelPubs? {
      DelPubsKeeps(home, h, base, l.cl, l.clean, s, t, u);
    } else if l.CloseSubs? || l.ClosePubs? {
      OpenKeeps(home, h, base, l, s, t, u);
    } else {
      PublisherKeeps(home, h, base, l, s, t, u);
    }
  }

  lemma StartHolds(home: Id -> Client, h: Handler, base: Shared)
    requires Begins(home, h, base)
    ensures Inv(home, h, base, Start(h), base)
  {
    hide Settled;
  }

  /** A handler that starts from a settled room and whose calls are answered keeps its invariant all along. */
  lemma {:induction false} RunKeeps(home: Id -> Client, h: Handler, xs: seq<Config>, n: nat)
    requires Run(xs, true) && n < |xs|
    requires xs[0].l == Start(h) && Begins(home, h, xs[0].s)
    ensures Inv(home, h, xs[0].s, xs[n].l, xs[n].s)
  {
    hide Begins, Inv, Step;
    if n == 0 {
      StartHolds(home, h, xs[0].s);
    } else {
      RunKeeps(home, h, xs, n - 1);
      assert GoodMove(xs[n - 1], xs[n - 1 + 1]);
      StepKeeps(home, h, xs[0].s, xs[n - 1].l, xs[n - 1].s, xs[n].l, xs[n].s);
    }
  }

  /** A completed handler has computed its specification and settled the room: the counts are exact, and replaying the
      commands gives exactly the sessions of the hashes. */
  lemma RunComputesSpec(home: Id -> Client, h: Handler, xs: seq<Config>)
    requires Run(xs, true) && xs[0].l == Start(h) && Begins(home, h, xs[0].s)
    requires xs[|xs| - 1].l.Done?
    ensures var base, cur := xs[0].s, xs[|xs| - 1].s;
      && cur.room == Spec(h, base.room)
      && Settled(home, cur)
      && (xs[|xs| - 1].l.ok <==> Accepts(h, base.room))
  {
    hide Begins, Settled, Step;
    RunKeeps(home, h, xs, |xs| - 1);
  }
}
