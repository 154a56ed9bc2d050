/** Whatever Redis calls are lost, no bridge is ever counted beyond its subscriber records: handlers write a record
    before its count and lower a count before deleting its record. */
module FailureSafety {
  import opened RoomModel
  import opened Counting
  import opened Handlers

  ghost function Ids(xs: seq<Id>): set<Id> {
    set x | x in xs
  }

  /** The subscriber records that the counts do not cover at a point of a handler. */
  ghost function Off(l: Local): set<Id> {
    if l.SubScan? || l.SubBump? || l.SubGetAgain? || l.SubNew? then (if l.h.Subscribe? then {l.h.sid} else {})
    else if l.ScanSub? || l.WriteSub? then Ids(Front(l.cl.delSubs))
    else if l.Visit? || l.VisitPub? || l.ScanPub? || l.DropPub? || l.DelSubs? then Ids(l.cl.delSubs)
    else {}
  }

  function Front(xs: seq<Id>): seq<Id> {
    if xs == [] then [] else xs[..|xs| - 1]
  }

  /** The ids a handler draws are new to the room. */
  ghost predicate Fresh(h: Handler, room: Room) {
    match h
    case Publish(_, stream, _) => stream !in room.pubs
    case Subscribe(_, _, sid, bid, _) => sid !in room.subs && bid !in room.bridges
    case _ => true
  }

  ghost predicate Pending(cl: Closing, room: Room) {
    && cl.i < |cl.subs|
    && SubSnapshot(cl.subs, room.subs)
    && cl.subs[cl.i].isBridge
    && cl.delSubs != [] && cl.delSubs[|cl.delSubs| - 1] == cl.subs[cl.i].id
  }

  ghost predicate Joining(h: Handler, p: Publisher, room: Room) {
    && h.Subscribe?
    && h.sid in room.subs && room.subs[h.sid] == NewSubscriber(h, p) && NewSubscriber(h, p).isBridge
    && h.bid !in room.bridges
  }

  /** What holds of the room at each point of a handler. */
  ghost predicate SafeAt(l: Local, room: Room) {
    Safe(room, Off(l)) && Facts(l, room)
  }

  ghost predicate Facts(l: Local, room: Room) {
    if l.SubGet? || l.SubPut? then Fresh(l.h, room)
    else if l.SubScan? then Joining(l.h, l.p, room)
    else if l.SubGetAgain? || l.SubNew? then
      Joining(l.h, l.p, room) && NoBridgeFor(room.bridges, Key(l.h.stream, l.h.c.erizo))
    else if l.SubBump? then
      && Joining(l.h, l.p, room)
      && l.b.id in room.bridges && BridgeKey(l.b) == Key(l.h.stream, l.h.c.erizo)
      && l.b == room.bridges[l.b.id].(count := room.bridges[l.b.id].count + 1)
    else if l.ClosePubs? then SubSnapshot(l.subs, room.subs)
    else if l.Visit? then SubSnapshot(l.cl.subs, room.subs)
    else if l.ScanSub? then Pending(l.cl, room)
    else if l.WriteSub? then
      && Pending(l.cl, room)
      && l.b.id in room.bridges && BridgeKey(l.b) == SubKey(l.cl.subs[l.cl.i])
      && l.b == room.bridges[l.b.id].(count := room.bridges[l.b.id].count - 1)
    else true
  }

  lemma IdsSnoc(xs: seq<Id>, x: Id)
    ensures Ids(xs + [x]) == Ids(xs) + {x}
    ensures Front(xs + [x]) == xs
  {
  }

  lemma IdsFront(xs: seq<Id>)
    requires xs != []
    ensures Ids(xs) == Ids(Front(xs)) + {xs[|xs| - 1]}
  {
    assert xs == Front(xs) + [xs[|xs| - 1]];
    IdsSnoc(Front(xs), xs[|xs| - 1]);
  }

  lemma NoBridgeIsNone(bridges: map<Id, Bridge>, k: Key)
    requires NoBridgeFor(bridges, k)
    ensures !HasBridge(bridges, k)
  {
  }

  lemma SubPutSafe(h: Handler, p: Publisher, s: Shared, fate: Fate, t: Local, u: Shared)
    requires SubscribeStep(SubPut(h, p), s, fate, t, u) && SafeAt(SubPut(h, p), s.room)
    ensures SafeAt(t, u.room)
  {
    hide Safe;
    var sub := NewSubscriber(h, p);
    var joined := s.room.(subs := s.room.subs[sub.id := sub]);
    SafeAddSub(s.room, sub);
    SafeWeaken(joined, {sub.id}, {});
  }

  lemma SubBumpSafe(h: Handler, p: Publisher, b: Bridge, s: Shared, fate: Fate, t: Local, u: Shared)
    requires SubscribeStep(SubBump(h, p, b), s, fate, t, u) && SafeAt(SubBump(h, p, b), s.room)
    ensures SafeAt(t, u.room)
  {
    hide Safe;
    SafeWeaken(s.room, {h.sid}, {});
    SafeBump(s.room, h.sid, b.id);
  }

  lemma SubNewSafe(h: Handler, p: Publisher, q: Publisher, s: Shared, fate: Fate, t: Local, u: Shared)
    requires SubscribeStep(SubNew(h, p, q), s, fate, t, u) && SafeAt(SubNew(h, p, q), s.room)
    ensures SafeAt(t, u.room)
  {
    hide Safe, HasBridge;
    SafeWeaken(s.room, {h.sid}, {});
    NoBridgeIsNone(s.room.bridges, BridgeKey(NewBridge(h, p)));
    SafeNew(s.room, h.sid, NewBridge(h, p));
  }

  lemma SubReadSafe(l: Local, s: Shared, fate: Fate, t: Local, u: Shared)
    requires l.SubGet? || l.SubScan? || l.SubGetAgain?
    requires SubscribeStep(l, s, fate, t, u) && SafeAt(l, s.room)
    ensures SafeAt(t, u.room)
  {
    hide Safe;
    SafeWeaken(s.room, Off(l), {});
  }

  /** Fewer bridges are never less safe. */
  lemma SafeWithout(room: Room, off: set<Id>, b: Id)
    requires Safe(room, off)
    ensures Safe(room.(bridges := room.bridges - {b}), off)
  {
  }

  lemma VisitSafe(cl: Closing, s: Shared, fate: Fate, t: Local, u: Shared)
    requires SweepStep(Visit(cl), s, fate, t, u) && SafeAt(Visit(cl), s.room)
    ensures SafeAt(t, u.room)
  {
    hide Safe;
    if cl.i < |cl.subs| {
      var sub := cl.subs[cl.i];
      IdsSnoc(cl.delSubs, sub.id);
      if !sub.isBridge {
        SafeTakeOff(s.room, Ids(cl.delSubs), sub.id);
      }
    }
  }

  lemma ScanSubSafe(cl: Closing, s: Shared, fate: Fate, t: Local, u: Shared)
    requires SweepStep(ScanSub(cl), s, fate, t, u) && SafeAt(ScanSub(cl), s.room)
    ensures SafeAt(t, u.room)
  {
    hide Safe, HasBridge;
    var off, sub := Off(ScanSub(cl)), cl.subs[cl.i];
    SafeWeaken(s.room, off, {});
    IdsFront(cl.delSubs);
    if t.Visit? {
      NoBridgeIsNone(s.room.bridges, SubKey(sub));
      SafeTakeOff(s.room, off, sub.id);
    }
  }

  lemma LoweredSafe(room: Room, off: set<Id>, i: Id, b: Bridge)
    requires Safe(room, off) && i in room.subs && b.id in room.bridges
    requires Uses(room.subs[i], BridgeKey(b)) && b == room.bridges[b.id].(count := room.bridges[b.id].count - 1)
    ensures Safe(Lowered(room, b), off + {i}) && Safe(Lowered(room, b), {})
  {
    if b.count <= 0 {
      SafeDropOne(room, off, i, b.id);
    } else {
      SafeLower(room, off, i, b.id);
    }
    SafeWeaken(Lowered(room, b), off + {i}, {});
  }

  lemma WriteSubSafe(cl: Closing, b: Bridge, s: Shared, fate: Fate, t: Local, u: Shared)
    requires SweepStep(WriteSub(cl, b), s, fate, t, u) && SafeAt(WriteSub(cl, b), s.room)
    ensures SafeAt(t, u.room)
  {
    hide Safe;
    var off, sub := Off(ScanSub(cl)), cl.subs[cl.i];
    IdsFront(cl.delSubs);
    SafeWeaken(s.room, off, {});
    LoweredSafe(s.room, off, sub.id, b);
  }

  lemma DropPubSafe(cl: Closing, b: Bridge, s: Shared, fate: Fate, t: Local, u: Shared)
    requires ClearStep(DropPub(cl, b), s, fate, t, u) && SafeAt(DropPub(cl, b), s.room)
    ensures SafeAt(t, u.room)
  {
    hide Safe;
    var off := Off(DropPub(cl, b));
    SafeWeaken(s.room, off, {});
    SafeWithout(s.room, off, b.id);
    SafeWithout(s.room, {}, b.id);
  }

  lemma DelSubsSafe(cl: Closing, s: Shared, fate: Fate, t: Local, u: Shared)
    requires ClearStep(DelSubs(cl), s, fate, t, u) && SafeAt(DelSubs(cl), s.room)
    ensures SafeAt(t, u.room)
  {
    hide Safe;
    SafeWeaken(s.room, Ids(cl.delSubs), {});
    SafeDelete(s.room, Ids(cl.delSubs));
  }

  lemma ClearSafe(l: Local, s: Shared, fate: Fate, t: Local, u: Shared)
    requires Clearing(l) && !l.DropPub? && !l.DelSubs?
    requires ClearStep(l, s, fate, t, u) && SafeAt(l, s.room)
    ensures SafeAt(t, u.room)
  {
    hide Safe;
    SafeWeaken(s.room, Off(l), {});
    assert Ids([]) == {};
    SafePubs(s.room, {}, u.room.pubs);
  }

  lemma PublisherSafe(l: Local, s: Shared, fate: Fate, t: Local, u: Shared)
    requires PublisherStep(l, s, fate, t, u) && SafeAt(l, s.room)
    ensures SafeAt(t, u.room)
  {
    hide Safe;
    SafePubs(s.room, {}, u.room.pubs);
  }

  /** Every step, answered or lost, keeps the counts safe for what the handler still has to do. */
  lemma StepSafe(l: Local, s: Shared, fate: Fate, t: Local, u: Shared)
    requires Step(l, s, fate, t, u) && SafeAt(l, s.room)
    ensures SafeAt(t, u.room)
  {
    hide SafeAt, SubscribeStep, SweepStep, ClearStep, PublisherStep;
    if l.SubPut? {
      SubPutSafe(l.h, l.p, s, fate, t, u);
    } else if l.SubBump? {
      SubBumpSafe(l.h, l.p, l.b, s, fate, t, u);
    } else if l.SubNew? {
      SubNewSafe(l.h, l.p, l.q, s, fate, t, u);
    } else if Subscribing(l) {
      SubReadSafe(l, s, fate, t, u);
    } else if l.Visit? {
      VisitSafe(l.cl, s, fate, t, u);
    } else if l.ScanSub? {
      ScanSubSafe(l.cl, s, fate, t, u);
    } else if l.WriteSub? {
      WriteSubSafe(l.cl, l.b, s, fate, t, u);
    } else if l.DropPub? {
      DropPubSafe(l.cl, l.b, s, fate, t, u);
    } else if l.DelSubs? {
      DelSubsSafe(l.cl, s, fate, t, u);
    } else if Clearing(l) {
      ClearSafe(l, s, fate, t, u);
    } else {
      PublisherSafe(l, s, fate, t, u);
    }
  }

  lemma SafePoint(l: Local, room: Room)
    requires SafeAt(l, room)
    ensures Safe(room, {})
  {
    SafeWeaken(room, Off(l), {});
  }

  /** In every state of every run of a handler, with any calls lost anywhere, the counts are safe. */
  lemma {:induction false} RunSafe(h: Handler, xs: seq<Config>, n: nat)
    requires Run(xs, false) && n < |xs|
    requires xs[0].l == Start(h) && Safe(xs[0].s.room, {}) && Fresh(h, xs[0].s.room)
    ensures SafeAt(xs[n].l, xs[n].s.room) && Safe(xs[n].s.room, {})
  {
    if n > 0 {
      RunSafe(h, xs, n - 1);
      assert Move(xs[n - 1], xs[n - 1 + 1]);
      var fate :| Step(xs[n - 1].l, xs[n - 1].s, fate, xs[n].l, xs[n].s);
      StepSafe(xs[n - 1].l, xs[n - 1].s, fate, xs[n].l, xs[n].s);
    }
    SafePoint(xs[n].l, xs[n].s.room);
  }
}
