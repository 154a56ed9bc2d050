/** Whose records a handler can leave in a room, in any room and whatever calls are lost. */
module Traces {
  import opened RoomModel
  import opened Handlers
  import opened Completion

  /** All publishers and subscribers belong to clients with a property. */
  ghost predicate Only(P: Id -> bool, room: Room) {
    && (forall i :: i in room.pubs ==> P(room.pubs[i].client))
    && (forall i :: i in room.subs ==> P(room.subs[i].client))
  }

  ghost predicate GoneFrom(i: Id, room: Room) {
    Only((x: Id) => x != i, room)
  }

  /** Streams and subscriptions live in the room of the client that made them. */
  ghost predicate InRoom(home: Id -> Client, r: Id, room: Room) {
    Only((x: Id) => home(x).room == r, room)
  }

  /** Whether a handler adds records of client i. */
  predicate Adds(h: Handler, i: Id) {
    (h.Publish? || h.Subscribe?) && h.c.id == i
  }

  // ----- What a handler adds is its own client's -----

  ghost predicate Carries(P: Id -> bool, l: Local) {
    && (l.AnsPut? ==> P(l.p.client))
    && (l.PubPut? && l.h.Publish? ==> P(l.h.c.id))
    && (Subscribing(l) && l.h.Subscribe? ==> P(l.h.c.id))
  }

  lemma SubscribeOnly(P: Id -> bool, l: Local, s: Shared, fate: Fate, t: Local, u: Shared)
    requires Subscribing(l) && SubscribeStep(l, s, fate, t, u) && Only(P, s.room) && Carries(P, l)
    ensures Only(P, u.room) && Carries(P, t)
  {
    hide NoBridgeFor;
  }

  lemma SweepOnly(P: Id -> bool, l: Local, s: Shared, fate: Fate, t: Local, u: Shared)
    requires Sweeping(l) && SweepStep(l, s, fate, t, u) && Only(P, s.room)
    ensures Only(P, u.room) && Carries(P, t)
  {
    hide NoBridgeFor;
  }

  lemma ClearOnly(P: Id -> bool, l: Local, s: Shared, fate: Fate, t: Local, u: Shared)
    requires Clearing(l) && ClearStep(l, s, fate, t, u) && Only(P, s.room)
    ensures Only(P, u.room) && Carries(P, t)
  {
    hide NoBridgeFrom, SubSnapshot, PubSnapshot;
  }

  lemma PublisherOnly(P: Id -> bool, l: Local, s: Shared, fate: Fate, t: Local, u: Shared)
    requires PublisherStep(l, s, fate, t, u) && Only(P, s.room) && Carries(P, l)
    ensures Only(P, u.room) && Carries(P, t)
  {
  }

  lemma StepOnly(P: Id -> bool, l: Local, s: Shared, fate: Fate, t: Local, u: Shared)
    requires Step(l, s, fate, t, u) && Only(P, s.room) && Carries(P, l)
    ensures Only(P, u.room) && Carries(P, t)
  {
    hide SubscribeStep, SweepStep, ClearStep, PublisherStep, Only, Carries;
    if Subscribing(l) {
      SubscribeOnly(P, l, s, fate, t, u);
    } else if Sweeping(l) {
      SweepOnly(P, l, s, fate, t, u);
    } else if Clearing(l) {
      ClearOnly(P, l, s, fate, t, u);
    } else {
      PublisherOnly(P, l, s, fate, t, u);
    }
  }

  lemma MoveOnly(P: Id -> bool, x: Config, y: Config)
    requires Move(x, y) && Only(P, x.s.room) && Carries(P, x.l)
    ensures Only(P, y.s.room) && Carries(P, y.l)
  {
    hide Step, Only, Carries;
    var fate :| Step(x.l, x.s, fate, y.l, y.s);
    StepOnly(P, x.l, x.s, fate, y.l, y.s);
  }

  lemma {:induction false} RunOnly(P: Id -> bool, xs: seq<Config>, n: nat)
    requires Run(xs, false) && n < |xs| && Only(P, xs[0].s.room) && Carries(P, xs[0].l)
    ensures Only(P, xs[n].s.room) && Carries(P, xs[n].l)
  {
    hide Move, Only, Carries;
    if n > 0 {
      RunOnly(P, xs, n - 1);
      assert Move(xs[n - 1], xs[n - 1 + 1]);
      MoveOnly(P, xs[n - 1], xs[n]);
    }
  }

  /** From any room, with any calls lost, a handler leaves records of clients with a property if the room had only such and the handler's own
      client has it. */
  lemma HandlerOnly(P: Id -> bool, h: Handler, base: Shared, l: Local, cur: Shared)
    requires Reaches(h, base, l, cur) && Only(P, base.room) && (h.Publish? || h.Subscribe? ==> P(h.c.id))
    ensures Only(P, cur.room)
  {
    hide Move, Only;
    var xs :| Whole(xs, h, base, l, cur);
    RunOnly(P, xs, |xs| - 1);
  }

  // ----- A close leaves nothing of its client -----

  ghost predicate Marks(cl: Closing, c: Client, room: Room, i: nat, k: nat) {
    && cl.c == c && SubSnapshot(cl.subs, room.subs) && PubSnapshot(cl.pubs, room.pubs)
    && (forall a :: 0 <= a < i && a < |cl.subs| && cl.subs[a].client == c.id ==> cl.subs[a].id in cl.delSubs)
    && (forall a :: 0 <= a < k && a < |cl.pubs| && cl.pubs[a].client == c.id ==> cl.pubs[a].id in cl.delPubs)
  }

  /** How far a close of client c has come. */
  ghost predicate ClosingAt(c: Client, l: Local, room: Room) {
    if l.CloseSubs? then l.c == c
    else if l.ClosePubs? then l.c == c && SubSnapshot(l.subs, room.subs)
    else if l.Visit? then Marks(l.cl, c, room, l.cl.i, 0) && l.cl.k == 0
    else if l.ScanSub? || l.WriteSub? then
      Marks(l.cl, c, room, l.cl.i, 0) && l.cl.k == 0 && l.cl.i < |l.cl.subs| && l.cl.subs[l.cl.i].id in l.cl.delSubs
    else if l.VisitPub? then Marks(l.cl, c, room, |l.cl.subs|, l.cl.k)
    else if l.ScanPub? || l.DropPub? then
      Marks(l.cl, c, room, |l.cl.subs|, l.cl.k) && l.cl.k < |l.cl.pubs| && l.cl.pubs[l.cl.k].id in l.cl.delPubs
    else if l.DelSubs? then Marks(l.cl, c, room, |l.cl.subs|, |l.cl.pubs|)
    else if l.DelPubs? then
      && PubSnapshot(l.cl.pubs, room.pubs)
      && (forall a :: 0 <= a < |l.cl.pubs| && l.cl.pubs[a].client == c.id ==> l.cl.pubs[a].id in l.cl.delPubs)
      && (forall i :: i in room.subs ==> room.subs[i].client != c.id)
    else l.Done? && (l.ok ==> GoneFrom(c.id, room))
  }

  /** Marking more, and going past a position that does not ask for more, keeps the marks. */
  lemma MarksAdvance(cl: Closing, next: Closing, c: Client, room: Room, bridges: map<Id, Bridge>)
    requires Marks(cl, c, room, cl.i, 0) && cl.i < |cl.subs| && next == Advance(cl.(delSubs := next.delSubs))
    requires forall x :: x in cl.delSubs ==> x in next.delSubs
    requires cl.subs[cl.i].id in next.delSubs || !Hit(cl)
    ensures Marks(next, c, room.(bridges := bridges), next.i, 0)
  {
    hide SubSnapshot, PubSnapshot;
  }

  lemma SweepCloses(c: Client, l: Local, s: Shared, t: Local, u: Shared)
    requires Sweeping(l) && SweepStep(l, s, Good, t, u) && ClosingAt(c, l, s.room)
    ensures ClosingAt(c, t, u.room)
  {
    hide NoBridgeFor, SubSnapshot, PubSnapshot;
    if t.Visit? {
      hide Marks;
      MarksAdvance(l.cl, t.cl, c, s.room, u.room.bridges);
    }
  }

  lemma DelSubsCloses(c: Client, l: Local, s: Shared, t: Local, u: Shared)
    requires l.DelSubs? && ClearStep(l, s, Good, t, u) && ClosingAt(c, l, s.room)
    ensures ClosingAt(c, t, u.room)
  {
    hide PubSnapshot;
    forall i | i in u.room.subs ensures u.room.subs[i].client != c.id {
      var a :| 0 <= a < |l.cl.subs| && l.cl.subs[a].id == i;
    }
  }

  lemma DelPubsCloses(c: Client, l: Local, s: Shared, t: Local, u: Shared)
    requires l.DelPubs? && ClearStep(l, s, Good, t, u) && ClosingAt(c, l, s.room)
    ensures ClosingAt(c, t, u.room)
  {
    hide SubSnapshot;
    forall i | i in u.room.pubs ensures u.room.pubs[i].client != c.id {
      var a :| 0 <= a < |l.cl.pubs| && l.cl.pubs[a].id == i;
    }
  }

  lemma OpenCloses(c: Client, l: Local, s: Shared, t: Local, u: Shared)
    requires (l.CloseSubs? || l.ClosePubs?) && ClearStep(l, s, Good, t, u) && ClosingAt(c, l, s.room)
    ensures ClosingAt(c, t, u.room)
  {
    hide SubSnapshot, PubSnapshot;
  }

  lemma ClearCloses(c: Client, l: Local, s: Shared, t: Local, u: Shared)
    requires (l.VisitPub? || l.ScanPub? || l.DropPub?) && ClearStep(l, s, Good, t, u) && ClosingAt(c, l, s.room)
    ensures ClosingAt(c, t, u.room)
  {
    hide NoBridgeFrom, SubSnapshot, PubSnapshot;
  }

  lemma MoveCloses(c: Client, x: Config, y: Config)
    requires GoodMove(x, y) && ClosingAt(c, x.l, x.s.room)
    ensures ClosingAt(c, y.l, y.s.room)
  {
    hide SweepStep, ClearStep;
    assert Sweeping(x.l) || Clearing(x.l);
    hide ClosingAt;
    if Sweeping(x.l) {
      SweepCloses(c, x.l, x.s, y.l, y.s);
    } else if x.l.DelSubs? {
      DelSubsCloses(c, x.l, x.s, y.l, y.s);
    } else if x.l.DelPubs? {
      DelPubsCloses(c, x.l, x.s, y.l, y.s);
    } else if x.l.CloseSubs? || x.l.ClosePubs? {
      OpenCloses(c, x.l, x.s, y.l, y.s);
    } else {
      ClearCloses(c, x.l, x.s, y.l, y.s);
    }
  }

  lemma {:induction false} RunCloses(c: Client, xs: seq<Config>, n: nat)
    requires Run(xs, true) && n < |xs| && xs[0].l == Start(Close(c))
    ensures ClosingAt(c, xs[n].l, xs[n].s.room)
  {
    if n > 0 {
      hide GoodMove, ClosingAt;
      RunCloses(c, xs, n - 1);
      assert GoodMove(xs[n - 1], xs[n - 1 + 1]);
      MoveCloses(c, xs[n - 1], xs[n]);
    }
  }

  /** A close that succeeds leaves no publisher and no subscriber of its client, whatever state earlier lost calls had left the room in. */
  lemma CloseLeavesNothing(c: Client, base: Shared, cur: Shared)
    requires Reaches(Close(c), base, Done(true), cur)
    ensures GoneFrom(c.id, cur.room)
  {
    hide Move, GoodMove;
    var xs :| Whole(xs, Close(c), base, Done(true), cur);
    SuccessIsGood(xs);
    RunCloses(c, xs, |xs| - 1);
  }
}
