/** Who is told that a subscription has ended. */
module Notices {
  import opened RoomModel
  import opened Counting
  import opened Handlers
  import opened RoomSpec
  import opened FailureSafety
  import opened Replaying
  import opened RoomInvariant
  import opened Completion

  function NoticeOf(s: Subscriber): Command {
    NotifyRemoved(s.replyTo, s.client, s.subscribeTo)
  }

  ghost function Noticed(log: seq<Command>): set<Command> {
    set c | c in log && c.NotifyRemoved?
  }

  ghost function NoticesOf(subs: map<Id, Subscriber>, ids: set<Id>): set<Command> {
    set i | i in ids && i in subs :: NoticeOf(subs[i])
  }

  /** The subscriptions a close has told about at each of its points. */
  ghost predicate NoticedAt(c: Client, base: Shared, l: Local, s: Shared) {
    if l.CloseSubs? || l.ClosePubs? then s.log == base.log
    else if l.Visit? then Tells(base, s.log, Ids(l.cl.delSubs))
    else if l.ScanSub? || l.WriteSub? then Tells(base, s.log, Ids(Front(l.cl.delSubs)))
    else if l.VisitPub? || l.ScanPub? || l.DropPub? || l.DelSubs? then Tells(base, s.log, Ids(l.cl.delSubs))
    else if l.DelPubs? || l == Done(true) then Tells(base, s.log, DoomedSubs(c, base.room))
    else true
  }

  ghost predicate Tells(base: Shared, log: seq<Command>, ids: set<Id>) {
    base.log <= log && Noticed(log[|base.log|..]) == NoticesOf(base.room.subs, ids)
  }

  lemma TellsOne(base: Shared, log: seq<Command>, ids: set<Id>, sub: Subscriber)
    requires Tells(base, log, ids) && sub.id in base.room.subs && base.room.subs[sub.id] == sub
    ensures Tells(base, log + Farewell(sub), ids + {sub.id})
  {
    var more, old' := Farewell(sub), log[|base.log|..];
    assert (log + more)[|base.log|..] == old' + more && more[1] == NoticeOf(sub);
    assert forall c :: c in old' + more <==> c in old' || c == more[0] || c == more[1];
    assert NoticesOf(base.room.subs, ids + {sub.id}) == NoticesOf(base.room.subs, ids) + {NoticeOf(sub)};
  }

  lemma TellsNone(base: Shared, log: seq<Command>, ids: set<Id>, more: seq<Command>)
    requires Tells(base, log, ids) && forall k :: 0 <= k < |more| ==> !more[k].NotifyRemoved?
    ensures Tells(base, log + more, ids)
  {
    var old' := log[|base.log|..];
    assert (log + more)[|base.log|..] == old' + more;
    assert forall c :: c in old' + more <==> c in old' || c in more;
  }

  lemma VisitTells(home: Id -> Client, c: Client, base: Shared, l: Local, s: Shared, t: Local, u: Shared)
    requires Begins(home, Close(c), base) && l.Visit? && SweepAt(Close(c), base, l, s) && SweepStep(l, s, Good, t, u)
    requires NoticedAt(c, base, l, s)
    ensures NoticedAt(c, base, t, u)
  {
    hide Begins, Exact, Shape, Marked, MediaWithout, Replay, Tells, PubSnapshot;
    var cl := l.cl;
    if cl.i < |cl.subs| {
      var sub := cl.subs[cl.i];
      assert sub.id in base.room.subs && base.room.subs[sub.id] == sub;
      IdsSnoc(cl.delSubs, sub.id);
      TellsOne(base, s.log, Ids(cl.delSubs), sub);
    }
  }

  lemma LowerTells(home: Id -> Client, c: Client, base: Shared, l: Local, s: Shared, t: Local, u: Shared)
    requires Begins(home, Close(c), base) && Sweeping(l) && !l.Visit? && SweepAt(Close(c), base, l, s) && SweepStep(l, s, Good, t, u)
    requires NoticedAt(c, base, l, s)
    ensures NoticedAt(c, base, t, u)
  {
    hide Begins, Exact, Shape, Marked, NoBridgeFor, MediaWithout, Replay, Tells, PubSnapshot;
    var cl := l.cl;
    var sub := cl.subs[cl.i];
    assert sub.id in base.room.subs && base.room.subs[sub.id] == sub;
    IdsFront(cl.delSubs);
    TellsOne(base, s.log, Ids(Front(cl.delSubs)), sub);
    if t.WriteSub? { TellsNone(base, s.log, Ids(Front(cl.delSubs)), Disconnect(t.b)); }
  }

  lemma ClearTells(home: Id -> Client, c: Client, base: Shared, l: Local, s: Shared, t: Local, u: Shared)
    requires Clearing(l) && !l.DropPub? && ClearAt(Close(c), base, l, s) && ClearStep(l, s, Good, t, u)
    requires NoticedAt(c, base, l, s)
    ensures NoticedAt(c, base, t, u)
  {
    hide Exact, Shape, NoBridgeFrom, MediaWithout, Replay, Tells, SubSnapshot, PubSnapshot, DoomedSubs, PubsMarked;
    if t.Visit? {
      NoneTold(base);
    } else if l.ScanPub? {
      var p := l.cl.pubs[l.cl.k];
      TellsNone(base, s.log, Ids(l.cl.delSubs), [RemovePublisher(p.erizo, p.client, p.id)]);
      if t.DropPub? { TellsNone(base, s.log, Ids(l.cl.delSubs), Disconnect(t.b)); }
    }
  }

  lemma NoneTold(base: Shared)
    ensures Ids([]) == {} && Tells(base, base.log, {})
  {
  }

  lemma StepTells(home: Id -> Client, c: Client, base: Shared, l: Local, s: Shared, t: Local, u: Shared)
    requires Begins(home, Close(c), base) && Inv(home, Close(c), base, l, s) && Step(l, s, Good, t, u)
    requires NoticedAt(c, base, l, s) && (Sweeping(l) || Clearing(l))
    ensures NoticedAt(c, base, t, u)
  {
    hide Begins, SweepAt, ClearAt, SweepStep, ClearStep, NoticedAt, SubscribeAt, Settled, Spec, Accepts;
    if l.Visit? {
      VisitTells(home, c, base, l, s, t, u);
    } else if Sweeping(l) {
      LowerTells(home, c, base, l, s, t, u);
    } else {
      ClearTells(home, c, base, l, s, t, u);
    }
  }

  lemma FinalStops(l: Local, s: Shared, t: Local, u: Shared)
    requires l.Done?
    ensures !Step(l, s, Good, t, u)
  {
  }

  lemma MoveTells(home: Id -> Client, c: Client, base: Shared, x: Config, y: Config)
    requires Begins(home, Close(c), base) && Inv(home, Close(c), base, x.l, x.s) && GoodMove(x, y)
    requires NoticedAt(c, base, x.l, x.s) && (Sweeping(x.l) || Clearing(x.l) || x.l.Done?)
    ensures NoticedAt(c, base, y.l, y.s) && (Sweeping(y.l) || Clearing(y.l) || y.l.Done?)
  {
    hide Begins, Step, NoticedAt, Inv;
    if x.l.Done? { FinalStops(x.l, x.s, y.l, y.s); }
    StepTells(home, c, base, x.l, x.s, y.l, y.s);
    CloseStepGoes(x.l, x.s, y.l, y.s);
  }

  lemma StartTells(c: Client, base: Shared)
    ensures NoticedAt(c, base, Start(Close(c)), base)
  {
  }

  lemma {:induction false} RunTells(home: Id -> Client, c: Client, xs: seq<Config>, n: nat)
    requires Run(xs, true) && n < |xs| && xs[0].l == Start(Close(c)) && Begins(home, Close(c), xs[0].s)
    ensures NoticedAt(c, xs[0].s, xs[n].l, xs[n].s) && (Sweeping(xs[n].l) || Clearing(xs[n].l) || xs[n].l.Done?)
  {
    hide Begins, GoodMove, NoticedAt, Inv;
    if n == 0 {
      StartTells(c, xs[0].s);
    } else {
      RunTells(home, c, xs, n - 1);
      RunKeeps(home, Close(c), xs, n - 1);
      assert GoodMove(xs[n - 1], xs[n - 1 + 1]);
      MoveTells(home, c, xs[0].s, xs[n - 1], xs[n]);
    }
  }

  /** A successful close tells the controller of every subscription that ends, about that client and that stream, and tells of no other. */
  lemma CloseTellsEveryone(home: Id -> Client, c: Client, base: Shared, cur: Shared)
    requires Begins(home, Close(c), base) && Reaches(Close(c), base, Done(true), cur)
    ensures base.log <= cur.log
    ensures forall i :: i in base.room.subs && Doomed(c, base.room.pubs, base.room.subs[i]) ==>
      NoticeOf(base.room.subs[i]) in cur.log[|base.log|..]
    ensures forall n :: n in cur.log[|base.log|..] && n.NotifyRemoved? ==>
      exists i :: i in base.room.subs && Doomed(c, base.room.pubs, base.room.subs[i]) && n == NoticeOf(base.room.subs[i])
  {
    hide Begins, Move, GoodMove, NoticeOf;
    var xs :| Whole(xs, Close(c), base, Done(true), cur);
    SuccessIsGood(xs);
    RunTells(home, c, xs, |xs| - 1);
    var more, told := cur.log[|base.log|..], NoticesOf(base.room.subs, DoomedSubs(c, base.room));
    assert Noticed(more) == told;
    forall i | i in base.room.subs && Doomed(c, base.room.pubs, base.room.subs[i]) ensures NoticeOf(base.room.subs[i]) in more {
      assert NoticeOf(base.room.subs[i]) in told;
    }
    forall n | n in more && n.NotifyRemoved?
      ensures exists i :: i in base.room.subs && Doomed(c, base.room.pubs, base.room.subs[i]) && n == NoticeOf(base.room.subs[i])
    {
      assert n in Noticed(more);
    }
  }
}
