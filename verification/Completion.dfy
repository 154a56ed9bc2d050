/** What a finished handler tells about its run. */
module Completion {
  import opened RoomModel
  import opened Counting
  import opened Handlers
  import opened RoomSpec
  import opened FailureSafety
  import opened RoomInvariant

  predicate Failed(l: Local) {
    (l.Done? && !l.ok) || (l.DelPubs? && !l.clean)
  }

  lemma SubscribeLost(l: Local, s: Shared, fate: Fate, t: Local, u: Shared)
    requires Subscribing(l) && SubscribeStep(l, s, fate, t, u) && !Failed(t)
    ensures SubscribeStep(l, s, Good, t, u)
  {
    hide NoBridgeFor;
  }

  lemma SweepLost(l: Local, s: Shared, fate: Fate, t: Local, u: Shared)
    requires Sweeping(l) && SweepStep(l, s, fate, t, u) && !Failed(t)
    ensures SweepStep(l, s, Good, t, u)
  {
    hide NoBridgeFor;
  }

  lemma ClearLost(l: Local, s: Shared, fate: Fate, t: Local, u: Shared)
    requires Clearing(l) && ClearStep(l, s, fate, t, u) && !Failed(t)
    ensures ClearStep(l, s, Good, t, u) && !Failed(l)
  {
    hide NoBridgeFrom, SubSnapshot, PubSnapshot;
  }

  lemma PublisherLost(l: Local, s: Shared, fate: Fate, t: Local, u: Shared)
    requires PublisherStep(l, s, fate, t, u) && !Failed(t)
    ensures PublisherStep(l, s, Good, t, u) && !Failed(l)
  {
  }

  /** A lost call shows in the result. */
  lemma LostFails(l: Local, s: Shared, fate: Fate, t: Local, u: Shared)
    requires Step(l, s, fate, t, u) && !Failed(t)
    ensures Step(l, s, Good, t, u) && !Failed(l)
  {
    hide SubscribeStep, SweepStep, ClearStep, PublisherStep;
    if Subscribing(l) {
      SubscribeLost(l, s, fate, t, u);
    } else if Sweeping(l) {
      SweepLost(l, s, fate, t, u);
    } else if Clearing(l) {
      ClearLost(l, s, fate, t, u);
    } else {
      PublisherLost(l, s, fate, t, u);
    }
  }

  lemma MoveSucceeds(x: Config, y: Config)
    requires Move(x, y) && !Failed(y.l)
    ensures GoodMove(x, y) && !Failed(x.l)
  {
    hide Step;
    var fate :| Step(x.l, x.s, fate, y.l, y.s);
    LostFails(x.l, x.s, fate, y.l, y.s);
  }

  lemma {:induction false} NeverFailed(xs: seq<Config>, n: nat)
    requires Run(xs, false) && n < |xs| && !Failed(xs[|xs| - 1].l)
    ensures !Failed(xs[n].l)
    decreases |xs| - n
  {
    hide Move;
    if n < |xs| - 1 {
      NeverFailed(xs, n + 1);
      MoveSucceeds(xs[n], xs[n + 1]);
    }
  }

  /** A handler that reports success has had every call answered. */
  lemma SuccessIsGood(xs: seq<Config>)
    requires Run(xs, false) && !Failed(xs[|xs| - 1].l)
    ensures Run(xs, true)
  {
    hide Move, GoodMove;
    forall n | 0 <= n < |xs| - 1 ensures GoodMove(xs[n], xs[n + 1]) {
      NeverFailed(xs, n + 1);
      MoveSucceeds(xs[n], xs[n + 1]);
    }
  }

  /** A handler that reports success has computed its specification and left the room settled. */
  lemma SuccessMeetsSpec(home: Id -> Client, h: Handler, base: Shared, cur: Shared)
    requires Begins(home, h, base) && Reaches(h, base, Done(true), cur)
    ensures cur.room == Spec(h, base.room) && Settled(home, cur) && Accepts(h, base.room)
  {
    hide Begins, Move, GoodMove, Settled, Spec;
    var xs :| Whole(xs, h, base, Done(true), cur);
    SuccessIsGood(xs);
    RunComputesSpec(home, h, xs);
  }

  /** However a handler ends, and wherever it is interrupted, the counts are safe. */
  lemma ReachedSafe(h: Handler, base: Shared, l: Local, cur: Shared)
    requires Safe(base.room, {}) && Fresh(h, base.room) && Reaches(h, base, l, cur)
    ensures Safe(cur.room, {})
  {
    hide Move, Safe, Fresh;
    var xs :| Whole(xs, h, base, l, cur);
    RunSafe(h, xs, |xs| - 1);
  }

  /** A handler that loses no call computes its specification, settles the room, and succeeds if and only if it gets past its reads. */
  lemma CalmMeetsSpec(home: Id -> Client, h: Handler, base: Shared, ok: bool, cur: Shared)
    requires Begins(home, h, base) && Ran(true, h, base, Done(ok), cur)
    ensures cur.room == Spec(h, base.room) && Settled(home, cur) && (ok <==> Accepts(h, base.room))
  {
    hide Begins, GoodMove, Settled, Spec;
    var xs :| WholeRun(true, xs, h, base, Done(ok), cur);
    RunComputesSpec(home, h, xs);
  }

  /** A subscribe that loses no call ends not ready only if the stream is there and may not be subscribed to yet. */
  lemma CalmNotReady(home: Id -> Client, h: Handler, base: Shared, cur: Shared)
    requires Begins(home, h, base) && Ran(true, h, base, NotReady, cur)
    ensures cur == base && h.Subscribe? && h.stream in base.room.pubs && !Accepts(h, base.room)
  {
    hide Begins, GoodMove, Settled, Spec;
    var xs :| WholeRun(true, xs, h, base, NotReady, cur);
    RunKeeps(home, h, xs, |xs| - 1);
  }

  /** A subscribe to a published stream that may not be subscribed to yet ends not ready, if it loses no call. */
  lemma CalmRefusal(h: Handler, base: Shared, ok: bool, cur: Shared)
    requires Ran(true, h, base, Done(ok), cur) && h.Subscribe? && h.stream in base.room.pubs
    ensures Accepts(h, base.room)
  {
    var xs :| WholeRun(true, xs, h, base, Done(ok), cur);
    assert GoodMove(xs[0], xs[0 + 1]);
    hide SubscribeStep;
    if !Accepts(h, base.room) {
      NotReadyFirst(h, xs[0], xs[1]);
      if |xs| > 2 { NotReadyStops(xs[1], xs[1 + 1]); }
    }
  }

  lemma NotReadyStops(x: Config, y: Config)
    requires x.l.NotReady?
    ensures !GoodMove(x, y)
  {
  }

  lemma NotReadyFirst(h: Handler, x: Config, y: Config)
    requires GoodMove(x, y) && x.l == SubGet(h) && h.Subscribe? && h.stream in x.s.room.pubs && !Accepts(h, x.s.room)
    ensures y.l == NotReady
  {
  }

  // ----- A close that loses no call succeeds -----

  lemma SweepGoes(l: Local, s: Shared, t: Local, u: Shared)
    requires Sweeping(l) && SweepStep(l, s, Good, t, u)
    ensures Sweeping(t) || t.VisitPub?
  {
    hide NoBridgeFor;
  }

  lemma ClearGoes(l: Local, s: Shared, t: Local, u: Shared)
    requires Clearing(l) && ClearStep(l, s, Good, t, u)
    ensures t.Visit? || Clearing(t) || t.Done?
    ensures (t.DelPubs? ==> t.clean) && (t == Done(false) ==> l.DelPubs? && !l.clean)
  {
    hide NoBridgeFrom, SubSnapshot, PubSnapshot;
  }

  /** An answered step of a close leads on to the close's end. */
  lemma CloseStepGoes(l: Local, s: Shared, t: Local, u: Shared)
    requires (Sweeping(l) || Clearing(l)) && Step(l, s, Good, t, u)
    ensures (Sweeping(t) || Clearing(t) || t.Done?) && (t.DelPubs? ==> t.clean) && (t == Done(false) ==> l.DelPubs? && !l.clean)
  {
    hide SweepStep, ClearStep;
    if Sweeping(l) { SweepGoes(l, s, t, u); } else { ClearGoes(l, s, t, u); }
  }

  lemma {:induction false} CalmCloseGoes(c: Client, xs: seq<Config>, n: nat)
    requires Run(xs, true) && n < |xs| && xs[0].l == Start(Close(c))
    ensures var l := xs[n].l; (Sweeping(l) || Clearing(l) || l == Done(true)) && (l.DelPubs? ==> l.clean)
  {
    if n > 0 {
      hide Step;
      CalmCloseGoes(c, xs, n - 1);
      var x, y := xs[n - 1], xs[n];
      assert GoodMove(x, xs[n - 1 + 1]);
      if x.l.Done? { DoneStops(x, y); }
      CloseStepGoes(x.l, x.s, y.l, y.s);
    }
  }

  lemma DoneStops(x: Config, y: Config)
    requires x.l.Done?
    ensures !GoodMove(x, y)
  {
  }

  /** In any room, settled or not, a close that loses no call succeeds. */
  lemma CalmCloseSucceeds(c: Client, base: Shared, ok: bool, cur: Shared)
    requires Ran(true, Close(c), base, Done(ok), cur)
    ensures ok
  {
    hide GoodMove;
    var xs :| WholeRun(true, xs, Close(c), base, Done(ok), cur);
    CalmCloseGoes(c, xs, |xs| - 1);
  }
}
