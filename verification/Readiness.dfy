/** A stream that nobody has answered for cannot be subscribed to. */
module Readiness {
  import opened RoomModel
  import opened Handlers
  import opened RoomSpec
  import opened RoomInvariant
  import opened Interleaving

  /** The stream, if it is there, lacks one of its SSRCs. */
  ghost predicate Unready(room: Room, stream: Id) {
    && (forall i :: i in room.pubs ==> room.pubs[i].id == i)
    && (stream in room.pubs ==> room.pubs[stream].videoSsrc == 0 || room.pubs[stream].audioSsrc == 0)
  }

  ghost predicate Unwelcomed(log: seq<Command>, stream: Id) {
    forall k :: 0 <= k < |log| ==>
      !(log[k].AddSubscriber? && log[k].stream == stream) && !(log[k].AddVirtualPublisher? && log[k].src == stream)
  }

  ghost predicate Quiet(s: Shared, stream: Id) {
    && Unready(s.room, stream) && Unwelcomed(s.log, stream)
    && forall i :: i in s.room.subs ==> s.room.subs[i].subscribeTo != stream
  }

  /** A handler has got no further with the stream than to read it. */
  ghost predicate Waits(l: Local, stream: Id) {
    && (Subscribing(l) && l.h.Subscribe? && l.h.stream == stream ==> l.SubGet?)
    && (l.AnsGet? && l.h.Answer? ==> l.h.stream != stream)
    && (l.AnsPut? ==> l.p.id != stream)
    && (l.PubPut? ==> l.h.Publish?)
  }

  lemma SubscribeWaits(stream: Id, l: Local, s: Shared, fate: Fate, t: Local, u: Shared)
    requires Subscribing(l) && SubscribeStep(l, s, fate, t, u) && Quiet(s, stream) && Waits(l, stream)
    ensures Quiet(u, stream) && Waits(t, stream)
    ensures l.h.stream == stream ==> u == s && (t == NotReady || t == Done(false)) && (fate.Good? && stream in s.room.pubs ==> t == NotReady)
  {
    hide NoBridgeFor;
  }

  lemma SweepWaits(stream: Id, l: Local, s: Shared, fate: Fate, t: Local, u: Shared)
    requires Sweeping(l) && SweepStep(l, s, fate, t, u) && Quiet(s, stream)
    ensures Quiet(u, stream) && Waits(t, stream)
  {
    hide NoBridgeFor;
  }

  lemma ClearWaits(stream: Id, l: Local, s: Shared, fate: Fate, t: Local, u: Shared)
    requires Clearing(l) && ClearStep(l, s, fate, t, u) && Quiet(s, stream)
    ensures Quiet(u, stream) && Waits(t, stream)
  {
    hide NoBridgeFrom, SubSnapshot, PubSnapshot;
  }

  lemma PublisherWaits(stream: Id, l: Local, s: Shared, fate: Fate, t: Local, u: Shared)
    requires PublisherStep(l, s, fate, t, u) && Quiet(s, stream) && Waits(l, stream)
    ensures Quiet(u, stream) && Waits(t, stream)
  {
  }

  lemma MoveWaits(stream: Id, x: Config, y: Config)
    requires Move(x, y) && Quiet(x.s, stream) && Waits(x.l, stream)
    ensures Quiet(y.s, stream) && Waits(y.l, stream)
  {
    hide Step, Quiet, Waits;
    var fate :| Step(x.l, x.s, fate, y.l, y.s);
    StepWaits(stream, x.l, x.s, fate, y.l, y.s);
  }

  lemma StepWaits(stream: Id, l: Local, s: Shared, fate: Fate, t: Local, u: Shared)
    requires Step(l, s, fate, t, u) && Quiet(s, stream) && Waits(l, stream)
    ensures Quiet(u, stream) && Waits(t, stream)
  {
    hide SubscribeStep, SweepStep, ClearStep, PublisherStep, Quiet, Waits;
    if Subscribing(l) {
      SubscribeWaits(stream, l, s, fate, t, u);
    } else if Sweeping(l) {
      SweepWaits(stream, l, s, fate, t, u);
    } else if Clearing(l) {
      ClearWaits(stream, l, s, fate, t, u);
    } else {
      PublisherWaits(stream, l, s, fate, t, u);
    }
  }

  predicate AnswersFor(h: Handler, stream: Id) {
    h.Answer? && h.stream == stream
  }

  lemma StartWaits(stream: Id, h: Handler)
    requires !AnswersFor(h, stream)
    ensures Waits(Start(h), stream)
  {
  }

  lemma {:induction false} RunWaits(stream: Id, h: Handler, xs: seq<Config>, n: nat)
    requires Run(xs, false) && n < |xs| && xs[0].l == Start(h) && Quiet(xs[0].s, stream) && !AnswersFor(h, stream)
    ensures Quiet(xs[n].s, stream) && Waits(xs[n].l, stream)
  {
    hide Move, Quiet, Waits;
    if n == 0 {
      StartWaits(stream, h);
    } else {
      RunWaits(stream, h, xs, n - 1);
      assert Move(xs[n - 1], xs[n - 1 + 1]);
      MoveWaits(stream, xs[n - 1], xs[n]);
    }
  }

  /** A subscribe to a stream that lacks an SSRC changes nothing and does not succeed; with its calls answered and the stream published it ends
      not ready. */
  lemma {:induction false} SubscribeIsRefused(h: Handler, xs: seq<Config>, good: bool, n: nat)
    requires Run(xs, good) && n < |xs| && xs[0].l == Start(h) && h.Subscribe? && Quiet(xs[0].s, h.stream)
    ensures xs[n].s == xs[0].s
    ensures n > 0 ==> xs[n].l == NotReady || xs[n].l == Done(false)
    ensures n > 0 && good && h.stream in xs[0].s.room.pubs ==> xs[n].l == NotReady
  {
    if n > 0 {
      hide Move, GoodMove, Quiet;
      SubscribeIsRefused(h, xs, good, n - 1);
      assert if good then GoodMove(xs[n - 1], xs[n - 1 + 1]) else Move(xs[n - 1], xs[n - 1 + 1]);
      GoesOn(xs[n - 1], xs[n], good);
      RefusedStep(h, xs[n - 1], xs[n], good);
    }
  }

  lemma GoesOn(x: Config, y: Config, good: bool)
    requires if good then GoodMove(x, y) else Move(x, y)
    ensures !Final(x.l) && Move(x, y)
  {
    hide SubscribeStep, SweepStep, ClearStep;
  }

  lemma RefusedStep(h: Handler, x: Config, y: Config, good: bool)
    requires if good then GoodMove(x, y) else Move(x, y)
    requires x.l == SubGet(h) && h.Subscribe? && Quiet(x.s, h.stream)
    ensures y.s == x.s && (y.l == NotReady || y.l == Done(false))
    ensures good && h.stream in x.s.room.pubs ==> y.l == NotReady
  {
    hide Step, Quiet;
    var fate: Fate :| Step(x.l, x.s, fate, y.l, y.s) && (good ==> fate == Good);
    FirstStep(h, x.s, fate, y.l, y.s);
  }

  lemma FirstStep(h: Handler, s: Shared, fate: Fate, t: Local, u: Shared)
    requires h.Subscribe? && Step(SubGet(h), s, fate, t, u) && Quiet(s, h.stream)
    ensures u == s && (t == NotReady || t == Done(false)) && (fate.Good? && h.stream in s.room.pubs ==> t == NotReady)
  {
    SubscribeWaits(h.stream, SubGet(h), s, fate, t, u);
  }

  /** With its calls answered a subscribe succeeds if and only if the stream is published and has both of its SSRCs; it ends not ready if and only if the
      stream is published and lacks one. */
  lemma SubscribeSucceedsIff(home: Id -> Client, h: Handler, xs: seq<Config>)
    requires Run(xs, true) && h.Subscribe? && xs[0].l == Start(h) && Begins(home, h, xs[0].s) && Final(xs[|xs| - 1].l)
    ensures var pubs, l := xs[0].s.room.pubs, xs[|xs| - 1].l;
      && (l == Done(true) <==> h.stream in pubs && pubs[h.stream].videoSsrc != 0 && pubs[h.stream].audioSsrc != 0)
      && (l == NotReady <==> h.stream in pubs && (pubs[h.stream].videoSsrc == 0 || pubs[h.stream].audioSsrc == 0))
  {
    hide Begins, Settled, GoodMove;
    if h.stream in xs[0].s.room.pubs && !Accepts(h, xs[0].s.room) {
      assert GoodMove(xs[0], xs[0 + 1]);
      UnreadyEnds(h, xs[0], xs[1]);
      if |xs| > 2 {
        assert GoodMove(xs[1], xs[1 + 1]);
        GoesOn(xs[1], xs[2], true);
      }
    } else {
      RunKeeps(home, h, xs, |xs| - 1);
      if xs[|xs| - 1].l.Done? { RunComputesSpec(home, h, xs); }
    }
  }

  lemma UnreadyEnds(h: Handler, x: Config, y: Config)
    requires GoodMove(x, y) && x.l == SubGet(h) && h.Subscribe? && h.stream in x.s.room.pubs && !Accepts(h, x.s.room)
    ensures y.l == NotReady
  {
  }

  // ----- Whole systems -----

  ghost predicate SysQuiet(a: Sys, stream: Id) {
    && Quiet(a.s, stream)
    && forall i :: 0 <= i < |a.threads| ==>
         !AnswersFor(a.threads[i].h, stream) && (a.threads[i].Running? ==> Waits(a.threads[i].l, stream))
  }

  lemma NextQuiet(a: Sys, b: Sys, stream: Id)
    requires SysQuiet(a, stream) && Next(a, b, false)
    ensures SysQuiet(b, stream)
  {
    hide Quiet, Waits, Move;
    if a != b {
      var i: nat :| Enter(a, b, i) || Work(a, b, i, false) || Leave(a, b, i);
      if Enter(a, b, i) {
        StartWaits(stream, a.threads[i].h);
      } else if Work(a, b, i, false) {
        MoveWaits(stream, Config(a.threads[i].l, a.s), Config(b.threads[i].l, b.s));
      }
    }
  }

  /** In a run in which nobody answers for a stream, published or not, it never has a subscriber: no record watches it, no command welcomes a
      subscriber to it and none bridges it, at any moment of any interleaving and whatever calls are lost. */
  lemma {:induction false} UnansweredIsUnwatched(xs: seq<Sys>, n: nat, stream: Id)
    requires IsRun(xs, false) && n < |xs| && Quiet(xs[0].s, stream)
    requires forall i :: 0 <= i < |xs[0].threads| ==> !AnswersFor(xs[0].threads[i].h, stream)
    ensures SysQuiet(xs[n], stream)
  {
    hide Quiet, Waits, Next;
    if n > 0 {
      UnansweredIsUnwatched(xs, n - 1, stream);
      assert Next(xs[n - 1], xs[n - 1 + 1], false);
      NextQuiet(xs[n - 1], xs[n], stream);
    }
  }
}
