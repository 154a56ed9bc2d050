/** The SSRCs that receiving erizos are told. A virtual publisher is told those its stream has when the bridge is built; they stay right
    until the stream is answered again with others. */
module Tuning {
  import opened RoomModel
  import opened Counting
  import opened Handlers
  import opened RoomSpec
  import opened RoomInvariant
  import opened Completion
  import opened RedisStore
  import opened History

  /** What an erizo has been told about a stream. */
  datatype Tuned = Tuned(erizo: Id, src: Id, video: nat, audio: nat)

  ghost function Retune(ts: set<Tuned>, c: Command): set<Tuned> {
    if c.AddVirtualPublisher? then ts + {Tuned(c.queue, c.src, c.videoSsrc, c.audioSsrc)}
    else if c.RemoveVirtualPublisher? then set t | t in ts && !(t.erizo == c.queue && t.src == c.src)
    else ts
  }

  ghost function Tunings(log: seq<Command>): set<Tuned> {
    if log == [] then {} else Retune(Tunings(log[..|log| - 1]), log[|log| - 1])
  }

  predicate Fits(t: Tuned, pubs: map<Id, Publisher>) {
    t.src in pubs && t.video == pubs[t.src].videoSsrc && t.audio == pubs[t.src].audioSsrc
  }

  ghost predicate AllFit(ts: set<Tuned>, pubs: map<Id, Publisher>) {
    forall t :: t in ts ==> Fits(t, pubs)
  }

  /** The receiving erizo of every bridge knows the SSRCs of the stream, and no erizo knows others. */
  ghost predicate InTune(s: Shared) {
    && AllFit(Tunings(s.log), s.room.pubs)
    && forall i :: i in s.room.bridges ==>
         var b := s.room.bridges[i];
         b.src in s.room.pubs &&
         Tuned(b.recver, b.src, s.room.pubs[b.src].videoSsrc, s.room.pubs[b.src].audioSsrc) in Tunings(s.log)
  }

  // ----- Tunings and virtual publishers -----

  lemma TuningsSnoc(log: seq<Command>, c: Command)
    ensures Tunings(log + [c]) == Retune(Tunings(log), c)
  {
    assert (log + [c])[..|log|] == log;
  }

  /** An erizo has been told about a stream exactly while it has a virtual publisher of it. */
  lemma {:induction false} TunedIffPublishing(log: seq<Command>, erizo: Id, src: Id)
    ensures Knows(Tunings(log), erizo, src) <==> Publishes(Replay(log).vpubs, erizo, src)
  {
    if log != [] {
      var before, c := log[..|log| - 1], log[|log| - 1];
      TunedIffPublishing(before, erizo, src);
      if c.AddVirtualPublisher? {
        KnowsMore(Tunings(before), Tuned(c.queue, c.src, c.videoSsrc, c.audioSsrc), erizo, src);
        PublishesMore(Replay(before).vpubs, VirtualPublisher(c.queue, c.src, c.bridge, c.ip, c.port), erizo, src);
      } else if c.RemoveVirtualPublisher? {
        assert Knows(Tunings(log), erizo, src) <==> Knows(Tunings(before), erizo, src) && !(erizo == c.queue && src == c.src);
        assert Publishes(Replay(log).vpubs, erizo, src) <==>
          Publishes(Replay(before).vpubs, erizo, src) && !(erizo == c.queue && src == c.src);
      }
    }
  }

  ghost predicate Knows(ts: set<Tuned>, erizo: Id, src: Id) {
    exists t :: t in ts && t.erizo == erizo && t.src == src
  }

  ghost predicate Publishes(vs: set<VirtualPublisher>, erizo: Id, src: Id) {
    exists v :: v in vs && v.erizo == erizo && v.src == src
  }

  lemma KnowsMore(ts: set<Tuned>, t: Tuned, erizo: Id, src: Id)
    ensures Knows(ts + {t}, erizo, src) <==> Knows(ts, erizo, src) || (t.erizo == erizo && t.src == src)
  {
    if Knows(ts, erizo, src) {
      var u :| u in ts && u.erizo == erizo && u.src == src;
      assert u in ts + {t};
    }
    assert t in ts + {t};
  }

  lemma PublishesMore(vs: set<VirtualPublisher>, v: VirtualPublisher, erizo: Id, src: Id)
    ensures Publishes(vs + {v}, erizo, src) <==> Publishes(vs, erizo, src) || (v.erizo == erizo && v.src == src)
  {
    if Publishes(vs, erizo, src) {
      var u :| u in vs && u.erizo == erizo && u.src == src;
      assert u in vs + {v};
    }
    assert v in vs + {v};
  }

  // ----- Handlers -----

  /** What holds at each point of a run: the tunings fit the publishers the handler found, and a subscribe has read its publisher from them. */
  ghost predicate TunedAt(base: Shared, l: Local, s: Shared) {
    && AllFit(Tunings(s.log), base.room.pubs)
    && (Subscribing(l) ==> s.room.pubs == base.room.pubs)
    && (l.SubNew? && l.h.Subscribe? ==> l.h.stream in base.room.pubs && l.q == base.room.pubs[l.h.stream])
  }

  lemma FitMore(log: seq<Command>, c: Command, pubs: map<Id, Publisher>)
    requires AllFit(Tunings(log), pubs)
    requires c.AddVirtualPublisher? ==> Fits(Tuned(c.queue, c.src, c.videoSsrc, c.audioSsrc), pubs)
    ensures AllFit(Tunings(log + [c]), pubs)
  {
    TuningsSnoc(log, c);
  }

  lemma FitTwo(log: seq<Command>, c: Command, d: Command, pubs: map<Id, Publisher>)
    requires AllFit(Tunings(log), pubs) && !d.AddVirtualPublisher?
    requires c.AddVirtualPublisher? ==> Fits(Tuned(c.queue, c.src, c.videoSsrc, c.audioSsrc), pubs)
    ensures AllFit(Tunings(log + [c, d]), pubs)
  {
    hide AllFit, Tunings;
    FitMore(log, c, pubs);
    FitMore(log + [c], d, pubs);
    assert log + [c, d] == (log + [c]) + [d];
  }

  lemma SubscribeTunes(base: Shared, l: Local, s: Shared, t: Local, u: Shared)
    requires Subscribing(l) && SubscribeStep(l, s, Good, t, u) && TunedAt(base, l, s)
    ensures TunedAt(base, t, u)
  {
    hide NoBridgeFor, AllFit, Tunings;
    if l.SubPut? || l.SubBump? {
      FitMore(s.log, Welcome(l.h, l.p), base.room.pubs);
    } else if l.SubNew? {
      var cs := Connect(l.q, NewBridge(l.h, l.p));
      FitTwo(s.log, cs[0], cs[1], base.room.pubs);
      assert [cs[0], cs[1]] == cs;
      FitMore(s.log + cs, Welcome(l.h, l.p), base.room.pubs);
    }
  }

  lemma SweepTunes(base: Shared, l: Local, s: Shared, t: Local, u: Shared)
    requires Sweeping(l) && SweepStep(l, s, Good, t, u) && TunedAt(base, l, s)
    ensures TunedAt(base, t, u)
  {
    hide NoBridgeFor, AllFit, Tunings;
    if l.cl.i < |l.cl.subs| {
      var cs := Farewell(l.cl.subs[l.cl.i]);
      FitTwo(s.log, cs[0], cs[1], base.room.pubs);
      assert [cs[0], cs[1]] == cs;
    }
    if t.WriteSub? {
      var cs := Disconnect(t.b);
      FitTwo(s.log, cs[0], cs[1], base.room.pubs);
      assert [cs[0], cs[1]] == cs;
    }
  }

  lemma ClearTunes(base: Shared, l: Local, s: Shared, t: Local, u: Shared)
    requires Clearing(l) && ClearStep(l, s, Good, t, u) && TunedAt(base, l, s)
    ensures TunedAt(base, t, u)
  {
    hide NoBridgeFrom, SubSnapshot, PubSnapshot, AllFit, Tunings;
    if (l.ScanPub? || l.DropPub?) && l.cl.k < |l.cl.pubs| {
      var p := l.cl.pubs[l.cl.k];
      FitMore(s.log, RemovePublisher(p.erizo, p.client, p.id), base.room.pubs);
      if t.DropPub? {
        var cs := Disconnect(t.b);
        FitTwo(s.log, cs[0], cs[1], base.room.pubs);
        assert [cs[0], cs[1]] == cs;
      }
    }
  }

  lemma PublisherTunes(base: Shared, l: Local, s: Shared, t: Local, u: Shared)
    requires PublisherStep(l, s, Good, t, u) && TunedAt(base, l, s)
    ensures TunedAt(base, t, u)
  {
    hide AllFit, Tunings;
    if l.PubPut? {
      var p := NewPublisher(l.h);
      FitMore(s.log, AddPublisher(p.erizo, p.client, p.id, p.name), base.room.pubs);
    }
  }

  lemma MoveTunes(base: Shared, x: Config, y: Config)
    requires GoodMove(x, y) && TunedAt(base, x.l, x.s)
    ensures TunedAt(base, y.l, y.s)
  {
    hide SubscribeStep, SweepStep, ClearStep, PublisherStep, TunedAt;
    if Subscribing(x.l) {
      SubscribeTunes(base, x.l, x.s, y.l, y.s);
    } else if Sweeping(x.l) {
      SweepTunes(base, x.l, x.s, y.l, y.s);
    } else if Clearing(x.l) {
      ClearTunes(base, x.l, x.s, y.l, y.s);
    } else {
      PublisherTunes(base, x.l, x.s, y.l, y.s);
    }
  }

  lemma {:induction false} RunTunes(h: Handler, xs: seq<Config>, n: nat)
    requires Run(xs, true) && n < |xs| && xs[0].l == Start(h) && AllFit(Tunings(xs[0].s.log), xs[0].s.room.pubs)
    ensures TunedAt(xs[0].s, xs[n].l, xs[n].s)
  {
    if n > 0 {
      hide GoodMove, TunedAt;
      RunTunes(h, xs, n - 1);
      assert GoodMove(xs[n - 1], xs[n - 1 + 1]);
      MoveTunes(xs[0].s, xs[n - 1], xs[n]);
    }
  }

  /** A settled room has a tuning for every bridge and a bridge for every tuning. */
  lemma SettledTunings(home: Id -> Client, s: Shared, erizo: Id, src: Id)
    requires Settled(home, s)
    ensures Knows(Tunings(s.log), erizo, src) <==>
      exists i :: i in s.room.bridges && s.room.bridges[i].recver == erizo && s.room.bridges[i].src == src
  {
    TunedIffPublishing(s.log, erizo, src);
    hide Tunings, Replay, Wired, Exact;
    var vs := Replay(s.log).vpubs;
    assert vs == VPubs(s.room.bridges);
    if Publishes(vs, erizo, src) {
      var v :| v in vs && v.erizo == erizo && v.src == src;
      var i :| i in s.room.bridges && VPub(s.room.bridges[i]) == v;
    }
    forall i | i in s.room.bridges && s.room.bridges[i].recver == erizo && s.room.bridges[i].src == src
      ensures Publishes(vs, erizo, src)
    {
      assert VPub(s.room.bridges[i]) in vs;
    }
  }

  /** In a settled room whose tunings fit, every bridge is in tune. */
  lemma FitIsInTune(home: Id -> Client, s: Shared)
    requires Settled(home, s) && AllFit(Tunings(s.log), s.room.pubs)
    ensures InTune(s)
  {
    hide Tunings, Replay, Exact;
    forall i | i in s.room.bridges
      ensures var b := s.room.bridges[i];
        b.src in s.room.pubs && Tuned(b.recver, b.src, s.room.pubs[b.src].videoSsrc, s.room.pubs[b.src].audioSsrc) in Tunings(s.log)
    {
      var b := s.room.bridges[i];
      SettledTunings(home, s, b.recver, b.src);
      var t :| t in Tunings(s.log) && t.erizo == b.recver && t.src == b.src;
      assert Fits(t, s.room.pubs);
      assert t == Tuned(b.recver, b.src, s.room.pubs[b.src].videoSsrc, s.room.pubs[b.src].audioSsrc);
    }
  }

  /** Whether an answer changes the SSRCs of a stream that is already bridged. */
  ghost predicate Detunes(h: Handler, room: Room) {
    && h.Answer? && h.stream in room.pubs
    && (room.pubs[h.stream].videoSsrc != h.video || room.pubs[h.stream].audioSsrc != h.audio)
    && exists i :: i in room.bridges && room.bridges[i].src == h.stream
  }

  /** A successful handler keeps a room in tune if and only if it is not an answer that gives a bridged stream other SSRCs. */
  lemma StaysInTuneIff(home: Id -> Client, h: Handler, base: Shared, cur: Shared)
    requires Begins(home, h, base) && InTune(base) && Reaches(h, base, Done(true), cur)
    ensures InTune(cur) <==> !Detunes(h, base.room)
  {
    hide Move, GoodMove;
    var xs :| Whole(xs, h, base, Done(true), cur);
    SuccessIsGood(xs);
    RunTunes(h, xs, |xs| - 1);
    SuccessMeetsSpec(home, h, base, cur) by { assert Reaches(h, base, Done(true), cur); }
    TuneAfter(home, h, base, cur);
  }

  lemma TuneAfter(home: Id -> Client, h: Handler, base: Shared, cur: Shared)
    requires Settled(home, base) && Settled(home, cur) && InTune(base) && AllFit(Tunings(cur.log), base.room.pubs)
    requires cur.room == Spec(h, base.room) && Accepts(h, base.room) && (h.Publish? ==> h.stream !in base.room.pubs)
    ensures InTune(cur) <==> !Detunes(h, base.room)
  {
    if Detunes(h, base.room) {
      var i :| i in base.room.bridges && base.room.bridges[i].src == h.stream;
      var b := base.room.bridges[i];
      assert cur.room.bridges == base.room.bridges;
      SettledTunings(home, cur, b.recver, b.src);
      var t :| t in Tunings(cur.log) && t.erizo == b.recver && t.src == b.src;
      assert Fits(t, base.room.pubs) && !Fits(t, cur.room.pubs);
    } else {
      forall t | t in Tunings(cur.log) ensures Fits(t, cur.room.pubs) { TuningFits(home, h, base, cur, t); }
      FitIsInTune(home, cur);
    }
  }

  lemma TuningFits(home: Id -> Client, h: Handler, base: Shared, cur: Shared, t: Tuned)
    requires Settled(home, cur) && cur.room == Spec(h, base.room) && Accepts(h, base.room)
    requires h.Publish? ==> h.stream !in base.room.pubs
    requires t in Tunings(cur.log) && Fits(t, base.room.pubs) && !Detunes(h, base.room)
    ensures Fits(t, cur.room.pubs)
  {
    hide Tunings, Replay, Exact;
    SettledTunings(home, cur, t.erizo, t.src);
    var i :| i in cur.room.bridges && cur.room.bridges[i].recver == t.erizo && cur.room.bridges[i].src == t.src;
    assert t.src in cur.room.pubs;
    if h.Answer? {
      assert i in base.room.bridges && base.room.bridges[i].src == t.src;
    }
  }

  // ----- Histories -----

  ghost predicate AllInTune(w: World) {
    forall r :: InTune(SharedIn(w, r))
  }

  ghost predicate Retunes(w: World, d: Deed) {
    d.Handled? && Detunes(d.h, SharedIn(w, d.r).room)
  }

  /** In a history of successful handlers all bridges of all rooms stay in tune as long as no bridged stream is answered again with other SSRCs. */
  lemma {:induction false} PathInTune(home: Id -> Client, ws: seq<World>, ds: seq<Deed>, n: nat)
    requires Path(home, ws, ds) && AllFine(home, ws[0]) && Succeed(ds) && AllInTune(ws[0]) && n < |ws|
    requires forall k :: 0 <= k < |ds| ==> !Retunes(ws[k], ds[k])
    ensures AllInTune(ws[n])
  {
    hide Does, AllFine, AllInTune, Retunes;
    if n > 0 {
      PathInTune(home, ws, ds, n - 1);
      PathFine(home, ws, ds, n - 1);
      assert Does(home, ws[n - 1], ds[n - 1], ws[n - 1 + 1]);
      DoesInTune(home, ws[n - 1], ds[n - 1], ws[n]);
    }
  }

  lemma DoesInTune(home: Id -> Client, w: World, d: Deed, v: World)
    requires AllFine(home, w) && Does(home, w, d, v) && Succeeds(d) && AllInTune(w) && !Retunes(w, d)
    ensures AllInTune(v)
  {
    hide InTune, Reaches, Detunes, Settled, Known;
    if d.Handled? {
      assert RoomFine(home, d.r, SharedIn(w, d.r));
      StaysInTuneIff(home, d.h, SharedIn(w, d.r), SharedIn(v, d.r));
    }
    forall r ensures InTune(SharedIn(v, r)) { assert InTune(SharedIn(w, r)); }
  }
}
