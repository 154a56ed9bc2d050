/** What records and commands say, against what the clients asked for: addresses, names, homes and queues. Kept by every step of every
    handler, whatever calls are lost and whoever interleaves. */
module Wiring {
  import opened RoomModel
  import opened Counting
  import opened Handlers
  import opened RoomSpec
  import opened RedisStore
  import History
  import opened Interleaving

  datatype Address = Address(ip: Id, port: int)

  /** The record each client got at its token, the bridge address of each erizo, and the name each stream was published under. */
  datatype Plan = Plan(home: Id -> Client, at: Id -> Address, name: Id -> string)

  predicate ClientOk(plan: Plan, c: Client) {
    plan.home(c.id) == c && plan.at(c.erizo) == Address(c.bridgeIp, c.bridgePort)
  }

  /** A request by a client as it is, through the controller it is connected to. */
  predicate Asks(plan: Plan, h: Handler) {
    match h
    case Publish(c, stream, name) => ClientOk(plan, c) && name == plan.name(stream)
    case Subscribe(c, _, _, _, replyTo) => ClientOk(plan, c) && replyTo == c.replyTo
    case Close(c) => ClientOk(plan, c)
    case Answer(_, _, _) => true
  }

  predicate PubOk(plan: Plan, p: Publisher) {
    var c := plan.home(p.client);
    && p.erizo == c.erizo && p.agent == c.agent && p.name == plan.name(p.id)
    && plan.at(p.erizo) == Address(p.bridgeIp, p.bridgePort)
  }

  predicate SubOk(plan: Plan, s: Subscriber) {
    var c := plan.home(s.client);
    s.erizo == c.erizo && s.agent == c.agent && s.replyTo == c.replyTo
  }

  /** Each end of a bridge has the address of the erizo at that end. */
  predicate BridgeOk(plan: Plan, b: Bridge) {
    && plan.at(b.sender) == Address(b.senderIp, b.senderPort)
    && plan.at(b.recver) == Address(b.recverIp, b.recverPort)
  }

  /** Commands go to the erizo or the controller of the client they are about, and name streams as they were published. */
  predicate CommandOk(plan: Plan, c: Command) {
    match c
    case AddPublisher(q, client, stream, name) => q == plan.home(client).erizo && name == plan.name(stream)
    case RemovePublisher(q, client, _) => q == plan.home(client).erizo
    case AddSubscriber(q, client, stream, name) => q == plan.home(client).erizo && name == plan.name(stream)
    case RemoveSubscriber(q, client, _) => q == plan.home(client).erizo
    case NotifyRemoved(q, client, _) => q == plan.home(client).replyTo
    case _ => true
  }

  ghost predicate RoomOk(plan: Plan, room: Room) {
    && (forall i :: i in room.pubs ==> room.pubs[i].id == i && PubOk(plan, room.pubs[i]))
    && (forall i :: i in room.subs ==> SubOk(plan, room.subs[i]))
    && (forall i :: i in room.bridges ==> BridgeOk(plan, room.bridges[i]))
  }

  ghost predicate LogOk(plan: Plan, log: seq<Command>) {
    forall k :: 0 <= k < |log| ==> CommandOk(plan, log[k])
  }

  ghost predicate Wired(plan: Plan, s: Shared) {
    RoomOk(plan, s.room) && LogOk(plan, s.log)
  }

  // ----- Every step keeps it -----

  ghost predicate ClosingOk(plan: Plan, cl: Closing) {
    && (forall a :: 0 <= a < |cl.subs| ==> SubOk(plan, cl.subs[a]))
    && (forall a :: 0 <= a < |cl.pubs| ==> PubOk(plan, cl.pubs[a]))
  }

  /** The local variables of a handler are as good as the room they were read from. */
  ghost predicate LocalOk(plan: Plan, l: Local) {
    if Subscribing(l) then
      && (l.h.Subscribe? ==> Asks(plan, l.h))
      && (!l.SubGet? && l.h.Subscribe? ==> PubOk(plan, l.p) && l.p.id == l.h.stream)
      && (l.SubBump? ==> BridgeOk(plan, l.b))
    else if Sweeping(l) then ClosingOk(plan, l.cl) && (l.WriteSub? ==> BridgeOk(plan, l.b))
    else if l.ClosePubs? then forall a :: 0 <= a < |l.subs| ==> SubOk(plan, l.subs[a])
    else if l.CloseSubs? then true
    else if Clearing(l) then ClosingOk(plan, l.cl)
    else if l.PubPut? then l.h.Publish? ==> Asks(plan, l.h)
    else l.AnsPut? ==> PubOk(plan, l.p)
  }

  lemma LogMore(plan: Plan, log: seq<Command>, more: seq<Command>)
    requires LogOk(plan, log) && LogOk(plan, more)
    ensures LogOk(plan, log + more)
  {
  }

  lemma NewRecordsOk(plan: Plan, h: Handler, p: Publisher)
    requires Asks(plan, h) && h.Subscribe? && PubOk(plan, p) && p.id == h.stream
    ensures SubOk(plan, NewSubscriber(h, p)) && BridgeOk(plan, NewBridge(h, p)) && LogOk(plan, [Welcome(h, p)])
  {
  }

  lemma ConnectOk(plan: Plan, p: Publisher, b: Bridge)
    ensures LogOk(plan, Connect(p, b))
  {
  }

  lemma DisconnectOk(plan: Plan, b: Bridge)
    ensures LogOk(plan, Disconnect(b))
  {
  }

  lemma FarewellOk(plan: Plan, s: Subscriber)
    requires SubOk(plan, s)
    ensures LogOk(plan, Farewell(s))
  {
  }

  lemma UnpublishOk(plan: Plan, p: Publisher)
    requires PubOk(plan, p)
    ensures LogOk(plan, [RemovePublisher(p.erizo, p.client, p.id)])
  {
  }

  lemma RecountOk(plan: Plan, b: Bridge, count: int)
    requires BridgeOk(plan, b)
    ensures BridgeOk(plan, b.(count := count))
  {
  }

  lemma AnswerOk(plan: Plan, p: Publisher, video: nat, audio: nat)
    requires PubOk(plan, p)
    ensures PubOk(plan, p.(videoSsrc := video, audioSsrc := audio))
  {
  }

  lemma PublishOk(plan: Plan, h: Handler)
    requires Asks(plan, h) && h.Publish?
    ensures var p := NewPublisher(h); PubOk(plan, p) && LogOk(plan, [AddPublisher(p.erizo, p.client, p.id, p.name)])
  {
  }

  /** handleSubscribe up to its last write. */
  lemma SubscribeWired(plan: Plan, l: Local, s: Shared, fate: Fate, t: Local, u: Shared)
    requires Subscribing(l) && SubscribeStep(l, s, fate, t, u) && Wired(plan, s) && LocalOk(plan, l)
    ensures Wired(plan, u) && LocalOk(plan, t)
  {
    hide NoBridgeFor, PubOk, SubOk, BridgeOk, LogOk, Asks, NewSubscriber, NewBridge, Welcome, Connect;
    if !l.SubGet? {
      NewRecordsOk(plan, l.h, l.p);
      LogMore(plan, s.log, [Welcome(l.h, l.p)]);
    }
    if l.SubScan? && t.SubBump? {
      RecountOk(plan, s.room.bridges[t.b.id], t.b.count);
    }
    if l.SubNew? {
      ConnectOk(plan, l.q, NewBridge(l.h, l.p));
      LogMore(plan, s.log, Connect(l.q, NewBridge(l.h, l.p)));
      LogMore(plan, s.log + Connect(l.q, NewBridge(l.h, l.p)), [Welcome(l.h, l.p)]);
    }
  }

  lemma SweepWired(plan: Plan, l: Local, s: Shared, fate: Fate, t: Local, u: Shared)
    requires Sweeping(l) && SweepStep(l, s, fate, t, u) && Wired(plan, s) && LocalOk(plan, l)
    ensures Wired(plan, u) && LocalOk(plan, t)
  {
    hide NoBridgeFor, PubOk, SubOk, BridgeOk, LogOk, Farewell, Disconnect;
    if l.cl.i < |l.cl.subs| {
      FarewellOk(plan, l.cl.subs[l.cl.i]);
      LogMore(plan, s.log, Farewell(l.cl.subs[l.cl.i]));
    }
    if t.WriteSub? {
      RecountOk(plan, s.room.bridges[t.b.id], t.b.count);
      DisconnectOk(plan, t.b);
      LogMore(plan, s.log, Disconnect(t.b));
    }
  }

  lemma ClearWired(plan: Plan, l: Local, s: Shared, fate: Fate, t: Local, u: Shared)
    requires (l.CloseSubs? || l.ClosePubs? || l.VisitPub?) && ClearStep(l, s, fate, t, u) && Wired(plan, s) && LocalOk(plan, l)
    ensures Wired(plan, u) && LocalOk(plan, t)
  {
    hide PubOk, SubOk, BridgeOk, LogOk;
  }

  lemma DeleteWired(plan: Plan, l: Local, s: Shared, fate: Fate, t: Local, u: Shared)
    requires (l.DelSubs? || l.DelPubs?) && ClearStep(l, s, fate, t, u) && Wired(plan, s) && LocalOk(plan, l)
    ensures Wired(plan, u) && LocalOk(plan, t)
  {
    hide PubOk, SubOk, BridgeOk, LogOk;
  }

  lemma UnpublishWired(plan: Plan, l: Local, s: Shared, fate: Fate, t: Local, u: Shared)
    requires (l.ScanPub? || l.DropPub?) && ClearStep(l, s, fate, t, u) && Wired(plan, s) && LocalOk(plan, l)
    ensures Wired(plan, u) && LocalOk(plan, t)
  {
    hide NoBridgeFrom, PubOk, SubOk, BridgeOk, LogOk, Disconnect;
    var p := l.cl.pubs[l.cl.k];
    UnpublishOk(plan, p);
    LogMore(plan, s.log, [RemovePublisher(p.erizo, p.client, p.id)]);
    if t.DropPub? {
      DisconnectOk(plan, t.b);
      LogMore(plan, s.log, Disconnect(t.b));
    }
  }

  lemma PublishWired(plan: Plan, l: Local, s: Shared, fate: Fate, t: Local, u: Shared)
    requires l.PubPut? && PublisherStep(l, s, fate, t, u) && Wired(plan, s) && LocalOk(plan, l)
    ensures Wired(plan, u) && LocalOk(plan, t)
  {
    hide PubOk, SubOk, BridgeOk, LogOk, Asks, NewPublisher;
    PublishOk(plan, l.h);
    var p := NewPublisher(l.h);
    LogMore(plan, s.log, [AddPublisher(p.erizo, p.client, p.id, p.name)]);
  }

  lemma AnswerWired(plan: Plan, l: Local, s: Shared, fate: Fate, t: Local, u: Shared)
    requires !l.PubPut? && PublisherStep(l, s, fate, t, u) && Wired(plan, s) && LocalOk(plan, l)
    ensures Wired(plan, u) && LocalOk(plan, t)
  {
    hide PubOk, SubOk, BridgeOk, LogOk, Asks;
    if t.AnsPut? { AnswerOk(plan, s.room.pubs[l.h.stream], l.h.video, l.h.audio); }
  }

  lemma StepWired(plan: Plan, l: Local, s: Shared, fate: Fate, t: Local, u: Shared)
    requires Step(l, s, fate, t, u) && Wired(plan, s) && LocalOk(plan, l)
    ensures Wired(plan, u) && LocalOk(plan, t)
  {
    hide SubscribeStep, SweepStep, ClearStep, PublisherStep, Wired, LocalOk;
    if Subscribing(l) {
      SubscribeWired(plan, l, s, fate, t, u);
    } else if Sweeping(l) {
      SweepWired(plan, l, s, fate, t, u);
    } else if l.ScanPub? || l.DropPub? {
      UnpublishWired(plan, l, s, fate, t, u);
    } else if l.DelSubs? || l.DelPubs? {
      DeleteWired(plan, l, s, fate, t, u);
    } else if Clearing(l) {
      ClearWired(plan, l, s, fate, t, u);
    } else if l.PubPut? {
      PublishWired(plan, l, s, fate, t, u);
    } else {
      AnswerWired(plan, l, s, fate, t, u);
    }
  }

  lemma MoveWired(plan: Plan, x: Config, y: Config)
    requires Move(x, y) && Wired(plan, x.s) && LocalOk(plan, x.l)
    ensures Wired(plan, y.s) && LocalOk(plan, y.l)
  {
    hide Step, Wired, LocalOk;
    var fate :| Step(x.l, x.s, fate, y.l, y.s);
    StepWired(plan, x.l, x.s, fate, y.l, y.s);
  }

  lemma StartWired(plan: Plan, h: Handler)
    requires Asks(plan, h)
    ensures LocalOk(plan, Start(h))
  {
  }

  lemma {:induction false} RunWired(plan: Plan, xs: seq<Config>, n: nat)
    requires Run(xs, false) && n < |xs| && Wired(plan, xs[0].s) && LocalOk(plan, xs[0].l)
    ensures Wired(plan, xs[n].s) && LocalOk(plan, xs[n].l)
  {
    hide Move, Wired, LocalOk;
    if n > 0 {
      RunWired(plan, xs, n - 1);
      assert Move(xs[n - 1], xs[n - 1 + 1]);
      MoveWired(plan, xs[n - 1], xs[n]);
    }
  }

  /** A handler that is asked for by a client as it is keeps records and commands right, whatever calls it loses. */
  lemma HandlerWired(plan: Plan, h: Handler, base: Shared, l: Local, cur: Shared)
    requires Reaches(h, base, l, cur) && Asks(plan, h) && Wired(plan, base)
    ensures Wired(plan, cur)
  {
    hide Move, Wired, LocalOk, Asks;
    StartWired(plan, h);
    var xs :| Whole(xs, h, base, l, cur);
    RunWired(plan, xs, |xs| - 1);
  }

  // ----- Whole systems -----

  ghost predicate SysWired(plan: Plan, a: Sys) {
    && Wired(plan, a.s)
    && forall i :: 0 <= i < |a.threads| ==>
         Asks(plan, a.threads[i].h) && (a.threads[i].Running? ==> LocalOk(plan, a.threads[i].l))
  }

  lemma NextWired(plan: Plan, a: Sys, b: Sys)
    requires SysWired(plan, a) && Next(a, b, false)
    ensures SysWired(plan, b)
  {
    hide Wired, LocalOk, Asks, Move;
    if a != b {
      var i: nat :| Enter(a, b, i) || Work(a, b, i, false) || Leave(a, b, i);
      if Enter(a, b, i) {
        StartWired(plan, a.threads[i].h);
      } else if Work(a, b, i, false) {
        MoveWired(plan, Config(a.threads[i].l, a.s), Config(b.threads[i].l, b.s));
      }
    }
  }

  /** At every moment of every interleaving, with or without a lock and with any calls lost: records carry the addresses, names and queues of
      the clients they belong to, and commands go where those clients are. */
  lemma {:induction false} AlwaysWired(plan: Plan, xs: seq<Sys>, n: nat)
    requires IsRun(xs, false) && n < |xs| && Wired(plan, xs[0].s)
    requires forall i :: 0 <= i < |xs[0].threads| ==> Asks(plan, xs[0].threads[i].h)
    ensures SysWired(plan, xs[n])
  {
    hide Wired, LocalOk, Next, Asks;
    if n > 0 {
      AlwaysWired(plan, xs, n - 1);
      assert Next(xs[n - 1], xs[n - 1 + 1], false);
      NextWired(plan, xs[n - 1], xs[n]);
    }
  }

  ghost predicate AllWired(plan: Plan, w: World) {
    forall r :: Wired(plan, SharedIn(w, r))
  }

  /** In every history of all rooms and controllers, whatever calls are lost. */
  lemma {:induction false} PathWired(plan: Plan, ws: seq<World>, ds: seq<History.Deed>, n: nat)
    requires History.Path(plan.home, ws, ds) && AllWired(plan, ws[0]) && n < |ws|
    requires forall k :: 0 <= k < |ds| && ds[k].Handled? ==> Asks(plan, ds[k].h)
    ensures AllWired(plan, ws[n])
  {
    hide Wired, Asks, History.Does;
    if n > 0 {
      PathWired(plan, ws, ds, n - 1);
      assert History.Does(plan.home, ws[n - 1], ds[n - 1], ws[n - 1 + 1]);
      DoesWired(plan, ws[n - 1], ds[n - 1], ws[n]);
    }
  }

  lemma DoesWired(plan: Plan, w: World, d: History.Deed, v: World)
    requires AllWired(plan, w) && History.Does(plan.home, w, d, v) && (d.Handled? ==> Asks(plan, d.h))
    ensures AllWired(plan, v)
  {
    hide Wired, Asks, Reaches;
    if d.Handled? {
      HandlerWired(plan, d.h, SharedIn(w, d.r), Done(d.ok), SharedIn(v, d.r));
    }
    forall r ensures Wired(plan, SharedIn(v, r)) { assert Wired(plan, SharedIn(w, r)); }
  }

  // ----- Sessions -----

  /** The two virtual sessions of one bridge: each is told the address of the other's erizo. */
  predicate Meet(plan: Plan, v: VirtualPublisher, u: VirtualSubscriber) {
    && v.bridge == u.bridge && v.src == u.src
    && Address(v.ip, v.port) == plan.at(u.erizo)
    && Address(u.ip, u.port) == plan.at(v.erizo)
  }

  /** In a settled room every virtual publisher has its virtual subscriber at the erizo of the stream, every virtual subscriber has its virtual
      publisher at an erizo with a subscriber, and each connects to the other. */
  lemma SessionsMeet(plan: Plan, s: Shared)
    requires Settled(plan.home, s) && RoomOk(plan, s.room)
    ensures forall v :: v in Replay(s.log).vpubs ==>
      v.src in s.room.pubs && exists u :: u in Replay(s.log).vsubs && Meet(plan, v, u) && u.erizo == s.room.pubs[v.src].erizo
    ensures forall u :: u in Replay(s.log).vsubs ==>
      exists v :: v in Replay(s.log).vpubs && Meet(plan, v, u) && Watched(s.room, v.src, v.erizo)
  {
    hide Replay;
    forall v | v in Replay(s.log).vpubs
      ensures v.src in s.room.pubs && exists u :: u in Replay(s.log).vsubs && Meet(plan, v, u) && u.erizo == s.room.pubs[v.src].erizo
    {
      var i :| i in s.room.bridges && v == VPub(s.room.bridges[i]);
      var u := VSub(s.room.bridges[i]);
      assert BridgeOk(plan, s.room.bridges[i]);
      assert u in Replay(s.log).vsubs && Meet(plan, v, u);
    }
    forall u | u in Replay(s.log).vsubs
      ensures exists v :: v in Replay(s.log).vpubs && Meet(plan, v, u) && Watched(s.room, v.src, v.erizo)
    {
      var i :| i in s.room.bridges && u == VSub(s.room.bridges[i]);
      var v := VPub(s.room.bridges[i]);
      assert BridgeOk(plan, s.room.bridges[i]);
      BridgeWatched(s.room, i);
      assert v in Replay(s.log).vpubs && Meet(plan, v, u);
    }
  }

  /** Some bridged subscriber at the erizo watches the stream. */
  ghost predicate Watched(room: Room, stream: Id, erizo: Id) {
    exists i :: i in room.subs && room.subs[i].isBridge && room.subs[i].subscribeTo == stream && room.subs[i].erizo == erizo
  }

  lemma BridgeWatched(room: Room, b: Id)
    requires Exact(room, {}) && b in room.bridges
    ensures Watched(room, room.bridges[b].src, room.bridges[b].recver)
  {
    ExactIsSafe(room, {});
    var i := SafeBridgeHasUser(room, b);
  }
}
