/** The part of every room handler that runs while it holds the room's lock, as a program that makes at most one
    Redis call per step. A call can be answered, or it can be lost: reported as failed, with its write taken or not. */
module Handlers {
  import opened RoomModel

  /** A request as it enters the locked section. Stream, subscriber and bridge ids are drawn by the handler. */
  datatype Handler =
    | Publish(c: Client, stream: Id, name: string)
    | Answer(stream: Id, video: nat, audio: nat)
    | Subscribe(c: Client, stream: Id, sid: Id, bid: Id, replyTo: Id)
    | Close(c: Client)

  function NewPublisher(h: Handler): Publisher
    requires h.Publish?
  {
    Publisher(h.stream, h.c.id, h.c.erizo, h.c.bridgeIp, h.c.bridgePort, h.c.agent, h.name, 0, 0)
  }

  function NewSubscriber(h: Handler, p: Publisher): Subscriber
    requires h.Subscribe?
  {
    Subscriber(h.sid, h.c.id, h.c.erizo, h.c.agent, h.stream, h.replyTo, h.c.agent != p.agent)
  }

  function NewBridge(h: Handler, p: Publisher): Bridge
    requires h.Subscribe?
  {
    Bridge(h.bid, p.erizo, p.bridgeIp, p.bridgePort, h.c.erizo, h.c.bridgeIp, h.c.bridgePort, h.stream, 1)
  }

  // ----- Commands -----

  function Welcome(h: Handler, p: Publisher): Command
    requires h.Subscribe?
  {
    AddSubscriber(h.c.erizo, h.c.id, h.stream, p.name)
  }

  function Farewell(s: Subscriber): seq<Command> {
    [RemoveSubscriber(s.erizo, s.client, s.subscribeTo), NotifyRemoved(s.replyTo, s.client, s.subscribeTo)]
  }

  function Connect(p: Publisher, b: Bridge): seq<Command> {
    [AddVirtualPublisher(b.recver, b.id, b.src, b.senderIp, b.senderPort, p.videoSsrc, p.audioSsrc),
     AddVirtualSubscriber(b.sender, b.id, b.src, b.recverIp, b.recverPort)]
  }

  function Disconnect(b: Bridge): seq<Command> {
    [RemoveVirtualSubscriber(b.sender, b.id, b.src), RemoveVirtualPublisher(b.recver, b.src)]
  }

  // ----- Programs -----

  /** The local variables of removeClient: its two snapshots, the positions of its loops and its delete lists.
      j == |pubs| is the test after the inner loop. */
  datatype Closing = Closing(
    c: Client, subs: seq<Subscriber>, pubs: seq<Publisher>,
    i: nat, j: nat, k: nat, delSubs: seq<Id>, delPubs: seq<Id>)

  datatype Local =
    | PubPut(h: Handler)
    | AnsGet(h: Handler)
    | AnsPut(p: Publisher)
    | SubGet(h: Handler)
    | SubPut(h: Handler, p: Publisher)
    | SubScan(h: Handler, p: Publisher)
    | SubBump(h: Handler, p: Publisher, b: Bridge)
    | SubGetAgain(h: Handler, p: Publisher)
    | SubNew(h: Handler, p: Publisher, q: Publisher)
    | CloseSubs(c: Client)
    | ClosePubs(c: Client, subs: seq<Subscriber>)
    | Visit(cl: Closing)
    | ScanSub(cl: Closing)
    | WriteSub(cl: Closing, b: Bridge)
    | VisitPub(cl: Closing)
    | ScanPub(cl: Closing)
    | DropPub(cl: Closing, b: Bridge)
    | DelSubs(cl: Closing)
    | DelPubs(cl: Closing, clean: bool)
    | Done(ok: bool)
    | NotReady

  predicate Final(l: Local) {
    l.Done? || l.NotReady?
  }

  function Start(h: Handler): Local {
    match h
    case Publish(_, _, _) => PubPut(h)
    case Answer(_, _, _) => AnsGet(h)
    case Subscribe(_, _, _, _, _) => SubGet(h)
    case Close(c) => CloseSubs(c)
  }

  /** What the lock protects, and the commands sent so far. */
  datatype Shared = Shared(room: Room, log: seq<Command>)

  datatype Fate = Good | Lost(taken: bool)

  function Written(s: Shared, room: Room, fate: Fate): Room {
    if fate.Good? || fate.taken then room else s.room
  }

  ghost predicate SubSnapshot(xs: seq<Subscriber>, m: map<Id, Subscriber>) {
    && (forall a :: 0 <= a < |xs| ==> xs[a].id in m && m[xs[a].id] == xs[a])
    && (forall i :: i in m ==> exists a :: 0 <= a < |xs| && xs[a].id == i)
    && (forall a, b :: 0 <= a < b < |xs| ==> xs[a].id != xs[b].id)
  }

  ghost predicate PubSnapshot(xs: seq<Publisher>, m: map<Id, Publisher>) {
    && (forall a :: 0 <= a < |xs| ==> xs[a].id in m && m[xs[a].id] == xs[a])
    && (forall i :: i in m ==> exists a :: 0 <= a < |xs| && xs[a].id == i)
    && (forall a, b :: 0 <= a < b < |xs| ==> xs[a].id != xs[b].id)
  }

  /** The room after removeBridgeStreamSub has stored a lowered bridge, or removed one whose count ran out. */
  function Lowered(room: Room, b: Bridge): Room {
    if b.count <= 0 then room.(bridges := room.bridges - {b.id}) else room.(bridges := room.bridges[b.id := b])
  }

  ghost predicate NoBridgeFor(bridges: map<Id, Bridge>, k: Key) {
    forall i :: i in bridges ==> BridgeKey(bridges[i]) != k
  }

  ghost predicate NoBridgeFrom(bridges: map<Id, Bridge>, stream: Id, sender: Id) {
    forall i :: i in bridges ==> !(bridges[i].src == stream && bridges[i].sender == sender)
  }

  function Drop<T>(m: map<Id, T>, ids: seq<Id>): map<Id, T> {
    m - (set x | x in ids)
  }

  /** The next position of the nested loop. */
  function Advance(cl: Closing): Closing {
    if cl.j < |cl.pubs| then cl.(j := cl.j + 1) else cl.(i := cl.i + 1, j := 0)
  }

  /** Whether the current position deletes the current subscriber: it watches a stream of the client, or it is the client's own. */
  predicate Hit(cl: Closing)
    requires cl.i < |cl.subs|
  {
    var s := cl.subs[cl.i];
    if cl.j < |cl.pubs| then cl.pubs[cl.j].client == cl.c.id && s.subscribeTo == cl.pubs[cl.j].id
    else s.client == cl.c.id
  }

  predicate Subscribing(l: Local) {
    l.SubGet? || l.SubPut? || l.SubScan? || l.SubBump? || l.SubGetAgain? || l.SubNew?
  }

  predicate Sweeping(l: Local) {
    l.Visit? || l.ScanSub? || l.WriteSub?
  }

  predicate Clearing(l: Local) {
    l.CloseSubs? || l.ClosePubs? || l.VisitPub? || l.ScanPub? || l.DropPub? || l.DelSubs? || l.DelPubs?
  }

  /** handleSubscribe. */
  ghost predicate SubscribeStep(l: Local, s: Shared, fate: Fate, t: Local, u: Shared)
    requires Subscribing(l)
  {
    l.h.Subscribe? &&
    match l
    case SubGet(h) =>
      u == s &&
      if fate.Good? && h.stream in s.room.pubs then
        var p := s.room.pubs[h.stream];
        t == if Answered(p) then SubPut(h, p) else NotReady
      else t == Done(false)
    case SubPut(h, p) =>
      var sub := NewSubscriber(h, p);
      u.room == Written(s, s.room.(subs := s.room.subs[sub.id := sub]), fate) &&
      if fate.Lost? then t == Done(false) && u.log == s.log
      else if sub.isBridge then t == SubScan(h, p) && u.log == s.log
      else t == Done(true) && u.log == s.log + [Welcome(h, p)]
    case SubScan(h, p) =>
      var k := Key(h.stream, h.c.erizo);
      u == s &&
      if fate.Lost? then t == Done(false)
      else
        || (t == SubGetAgain(h, p) && NoBridgeFor(s.room.bridges, k))
        || (t.SubBump? && t.h == h && t.p == p && t.b.id in s.room.bridges && BridgeKey(t.b) == k &&
            t.b == s.room.bridges[t.b.id].(count := s.room.bridges[t.b.id].count + 1))
    case SubBump(h, p, b) =>
      u.room == Written(s, s.room.(bridges := s.room.bridges[b.id := b]), fate) &&
      if fate.Lost? then t == Done(false) && u.log == s.log
      else t == Done(true) && u.log == s.log + [Welcome(h, p)]
    case SubGetAgain(h, p) =>
      u == s &&
      if fate.Good? && h.stream in s.room.pubs then t == SubNew(h, p, s.room.pubs[h.stream]) else t == Done(false)
    case SubNew(h, p, q) =>
      var b := NewBridge(h, p);
      u.room == Written(s, s.room.(bridges := s.room.bridges[b.id := b]), fate) &&
      if fate.Lost? then t == Done(false) && u.log == s.log
      else t == Done(true) && u.log == (s.log + Connect(q, b)) + [Welcome(h, p)]
  }

  /** The nested loop of removeClient over subscribers and publishers, with removeBridgeStreamSub inside. */
  ghost predicate SweepStep(l: Local, s: Shared, fate: Fate, t: Local, u: Shared)
    requires Sweeping(l)
  {
    match l
    case Visit(cl) =>
      if |cl.subs| <= cl.i then t == VisitPub(cl) && u == s
      else
        var sub := cl.subs[cl.i];
        var marked := cl.(delSubs := cl.delSubs + [sub.id]);
        if !Hit(cl) then t == Visit(Advance(cl)) && u == s
        else if sub.isBridge then t == ScanSub(marked) && u == s
        else t == Visit(Advance(marked)) && u == s.(log := s.log + Farewell(sub))
    case ScanSub(cl) =>
      cl.i < |cl.subs| && u.room == s.room &&
      var sub := cl.subs[cl.i];
      if fate.Lost? then t == Done(false) && u == s
      else
        || (t == Visit(Advance(cl)) && NoBridgeFor(s.room.bridges, SubKey(sub)) && u.log == s.log + Farewell(sub))
        || (t.WriteSub? && t.cl == cl && t.b.id in s.room.bridges && BridgeKey(t.b) == SubKey(sub) &&
            t.b == s.room.bridges[t.b.id].(count := s.room.bridges[t.b.id].count - 1) &&
            u.log == if t.b.count <= 0 then s.log + Disconnect(t.b) else s.log)
    case WriteSub(cl, b) =>
      cl.i < |cl.subs| &&
      u.room == Written(s, Lowered(s.room, b), fate) &&
      if fate.Lost? then t == Done(false) && u.log == s.log
      else t == Visit(Advance(cl)) && u.log == s.log + Farewell(cl.subs[cl.i])
  }

  /** The rest of removeClient: its snapshots, its loop over publishers and its deletions. */
  ghost predicate ClearStep(l: Local, s: Shared, fate: Fate, t: Local, u: Shared)
    requires Clearing(l)
  {
    match l
    case CloseSubs(c) =>
      u == s &&
      if fate.Lost? then t == Done(false)
      else t.ClosePubs? && t.c == c && SubSnapshot(t.subs, s.room.subs)
    case ClosePubs(c, subs) =>
      u == s &&
      if fate.Lost? then t == Done(false)
      else t.Visit? && PubSnapshot(t.cl.pubs, s.room.pubs) && t.cl == Closing(c, subs, t.cl.pubs, 0, 0, 0, [], [])
    case VisitPub(cl) =>
      u == s &&
      if |cl.pubs| <= cl.k then t == DelSubs(cl)
      else if cl.pubs[cl.k].client == cl.c.id then t == ScanPub(cl.(delPubs := cl.delPubs + [cl.pubs[cl.k].id]))
      else t == VisitPub(cl.(k := cl.k + 1))
    case ScanPub(cl) =>
      cl.k < |cl.pubs| && u.room == s.room &&
      var p := cl.pubs[cl.k];
      if fate.Lost? then t == Done(false) && u == s
      else
        || (t == VisitPub(cl.(k := cl.k + 1)) && NoBridgeFrom(s.room.bridges, p.id, p.erizo) &&
            u.log == s.log + [RemovePublisher(p.erizo, p.client, p.id)])
        || (t.DropPub? && t.cl == cl && t.b.id in s.room.bridges && t.b == s.room.bridges[t.b.id] &&
            t.b.src == p.id && t.b.sender == p.erizo && u.log == s.log + Disconnect(t.b))
    case DropPub(cl, b) =>
      cl.k < |cl.pubs| &&
      var p := cl.pubs[cl.k];
      u.room == Written(s, s.room.(bridges := s.room.bridges - {b.id}), fate) &&
      if fate.Lost? then t == Done(false) && u.log == s.log
      else t == VisitPub(cl.(k := cl.k + 1)) && u.log == s.log + [RemovePublisher(p.erizo, p.client, p.id)]
    case DelSubs(cl) =>
      u.log == s.log &&
      if cl.delSubs == [] then t == DelPubs(cl, true) && u == s
      else
        t == DelPubs(cl, fate.Good?) &&
        u.room == Written(s, s.room.(subs := Drop(s.room.subs, cl.delSubs)), fate)
    case DelPubs(cl, clean) =>
      u.log == s.log &&
      if cl.delPubs == [] then t == Done(clean) && u == s
      else
        t == Done(clean && fate.Good?) &&
        u.room == Written(s, s.room.(pubs := Drop(s.room.pubs, cl.delPubs)), fate)
  }

  /** handlePublish and the publisher_answer branch. */
  ghost predicate PublisherStep(l: Local, s: Shared, fate: Fate, t: Local, u: Shared) {
    if l.PubPut? then
      l.h.Publish? &&
      var p := NewPublisher(l.h);
      u.room == Written(s, s.room.(pubs := s.room.pubs[p.id := p]), fate) &&
      if fate.Lost? then t == Done(false) && u.log == s.log
      else t == Done(true) && u.log == s.log + [AddPublisher(p.erizo, p.client, p.id, p.name)]
    else if l.AnsGet? then
      l.h.Answer? && u == s &&
      if fate.Good? && l.h.stream in s.room.pubs then
        t == AnsPut(s.room.pubs[l.h.stream].(videoSsrc := l.h.video, audioSsrc := l.h.audio))
      else t == Done(false)
    else if l.AnsPut? then
      u.log == s.log &&
      u.room == Written(s, s.room.(pubs := s.room.pubs[l.p.id := l.p]), fate) &&
      t == Done(fate.Good?)
    else false
  }

  /** One step of a handler that holds the lock. */
  ghost predicate Step(l: Local, s: Shared, fate: Fate, t: Local, u: Shared) {
    if Subscribing(l) then SubscribeStep(l, s, fate, t, u)
    else if Sweeping(l) then SweepStep(l, s, fate, t, u)
    else if Clearing(l) then ClearStep(l, s, fate, t, u)
    else PublisherStep(l, s, fate, t, u)
  }

  datatype Config = Config(l: Local, s: Shared)

  ghost predicate GoodMove(x: Config, y: Config) {
    Step(x.l, x.s, Good, y.l, y.s)
  }

  ghost predicate Move(x: Config, y: Config) {
    || Step(x.l, x.s, Good, y.l, y.s)
    || Step(x.l, x.s, Lost(false), y.l, y.s)
    || Step(x.l, x.s, Lost(true), y.l, y.s)
  }

  /** A run of one locked section; `good` when every Redis call is answered. */
  ghost predicate Run(xs: seq<Config>, good: bool) {
    && |xs| > 0
    && forall n :: 0 <= n < |xs| - 1 ==> if good then GoodMove(xs[n], xs[n + 1]) else Move(xs[n], xs[n + 1])
  }

  /** A whole run of one handler, from its start to its end, with nothing in between. */
  ghost predicate Whole(xs: seq<Config>, h: Handler, s: Shared, l: Local, t: Shared) {
    Run(xs, false) && xs[0] == Config(Start(h), s) && xs[|xs| - 1] == Config(l, t)
  }

  ghost predicate Reaches(h: Handler, s: Shared, l: Local, t: Shared) {
    exists xs :: Whole(xs, h, s, l, t)
  }

  lemma ReachesStart(h: Handler, s: Shared)
    ensures Reaches(h, s, Start(h), s)
  {
    assert Whole([Config(Start(h), s)], h, s, Start(h), s);
  }

  lemma ReachesMove(h: Handler, s: Shared, x: Config, y: Config)
    requires Reaches(h, s, x.l, x.s) && Move(x, y)
    ensures Reaches(h, s, y.l, y.s)
  {
    hide Step;
    var xs :| Whole(xs, h, s, x.l, x.s);
    var ys := xs + [y];
    forall n | 0 <= n < |ys| - 1 ensures Move(ys[n], ys[n + 1]) {
      if n < |xs| - 1 { assert Move(xs[n], xs[n + 1]); }
    }
    assert Whole(ys, h, s, y.l, y.s);
  }

  // ----- Runs with an account of lost calls -----

  ghost predicate WholeRun(calm: bool, xs: seq<Config>, h: Handler, s: Shared, l: Local, t: Shared) {
    Run(xs, calm) && xs[0] == Config(Start(h), s) && xs[|xs| - 1] == Config(l, t)
  }

  /** The handler has got here; calmly if no call was lost on the way. */
  ghost predicate Ran(calm: bool, h: Handler, s: Shared, l: Local, t: Shared) {
    exists xs :: WholeRun(calm, xs, h, s, l, t)
  }

  lemma RanStart(calm: bool, h: Handler, s: Shared)
    ensures Ran(calm, h, s, Start(h), s)
  {
    assert WholeRun(calm, [Config(Start(h), s)], h, s, Start(h), s);
  }

  lemma RanMove(calm: bool, h: Handler, s: Shared, x: Config, y: Config, good: bool)
    requires Ran(calm, h, s, x.l, x.s) && Move(x, y) && (good ==> GoodMove(x, y))
    ensures Ran(calm && good, h, s, y.l, y.s)
  {
    hide Step;
    var xs :| WholeRun(calm, xs, h, s, x.l, x.s);
    var ys := xs + [y];
    forall n | 0 <= n < |ys| - 1 ensures if calm && good then GoodMove(ys[n], ys[n + 1]) else Move(ys[n], ys[n + 1]) {
      if n < |xs| - 1 {
        assert if calm then GoodMove(xs[n], xs[n + 1]) else Move(xs[n], xs[n + 1]);
      }
    }
    assert WholeRun(calm && good, ys, h, s, y.l, y.s);
  }

  lemma RanStep(calm: bool, h: Handler, base: Shared, l: Local, s: Shared, fate: Fate, t: Local, u: Shared)
    requires Ran(calm, h, base, l, s) && Step(l, s, fate, t, u)
    ensures Ran(calm && fate.Good?, h, base, t, u)
  {
    hide Ran, Step;
    assert fate == Good || fate == Lost(false) || fate == Lost(true);
    RanMove(calm, h, base, Config(l, s), Config(t, u), fate.Good?);
  }

  lemma RanReaches(calm: bool, h: Handler, s: Shared, l: Local, t: Shared)
    requires Ran(calm, h, s, l, t)
    ensures Reaches(h, s, l, t)
  {
    hide Step;
    var xs :| WholeRun(calm, xs, h, s, l, t);
    assert Whole(xs, h, s, l, t);
  }
}
