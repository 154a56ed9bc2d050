/** The single steps of handleSubscribe and removeClient, each by what it reads and writes. */
module Moves {
  import opened RoomModel
  import opened Handlers

  lemma SubGetFails(h: Handler, s: Shared, fate: Fate)
    requires h.Subscribe? && (fate.Lost? || h.stream !in s.room.pubs)
    ensures Step(SubGet(h), s, fate, Done(false), s)
  {
  }

  lemma SubGetReads(h: Handler, s: Shared)
    requires h.Subscribe? && h.stream in s.room.pubs
    ensures var p := s.room.pubs[h.stream]; Step(SubGet(h), s, Good, if Answered(p) then SubPut(h, p) else NotReady, s)
  {
  }

  lemma SubPuts(h: Handler, p: Publisher, s: Shared, fate: Fate, u: Shared)
    requires h.Subscribe?
    requires var sub := NewSubscriber(h, p); u == s.(room := Written(s, s.room.(subs := s.room.subs[sub.id := sub]), fate))
    ensures fate.Lost? ==> Step(SubPut(h, p), s, fate, Done(false), u)
    ensures fate.Good? && NewSubscriber(h, p).isBridge ==> Step(SubPut(h, p), s, fate, SubScan(h, p), u)
    ensures fate.Good? && !NewSubscriber(h, p).isBridge ==>
      Step(SubPut(h, p), s, fate, Done(true), u.(log := u.log + [Welcome(h, p)]))
  {
  }

  lemma SubScanFails(h: Handler, p: Publisher, s: Shared, fate: Fate)
    requires h.Subscribe? && fate.Lost?
    ensures Step(SubScan(h, p), s, fate, Done(false), s)
  {
  }

  lemma SubScanNone(h: Handler, p: Publisher, s: Shared)
    requires h.Subscribe? && NoBridgeFor(s.room.bridges, Key(h.stream, h.c.erizo))
    ensures Step(SubScan(h, p), s, Good, SubGetAgain(h, p), s)
  {
  }

  lemma SubScanFinds(h: Handler, p: Publisher, s: Shared, b: Bridge)
    requires h.Subscribe? && b.id in s.room.bridges && BridgeKey(b) == Key(h.stream, h.c.erizo)
    requires b == s.room.bridges[b.id].(count := s.room.bridges[b.id].count + 1)
    ensures Step(SubScan(h, p), s, Good, SubBump(h, p, b), s)
  {
  }

  lemma SubBumps(h: Handler, p: Publisher, b: Bridge, s: Shared, fate: Fate, u: Shared)
    requires h.Subscribe? && u == s.(room := Written(s, s.room.(bridges := s.room.bridges[b.id := b]), fate))
    ensures fate.Lost? ==> Step(SubBump(h, p, b), s, fate, Done(false), u)
    ensures fate.Good? ==> Step(SubBump(h, p, b), s, fate, Done(true), u.(log := u.log + [Welcome(h, p)]))
  {
  }

  lemma SubGetAgainFails(h: Handler, p: Publisher, s: Shared, fate: Fate)
    requires h.Subscribe? && (fate.Lost? || h.stream !in s.room.pubs)
    ensures Step(SubGetAgain(h, p), s, fate, Done(false), s)
  {
  }

  lemma SubGetAgainReads(h: Handler, p: Publisher, s: Shared)
    requires h.Subscribe? && h.stream in s.room.pubs
    ensures Step(SubGetAgain(h, p), s, Good, SubNew(h, p, s.room.pubs[h.stream]), s)
  {
  }

  lemma SubNews(h: Handler, p: Publisher, q: Publisher, s: Shared, fate: Fate, u: Shared)
    requires h.Subscribe?
    requires var b := NewBridge(h, p); u == s.(room := Written(s, s.room.(bridges := s.room.bridges[b.id := b]), fate))
    ensures fate.Lost? ==> Step(SubNew(h, p, q), s, fate, Done(false), u)
    ensures fate.Good? ==>
      Step(SubNew(h, p, q), s, fate, Done(true), u.(log := (u.log + Connect(q, NewBridge(h, p))) + [Welcome(h, p)]))
  {
  }

  lemma ScanSubFails(cl: Closing, s: Shared, fate: Fate)
    requires cl.i < |cl.subs| && fate.Lost?
    ensures Step(ScanSub(cl), s, fate, Done(false), s)
  {
  }

  lemma ScanSubNone(cl: Closing, s: Shared)
    requires cl.i < |cl.subs| && NoBridgeFor(s.room.bridges, SubKey(cl.subs[cl.i]))
    ensures Step(ScanSub(cl), s, Good, Visit(Advance(cl)), s.(log := s.log + Farewell(cl.subs[cl.i])))
  {
  }

  lemma ScanPubFails(cl: Closing, s: Shared, fate: Fate)
    requires cl.k < |cl.pubs| && fate.Lost?
    ensures Step(ScanPub(cl), s, fate, Done(false), s)
  {
  }

  lemma ScanPubNone(cl: Closing, s: Shared)
    requires cl.k < |cl.pubs| && NoBridgeFrom(s.room.bridges, cl.pubs[cl.k].id, cl.pubs[cl.k].erizo)
    ensures var p := cl.pubs[cl.k];
      Step(ScanPub(cl), s, Good, VisitPub(cl.(k := cl.k + 1)), s.(log := s.log + [RemovePublisher(p.erizo, p.client, p.id)]))
  {
  }

  lemma VisitsPub(cl: Closing, s: Shared)
    ensures Step(VisitPub(cl), s, Good,
      if |cl.pubs| <= cl.k then DelSubs(cl)
      else if cl.pubs[cl.k].client == cl.c.id then ScanPub(cl.(delPubs := cl.delPubs + [cl.pubs[cl.k].id]))
      else VisitPub(cl.(k := cl.k + 1)), s)
  {
  }
}
