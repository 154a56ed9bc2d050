/** ErizoController's handlers as the source writes them. Each locked section is shown to be a run of the handler's program,
    call by call, so it inherits everything proved about those runs. */
module Controller {
  import opened RoomModel
  import opened Counting
  import opened Handlers
  import opened Moves
  import opened RoomSpec
  import opened FailureSafety
  import opened RoomInvariant
  import opened Completion
  import opened RedisStore
  import opened Locker
  import opened ClientHashes
  import opened History

  class ErizoController {
    const id: Id
    const redis: Redis

    constructor (id: Id, redis: Redis)
      ensures this.id == id && this.redis == redis
    {
      this.id := id;
      this.redis := redis;
    }

    /** The lock of a room is held. */
    ghost predicate Guards(locker: RedisLocker, r: Id)
      reads locker, locker.key
    {
      locker.Valid() && locker.locked && locker.key.room == r
    }

    // ----- Publish and publisher_answer -----

    /** The locked section of handlePublish. */
    method PublishLocked(r: Id, h: Handler, ghost locker: RedisLocker) returns (ok: bool)
      requires h.Publish? && redis.Valid() && Guards(locker, r)
      modifies redis
      ensures redis.Valid() && redis.OnlyRoom(r)
      ensures Ran(redis.lost == old(redis.lost), h, old(redis.At(r)), Done(ok), redis.At(r))
    {
      hide Ran;
      ghost var base := redis.At(r);
      ghost var lost0 := redis.lost;
      RanStart(true, h, base);
      ghost var n := redis.lost;
      var p := NewPublisher(h);
      var room := redis.RoomOf(r);
      var fate := redis.Write(r, room.(pubs := room.pubs[p.id := p]));
      ok := fate.Good?;
      if ok {
        redis.Send(r, [AddPublisher(p.erizo, p.client, p.id, p.name)]);
      }
      RanStep(n == lost0, h, base, PubPut(h), base, fate, Done(ok), redis.At(r));
    }

    /** The locked section of the publisher_answer branch. */
    method AnswerLocked(r: Id, h: Handler, ghost locker: RedisLocker) returns (ok: bool)
      requires h.Answer? && redis.Valid() && Guards(locker, r)
      modifies redis
      ensures redis.Valid() && redis.OnlyRoom(r)
      ensures Ran(redis.lost == old(redis.lost), h, old(redis.At(r)), Done(ok), redis.At(r))
    {
      hide Ran, Step;
      ghost var base := redis.At(r);
      ghost var lost0 := redis.lost;
      RanStart(true, h, base);
      ghost var n := redis.lost;
      var fate, found := redis.GetPublisher(r, h.stream);
      if found.None? {
        AnswerFails(h, base, fate);
        RanStep(n == lost0, h, base, AnsGet(h), base, fate, Done(false), base);
        return false;
      }
      var p := found.value.(videoSsrc := h.video, audioSsrc := h.audio);
      AnswerRead(h, base);
      RanStep(n == lost0, h, base, AnsGet(h), base, Good, AnsPut(p), base);
      var room := redis.RoomOf(r);
      fate := redis.Write(r, room.(pubs := room.pubs[p.id := p]));
      ok := fate.Good?;
      AnswerStored(p, base, fate, redis.At(r));
      RanStep(n == lost0, h, base, AnsPut(p), base, fate, Done(ok), redis.At(r));
    }

    lemma AnswerRead(h: Handler, s: Shared)
      requires h.Answer? && h.stream in s.room.pubs
      ensures Step(AnsGet(h), s, Good, AnsPut(s.room.pubs[h.stream].(videoSsrc := h.video, audioSsrc := h.audio)), s)
    {
    }

    lemma AnswerFails(h: Handler, s: Shared, fate: Fate)
      requires h.Answer? && (fate.Lost? || h.stream !in s.room.pubs)
      ensures Step(AnsGet(h), s, fate, Done(false), s)
    {
    }

    lemma AnswerStored(p: Publisher, s: Shared, fate: Fate, t: Shared)
      requires t == s.(room := Written(s, s.room.(pubs := s.room.pubs[p.id := p]), fate))
      ensures Step(AnsPut(p), s, fate, Done(fate.Good?), t)
    {
    }

    /** All attempts at the lock that the caller allows have been made since the call, in vain. */
    twostate predicate TriedAll(locker: RedisLocker, tryTime: nat)
      requires locker.Valid() && old(locker.Valid())
      reads locker, locker.key
    {
      locker.key.tries[locker.id] == old(locker.key.tries[locker.id]) + tryTime + 1
    }

    lemma Outcome(home: Id -> Client, h: Handler, base: Shared, ok: bool, cur: Shared, calm: bool)
      requires Ran(calm, h, base, Done(ok), cur) && Safe(base.room, {}) && Fresh(h, base.room)
      ensures Safe(cur.room, {})
      ensures Begins(home, h, base) && (calm || ok) ==>
                cur.room == Spec(h, base.room) && Settled(home, cur) && (ok <==> Accepts(h, base.room))
    {
      hide Ran, Reaches, Begins, Spec, Settled, Safe, Fresh;
      RanReaches(calm, h, base, Done(ok), cur);
      ReachedSafe(h, base, Done(ok), cur);
      if Begins(home, h, base) {
        if ok {
          SuccessMeetsSpec(home, h, base, cur);
        } else if calm {
          CalmMeetsSpec(home, h, base, ok, cur);
        }
      }
    }

    /** handlePublish. `granted` says that the lock was obtained, `base` is the room as the locked section found it, and the section is calm
        when it lost no call: then it computes its specification and succeeds if and only if it gets past its reads. */
    method HandlePublish(r: Id, h: Handler, locker: RedisLocker, tryTime: nat, ghost home: Id -> Client)
      returns (ok: bool, ghost granted: bool, ghost base: Shared, ghost calm: bool)
      requires h.Publish? && redis.Valid() && Safe(redis.At(r).room, {}) && Fresh(h, redis.At(r).room)
      requires locker.Valid() && !locker.locked && locker.key.room == r
      modifies redis, locker, locker.key
      ensures redis.Valid() && locker.Valid() && !locker.locked
      ensures Safe(redis.At(r).room, {})
      ensures if granted then Ran(calm, h, base, Done(ok), redis.At(r)) else !ok && TriedAll(locker, tryTime)
      ensures granted && Begins(home, h, base) && (calm || ok) ==>
                redis.At(r).room == Spec(h, base.room) && Settled(home, redis.At(r)) && (ok <==> Accepts(h, base.room))
    {
      hide Ran, Begins, Spec, Settled, Safe, Fresh;
      ok, granted, base, calm := false, false, redis.At(r), true;
      Meanwhile(r, h);
      var got, _, _ := locker.Lock(tryTime, tryTime);
      granted := got;
      if !got {
        return;
      }
      base := redis.At(r);
      ghost var n := redis.lost;
      ok := PublishLocked(r, h, locker);
      calm := redis.lost == n;
      Outcome(home, h, base, ok, redis.At(r), calm);
      locker.Unlock();
    }

    /** The publisher_answer branch. `granted` says that the lock was obtained, `base` is the room as the locked section found it, and the section is calm
        when it lost no call: then it computes its specification and succeeds if and only if it gets past its reads. */
    method HandleAnswer(r: Id, h: Handler, locker: RedisLocker, tryTime: nat, ghost home: Id -> Client)
      returns (ok: bool, ghost granted: bool, ghost base: Shared, ghost calm: bool)
      requires h.Answer? && redis.Valid() && Safe(redis.At(r).room, {}) && Fresh(h, redis.At(r).room)
      requires locker.Valid() && !locker.locked && locker.key.room == r
      modifies redis, locker, locker.key
      ensures redis.Valid() && locker.Valid() && !locker.locked
      ensures Safe(redis.At(r).room, {})
      ensures if granted then Ran(calm, h, base, Done(ok), redis.At(r)) else !ok && TriedAll(locker, tryTime)
      ensures granted && Begins(home, h, base) && (calm || ok) ==>
                redis.At(r).room == Spec(h, base.room) && Settled(home, redis.At(r)) && (ok <==> Accepts(h, base.room))
    {
      hide Ran, Begins, Spec, Settled, Safe, Fresh;
      ok, granted, base, calm := false, false, redis.At(r), true;
      Meanwhile(r, h);
      var got, _, _ := locker.Lock(tryTime, tryTime);
      granted := got;
      if !got {
        return;
      }
      base := redis.At(r);
      ghost var n := redis.lost;
      ok := AnswerLocked(r, h, locker);
      calm := redis.lost == n;
      Outcome(home, h, base, ok, redis.At(r), calm);
      locker.Unlock();
    }

    // ----- Subscribe -----

    /** The position of the first bridge with the key, or the length when there is none. */
    method FindBridge(xs: seq<Bridge>, k: Key) returns (n: nat)
      ensures n <= |xs| && (n < |xs| ==> BridgeKey(xs[n]) == k)
      ensures forall a :: 0 <= a < n ==> BridgeKey(xs[a]) != k
    {
      n := 0;
      while n < |xs| && BridgeKey(xs[n]) != k
        invariant n <= |xs|
        invariant forall a :: 0 <= a < n ==> BridgeKey(xs[a]) != k
      {
        n := n + 1;
      }
    }

    /** The position of the first bridge of a stream from a sender, or the length when there is none. */
    method FindSource(xs: seq<Bridge>, stream: Id, sender: Id) returns (n: nat)
      ensures n <= |xs| && (n < |xs| ==> xs[n].src == stream && xs[n].sender == sender)
      ensures forall a :: 0 <= a < n ==> !(xs[a].src == stream && xs[a].sender == sender)
    {
      n := 0;
      while n < |xs| && !(xs[n].src == stream && xs[n].sender == sender)
        invariant n <= |xs|
        invariant forall a :: 0 <= a < n ==> !(xs[a].src == stream && xs[a].sender == sender)
      {
        n := n + 1;
      }
    }

    lemma ListedNone(ids: seq<Id>, xs: seq<Bridge>, m: map<Id, Bridge>, k: Key)
      requires Lists(ids, xs, m) && forall a :: 0 <= a < |xs| ==> BridgeKey(xs[a]) != k
      ensures NoBridgeFor(m, k)
    {
      forall i | i in m ensures BridgeKey(m[i]) != k {
        var a :| 0 <= a < |ids| && ids[a] == i;
        assert xs[a] == m[i];
      }
    }

    /** What is left to do once a bridged subscriber's record is stored: count it on its bridge. */
    method JoinBridge(r: Id, h: Handler, p: Publisher, ghost base: Shared, ghost lost0: nat) returns (ok: bool)
      requires h.Subscribe? && redis.Valid() && lost0 <= redis.lost
      requires Ran(redis.lost == lost0, h, base, SubScan(h, p), redis.At(r))
      modifies redis
      ensures redis.Valid() && redis.OnlyRoom(r)
      ensures Ran(redis.lost == lost0, h, base, Done(ok), redis.At(r))
    {
      hide Ran, Step;
      ghost var n := redis.lost;
      ghost var s := redis.At(r);
      var k := Key(h.stream, h.c.erizo);
      var fate, xs, ids := redis.GetAllBridgeStream(r);
      if fate.Lost? {
        SubScanFails(h, p, s, fate);
        RanStep(n == lost0, h, base, SubScan(h, p), s, fate, Done(false), s);
        return false;
      }
      var x := FindBridge(xs, k);
      if x == |xs| {
        ListedNone(ids, xs, redis.RoomOf(r).bridges, k);
        SubScanNone(h, p, s);
        RanStep(n == lost0, h, base, SubScan(h, p), s, Good, SubGetAgain(h, p), s);
        ok := CreateBridge(r, h, p, base, lost0);
      } else {
        assert ids[x] in s.room.bridges && s.room.bridges[ids[x]] == xs[x];
        var b := xs[x].(count := xs[x].count + 1);
        SubScanFinds(h, p, s, b);
        RanStep(n == lost0, h, base, SubScan(h, p), s, Good, SubBump(h, p, b), s);
        var room := redis.RoomOf(r);
        fate := redis.Write(r, room.(bridges := room.bridges[b.id := b]));
        ok := fate.Good?;
        SubBumps(h, p, b, s, fate, redis.At(r));
        if ok {
          redis.Send(r, [Welcome(h, p)]);
        }
        RanStep(n == lost0, h, base, SubBump(h, p, b), s, fate, Done(ok), redis.At(r));
      }
    }

    /** A first bridge between a stream and a receiving erizo: record it, then have both ends connect. */
    method CreateBridge(r: Id, h: Handler, p: Publisher, ghost base: Shared, ghost lost0: nat) returns (ok: bool)
      requires h.Subscribe? && redis.Valid() && lost0 <= redis.lost
      requires Ran(redis.lost == lost0, h, base, SubGetAgain(h, p), redis.At(r))
      modifies redis
      ensures redis.Valid() && redis.OnlyRoom(r)
      ensures Ran(redis.lost == lost0, h, base, Done(ok), redis.At(r))
    {
      hide Ran, Step;
      ghost var n := redis.lost;
      ghost var s := redis.At(r);
      var fate, found := redis.GetPublisher(r, h.stream);
      if found.None? {
        SubGetAgainFails(h, p, s, fate);
        RanStep(n == lost0, h, base, SubGetAgain(h, p), s, fate, Done(false), s);
        return false;
      }
      var q := found.value;
      SubGetAgainReads(h, p, s);
      RanStep(n == lost0, h, base, SubGetAgain(h, p), s, Good, SubNew(h, p, q), s);
      var b := NewBridge(h, p);
      var room := redis.RoomOf(r);
      fate := redis.Write(r, room.(bridges := room.bridges[b.id := b]));
      ok := fate.Good?;
      SubNews(h, p, q, s, fate, redis.At(r));
      if ok {
        redis.Send(r, Connect(q, b));
        redis.Send(r, [Welcome(h, p)]);
      }
      RanStep(n == lost0, h, base, SubNew(h, p, q), s, fate, Done(ok), redis.At(r));
    }

    /** One locked section of handleSubscribe. */
    method SubscribeLocked(r: Id, h: Handler, ghost locker: RedisLocker) returns (l: Local)
      requires h.Subscribe? && redis.Valid() && Guards(locker, r)
      modifies redis
      ensures redis.Valid() && redis.OnlyRoom(r) && Final(l)
      ensures Ran(redis.lost == old(redis.lost), h, old(redis.At(r)), l, redis.At(r))
      ensures l.NotReady? ==> redis.At(r) == old(redis.At(r))
    {
      hide Ran, Step;
      ghost var base := redis.At(r);
      ghost var lost0 := redis.lost;
      RanStart(true, h, base);
      ghost var n := redis.lost;
      var fate, found := redis.GetPublisher(r, h.stream);
      if found.None? {
        SubGetFails(h, base, fate);
        RanStep(n == lost0, h, base, SubGet(h), base, fate, Done(false), base);
        return Done(false);
      }
      var p := found.value;
      SubGetReads(h, base);
      if !Answered(p) {
        RanStep(n == lost0, h, base, SubGet(h), base, Good, NotReady, base);
        return NotReady;
      }
      RanStep(n == lost0, h, base, SubGet(h), base, Good, SubPut(h, p), base);
      var ok := StoreSubscriber(r, h, p, base, lost0);
      return Done(ok);
    }

    /** Stores the record first and counts it on its bridge second. */
    method StoreSubscriber(r: Id, h: Handler, p: Publisher, ghost base: Shared, ghost lost0: nat) returns (ok: bool)
      requires h.Subscribe? && redis.Valid() && lost0 <= redis.lost
      requires Ran(redis.lost == lost0, h, base, SubPut(h, p), redis.At(r))
      modifies redis
      ensures redis.Valid() && redis.OnlyRoom(r)
      ensures Ran(redis.lost == lost0, h, base, Done(ok), redis.At(r))
    {
      hide Ran, Step;
      ghost var n := redis.lost;
      ghost var before := redis.At(r);
      var sub := NewSubscriber(h, p);
      var room := redis.RoomOf(r);
      var fate := redis.Write(r, room.(subs := room.subs[sub.id := sub]));
      ghost var s := redis.At(r);
      SubPuts(h, p, before, fate, s);
      if fate.Lost? {
        RanStep(n == lost0, h, base, SubPut(h, p), before, fate, Done(false), s);
        return false;
      }
      if sub.isBridge {
        RanStep(n == lost0, h, base, SubPut(h, p), before, fate, SubScan(h, p), s);
        ok := JoinBridge(r, h, p, base, lost0);
        return;
      }
      redis.Send(r, [Welcome(h, p)]);
      RanStep(n == lost0, h, base, SubPut(h, p), before, fate, Done(true), redis.At(r));
      return true;
    }

    /** What other controllers may do to the room while this one does not hold its lock: run handlers of their own, whatever
        calls they lose, none of which draws this handler's ids. */
    method Meanwhile(r: Id, ghost h: Handler)
      requires redis.Valid() && Safe(redis.At(r).room, {}) && Fresh(h, redis.At(r).room)
      modifies redis
      ensures redis.Valid() && Safe(redis.At(r).room, {}) && Fresh(h, redis.At(r).room)
    {
    }

    /** One attempt of handleSubscribe: the lock, and the section under it. */
    method SubscribeOnce(r: Id, h: Handler, locker: RedisLocker, tryTime: nat, ghost home: Id -> Client)
      returns (granted: bool, end: Local, ghost base: Shared, ghost calm: bool, ghost attempts: nat)
      requires h.Subscribe? && redis.Valid() && Safe(redis.At(r).room, {}) && Fresh(h, redis.At(r).room)
      requires locker.Valid() && !locker.locked && locker.key.room == r
      modifies redis, locker, locker.key
      ensures redis.Valid() && locker.Valid() && !locker.locked
      ensures Safe(redis.At(r).room, {}) && 1 <= attempts <= tryTime + 1
      ensures locker.key.tries[locker.id] == old(locker.key.tries[locker.id]) + attempts
      ensures !granted ==> attempts == tryTime + 1 && end == Done(false)
      ensures granted ==> Ran(calm, h, base, end, redis.At(r)) && Final(end)
      ensures granted ==> SubscribeResult(home, h, base, end, redis.At(r), calm)
      ensures end == NotReady ==> Fresh(h, redis.At(r).room)
    {
      hide Ran, Begins, Spec, Settled, Safe, Fresh, Accepts, SubscribeResult;
      end, base, calm := Done(false), redis.At(r), true;
      Meanwhile(r, h);
      var over;
      granted, over, attempts := locker.Lock(tryTime, tryTime);
      if !granted {
        return;
      }
      base := redis.At(r);
      ghost var lost := redis.lost;
      end := SubscribeLocked(r, h, locker);
      calm := redis.lost == lost;
      SubscribeOutcome(home, h, base, end, redis.At(r), calm);
      locker.Unlock();
    }

    /** What a section that ended at `end` means. */
    ghost predicate SubscribeResult(home: Id -> Client, h: Handler, base: Shared, end: Local, cur: Shared, calm: bool)
      requires h.Subscribe?
    {
      var ok := end == Done(true);
      && (Begins(home, h, base) && (calm || ok) ==>
            cur.room == Spec(h, base.room) && Settled(home, cur) && (ok <==> Accepts(h, base.room)))
      && (calm && end == Done(false) && h.stream in base.room.pubs ==> Accepts(h, base.room))
    }

    /** handleSubscribe: retries while the publisher is not answered. `granted`, `base`, `end` and `calm` are about the last attempt. It fails only if the
        lock is refused, the section fails, or the eleventh attempt still finds the publisher not answered. */
    method HandleSubscribe(r: Id, h: Handler, locker: RedisLocker, tryTime: nat, ghost home: Id -> Client)
      returns (ok: bool, ghost granted: bool, ghost base: Shared, ghost end: Local, ghost calm: bool, ghost calls: nat, ghost attempts: nat)
      requires h.Subscribe? && redis.Valid() && Safe(redis.At(r).room, {}) && Fresh(h, redis.At(r).room)
      requires locker.Valid() && !locker.locked && locker.key.room == r
      modifies redis, locker, locker.key
      ensures redis.Valid() && locker.Valid() && !locker.locked
      ensures Safe(redis.At(r).room, {})
      ensures 1 <= calls <= 11 && calls <= attempts <= calls * (tryTime + 1)
      ensures locker.key.tries[locker.id] == old(locker.key.tries[locker.id]) + attempts
      ensures ok <==> granted && end == Done(true)
      ensures !granted ==> attempts >= tryTime + 1
      ensures granted ==> Ran(calm, h, base, end, redis.At(r)) && (end.Done? || (end == NotReady && calls == 11))
      ensures granted ==> SubscribeResult(home, h, base, end, redis.At(r), calm)
    {
      hide Ran, Safe, Fresh, SubscribeResult;
      var tryLeft := 10;
      ok, calls, attempts := false, 0, 0;
      while true
        invariant 0 <= tryLeft <= 10 && calls == 10 - tryLeft && calls <= attempts <= calls * (tryTime + 1)
        invariant redis.Valid() && Safe(redis.At(r).room, {}) && Fresh(h, redis.At(r).room)
        invariant locker.Valid() && !locker.locked
        invariant locker.key.tries[locker.id] == old(locker.key.tries[locker.id]) + attempts
        decreases tryLeft
      {
        var got, l;
        ghost var n;
        got, l, base, calm, n := SubscribeOnce(r, h, locker, tryTime, home);
        MoreAttempts(calls, attempts, n, tryTime + 1);
        granted, end, calls, attempts := got, l, calls + 1, attempts + n;
        if !got || l.Done? {
          ok := got && l.ok;
          return;
        }
        if tryLeft == 0 {
          return;
        }
        tryLeft := tryLeft - 1;
      }
    }

    lemma SubscribeOutcome(home: Id -> Client, h: Handler, base: Shared, l: Local, cur: Shared, calm: bool)
      requires h.Subscribe? && Ran(calm, h, base, l, cur) && Final(l) && Safe(base.room, {}) && Fresh(h, base.room)
      ensures Safe(cur.room, {}) && SubscribeResult(home, h, base, l, cur, calm)
    {
      hide Ran, Reaches, Begins, Spec, Settled, Safe, Fresh, Accepts;
      RanReaches(calm, h, base, l, cur);
      ReachedSafe(h, base, l, cur);
      if l.Done? {
        Outcome(home, h, base, l.ok, cur, calm);
        if calm && h.stream in base.room.pubs { CalmRefusal(h, base, l.ok, cur); }
      } else if calm && Begins(home, h, base) {
        CalmNotReady(home, h, base, cur);
        BeginsSettled(home, h, base);
      }
    }

    lemma BeginsSettled(home: Id -> Client, h: Handler, base: Shared)
      requires Begins(home, h, base)
      ensures Settled(home, base) && (!Accepts(h, base.room) ==> Spec(h, base.room) == base.room)
    {
    }

    lemma MoreAttempts(calls: nat, attempts: nat, n: nat, most: nat)
      requires attempts <= calls * most && n <= most
      ensures attempts + n <= (calls + 1) * most
    {
    }

    // ----- Close -----

    /** removeBridgeStreamSub, for the subscriber that the nested loop has just marked. Once the subscriber has been told to
        leave, the loop stands at its next position. */
    method RemoveBridgeStreamSub(r: Id, cl: Closing, ghost h: Handler, ghost base: Shared, ghost lost0: nat) returns (ok: bool)
      requires redis.Valid() && lost0 <= redis.lost && cl.i < |cl.subs|
      requires Ran(redis.lost == lost0, h, base, ScanSub(cl), redis.At(r))
      modifies redis
      ensures redis.Valid() && redis.OnlyRoom(r)
      ensures !ok ==> Ran(redis.lost == lost0, h, base, Done(false), redis.At(r))
      ensures ok ==> Ran(redis.lost == lost0, h, base, Visit(Advance(cl)),
                             redis.At(r).(log := redis.At(r).log + Farewell(cl.subs[cl.i])))
    {
      hide Ran, Step;
      ghost var n := redis.lost;
      ghost var s := redis.At(r);
      var sub := cl.subs[cl.i];
      ghost var told := Farewell(sub);
      var fate, xs, ids := redis.GetAllBridgeStream(r);
      if fate.Lost? {
        ScanSubFails(cl, s, fate);
        RanStep(n == lost0, h, base, ScanSub(cl), s, fate, Done(false), s);
        return false;
      }
      var x := FindBridge(xs, SubKey(sub));
      var room := redis.RoomOf(r);
      if x == |xs| {
        ListedNone(ids, xs, room.bridges, SubKey(sub));
        ScanSubNone(cl, s);
        RanStep(n == lost0, h, base, ScanSub(cl), s, Good, Visit(Advance(cl)), s.(log := s.log + told));
        return true;
      }
      assert ids[x] in room.bridges && room.bridges[ids[x]] == xs[x];
      ok := LowerBridge(r, cl, xs[x].(count := xs[x].count - 1), h, base, lost0);
    }

    /** Stores a bridge whose count went down, or disconnects and removes it when the count ran out. */
    method LowerBridge(r: Id, cl: Closing, b: Bridge, ghost h: Handler, ghost base: Shared, ghost lost0: nat) returns (ok: bool)
      requires redis.Valid() && lost0 <= redis.lost && cl.i < |cl.subs|
      requires Ran(redis.lost == lost0, h, base, ScanSub(cl), redis.At(r))
      requires b.id in redis.RoomOf(r).bridges && BridgeKey(b) == SubKey(cl.subs[cl.i])
      requires b == redis.RoomOf(r).bridges[b.id].(count := redis.RoomOf(r).bridges[b.id].count - 1)
      modifies redis
      ensures redis.Valid() && redis.OnlyRoom(r)
      ensures !ok ==> Ran(redis.lost == lost0, h, base, Done(false), redis.At(r))
      ensures ok ==> Ran(redis.lost == lost0, h, base, Visit(Advance(cl)),
                             redis.At(r).(log := redis.At(r).log + Farewell(cl.subs[cl.i])))
    {
      hide Ran, Step;
      ghost var n := redis.lost;
      ghost var s := redis.At(r);
      ghost var told := Farewell(cl.subs[cl.i]);
      var room := redis.RoomOf(r);
      if b.count <= 0 {
        redis.Send(r, Disconnect(b));
      }
      ghost var sent := redis.At(r);
      LowerReads(cl, b, s);
      RanStep(n == lost0, h, base, ScanSub(cl), s, Good, WriteSub(cl, b), sent);
      var fate := redis.Write(r, Lowered(room, b));
      ok := fate.Good?;
      ghost var u := redis.At(r);
      LowerWrites(cl, b, sent, fate, u);
      RanStep(n == lost0, h, base, WriteSub(cl, b), sent, fate, if ok then Visit(Advance(cl)) else Done(false),
                  if ok then u.(log := u.log + told) else u);
    }

    lemma LowerReads(cl: Closing, b: Bridge, s: Shared)
      requires cl.i < |cl.subs| && b.id in s.room.bridges && BridgeKey(b) == SubKey(cl.subs[cl.i])
      requires b == s.room.bridges[b.id].(count := s.room.bridges[b.id].count - 1)
      ensures Step(ScanSub(cl), s, Good, WriteSub(cl, b), if b.count <= 0 then s.(log := s.log + Disconnect(b)) else s)
    {
    }

    lemma LowerWrites(cl: Closing, b: Bridge, s: Shared, fate: Fate, u: Shared)
      requires cl.i < |cl.subs| && u == s.(room := Written(s, Lowered(s.room, b), fate))
      ensures fate.Lost? ==> Step(WriteSub(cl, b), s, fate, Done(false), u)
      ensures fate.Good? ==>
        Step(WriteSub(cl, b), s, fate, Visit(Advance(cl)), u.(log := u.log + Farewell(cl.subs[cl.i])))
    {
    }

    /** One deletion in removeClient's nested loop; both branches of the source do the same. */
    method DropSubscriber(r: Id, cl: Closing, ghost h: Handler, ghost base: Shared, ghost lost0: nat) returns (ok: bool)
      requires redis.Valid() && lost0 <= redis.lost && cl.i < |cl.subs| && Hit(cl)
      requires Ran(redis.lost == lost0, h, base, Visit(cl), redis.At(r))
      modifies redis
      ensures redis.Valid() && redis.OnlyRoom(r)
      ensures !ok ==> Ran(redis.lost == lost0, h, base, Done(false), redis.At(r))
      ensures ok ==> Ran(redis.lost == lost0, h, base, Visit(Advance(cl.(delSubs := cl.delSubs + [cl.subs[cl.i].id]))), redis.At(r))
    {
      hide Ran;
      ghost var n := redis.lost;
      ghost var s := redis.At(r);
      var sub := cl.subs[cl.i];
      var marked := cl.(delSubs := cl.delSubs + [sub.id]);
      if sub.isBridge {
        RanStep(n == lost0, h, base, Visit(cl), s, Good, ScanSub(marked), s);
        ok := RemoveBridgeStreamSub(r, marked, h, base, lost0);
        if !ok {
          return;
        }
      } else {
        RanStep(n == lost0, h, base, Visit(cl), s, Good, Visit(Advance(marked)), s.(log := s.log + Farewell(sub)));
      }
      redis.Send(r, Farewell(sub));
      ok := true;
    }

    /** removeBridgeStreamPub, for the publisher that the loop has just marked. */
    method RemoveBridgeStreamPub(r: Id, cl: Closing, ghost h: Handler, ghost base: Shared, ghost lost0: nat) returns (ok: bool)
      requires redis.Valid() && lost0 <= redis.lost && cl.k < |cl.pubs|
      requires Ran(redis.lost == lost0, h, base, ScanPub(cl), redis.At(r))
      modifies redis
      ensures redis.Valid() && redis.OnlyRoom(r)
      ensures !ok ==> Ran(redis.lost == lost0, h, base, Done(false), redis.At(r))
      ensures ok ==> var p := cl.pubs[cl.k];
                     Ran(redis.lost == lost0, h, base, VisitPub(cl.(k := cl.k + 1)),
                             redis.At(r).(log := redis.At(r).log + [RemovePublisher(p.erizo, p.client, p.id)]))
    {
      hide Ran, Step;
      ghost var n := redis.lost;
      ghost var s := redis.At(r);
      var p := cl.pubs[cl.k];
      ghost var next := VisitPub(cl.(k := cl.k + 1));
      ghost var told := [RemovePublisher(p.erizo, p.client, p.id)];
      var fate, xs, ids := redis.GetAllBridgeStream(r);
      if fate.Lost? {
        ScanPubFails(cl, s, fate);
        RanStep(n == lost0, h, base, ScanPub(cl), s, fate, Done(false), s);
        return false;
      }
      var room := redis.RoomOf(r);
      var x := FindSource(xs, p.id, p.erizo);
      if x == |xs| {
        ListedNoSource(ids, xs, room.bridges, p.id, p.erizo);
        ScanPubNone(cl, s);
        RanStep(n == lost0, h, base, ScanPub(cl), s, Good, next, s.(log := s.log + told));
        return true;
      }
      assert ids[x] in room.bridges && room.bridges[ids[x]] == xs[x];
      ok := DropBridge(r, cl, xs[x], h, base, lost0);
    }

    method DropBridge(r: Id, cl: Closing, b: Bridge, ghost h: Handler, ghost base: Shared, ghost lost0: nat) returns (ok: bool)
      requires redis.Valid() && lost0 <= redis.lost && cl.k < |cl.pubs|
      requires Ran(redis.lost == lost0, h, base, ScanPub(cl), redis.At(r))
      requires b.id in redis.RoomOf(r).bridges && b == redis.RoomOf(r).bridges[b.id]
      requires b.src == cl.pubs[cl.k].id && b.sender == cl.pubs[cl.k].erizo
      modifies redis
      ensures redis.Valid() && redis.OnlyRoom(r)
      ensures !ok ==> Ran(redis.lost == lost0, h, base, Done(false), redis.At(r))
      ensures ok ==> var p := cl.pubs[cl.k];
                     Ran(redis.lost == lost0, h, base, VisitPub(cl.(k := cl.k + 1)),
                             redis.At(r).(log := redis.At(r).log + [RemovePublisher(p.erizo, p.client, p.id)]))
    {
      hide Ran, Step;
      ghost var n := redis.lost;
      ghost var s := redis.At(r);
      var p := cl.pubs[cl.k];
      ghost var next := VisitPub(cl.(k := cl.k + 1));
      ghost var told := [RemovePublisher(p.erizo, p.client, p.id)];
      var room := redis.RoomOf(r);
      redis.Send(r, Disconnect(b));
      ghost var sent := redis.At(r);
      DropPubRead(cl, b, s);
      RanStep(n == lost0, h, base, ScanPub(cl), s, Good, DropPub(cl, b), sent);
      var fate := redis.Write(r, room.(bridges := room.bridges - {b.id}));
      ok := fate.Good?;
      ghost var u := redis.At(r);
      DropPubWrite(cl, b, sent, fate, u);
      RanStep(n == lost0, h, base, DropPub(cl, b), sent, fate, if ok then next else Done(false),
                  if ok then u.(log := u.log + told) else u);
    }

    lemma DropPubRead(cl: Closing, b: Bridge, s: Shared)
      requires cl.k < |cl.pubs| && b.id in s.room.bridges && b == s.room.bridges[b.id]
      requires b.src == cl.pubs[cl.k].id && b.sender == cl.pubs[cl.k].erizo
      ensures Step(ScanPub(cl), s, Good, DropPub(cl, b), s.(log := s.log + Disconnect(b)))
    {
    }

    lemma DropPubWrite(cl: Closing, b: Bridge, s: Shared, fate: Fate, u: Shared)
      requires cl.k < |cl.pubs|
      requires u == s.(room := Written(s, s.room.(bridges := s.room.bridges - {b.id}), fate))
      ensures fate.Lost? ==> Step(DropPub(cl, b), s, fate, Done(false), u)
      ensures fate.Good? ==>
        var p := cl.pubs[cl.k];
        Step(DropPub(cl, b), s, fate, VisitPub(cl.(k := cl.k + 1)),
             u.(log := u.log + [RemovePublisher(p.erizo, p.client, p.id)]))
    {
    }

    lemma ListedNoSource(ids: seq<Id>, xs: seq<Bridge>, m: map<Id, Bridge>, stream: Id, sender: Id)
      requires Lists(ids, xs, m) && forall a :: 0 <= a < |xs| ==> !(xs[a].src == stream && xs[a].sender == sender)
      ensures NoBridgeFrom(m, stream, sender)
    {
      forall i | i in m ensures !(m[i].src == stream && m[i].sender == sender) {
        var a :| 0 <= a < |ids| && ids[a] == i;
        assert xs[a] == m[i];
      }
    }

    /** The nested loop of removeClient. */
    method SweepSubscribers(r: Id, c: Client, subs: seq<Subscriber>, pubs: seq<Publisher>, ghost base: Shared, ghost lost0: nat)
      returns (ok: bool, delSubs: seq<Id>)
      requires redis.Valid() && lost0 <= redis.lost
      requires Ran(redis.lost == lost0, Close(c), base, Visit(Closing(c, subs, pubs, 0, 0, 0, [], [])), redis.At(r))
      modifies redis
      ensures redis.Valid() && redis.OnlyRoom(r)
      ensures !ok ==> Ran(redis.lost == lost0, Close(c), base, Done(false), redis.At(r))
      ensures ok ==> Ran(redis.lost == lost0, Close(c), base, VisitPub(Closing(c, subs, pubs, |subs|, 0, 0, delSubs, [])), redis.At(r))
    {
      hide Ran;
      ghost var h := Close(c);
      delSubs := [];
      var i := 0;
      while i < |subs|
        invariant 0 <= i <= |subs| && redis.Valid() && redis.OnlyRoom(r)
        invariant Ran(redis.lost == lost0, h, base, Visit(Closing(c, subs, pubs, i, 0, 0, delSubs, [])), redis.At(r))
      {
        var j := 0;
        while j < |pubs|
          invariant 0 <= j <= |pubs| && redis.Valid() && redis.OnlyRoom(r)
          invariant Ran(redis.lost == lost0, h, base, Visit(Closing(c, subs, pubs, i, j, 0, delSubs, [])), redis.At(r))
        {
          ok, delSubs := VisitOne(r, Closing(c, subs, pubs, i, j, 0, delSubs, []), h, base, lost0);
          if !ok {
            return;
          }
          j := j + 1;
        }
        ok, delSubs := VisitOne(r, Closing(c, subs, pubs, i, j, 0, delSubs, []), h, base, lost0);
        if !ok {
          return;
        }
        i := i + 1;
      }
      ok := true;
      ghost var s := redis.At(r);
      ghost var cl := Closing(c, subs, pubs, i, 0, 0, delSubs, []);
      RanStep(redis.lost == lost0, h, base, Visit(cl), s, Good, VisitPub(cl), s);
    }

    /** One position of the nested loop: delete the current subscriber if the position asks for it. */
    method VisitOne(r: Id, cl: Closing, ghost h: Handler, ghost base: Shared, ghost lost0: nat) returns (ok: bool, delSubs: seq<Id>)
      requires redis.Valid() && lost0 <= redis.lost && cl.i < |cl.subs|
      requires Ran(redis.lost == lost0, h, base, Visit(cl), redis.At(r))
      modifies redis
      ensures redis.Valid() && redis.OnlyRoom(r)
      ensures !ok ==> Ran(redis.lost == lost0, h, base, Done(false), redis.At(r))
      ensures ok ==> Ran(redis.lost == lost0, h, base, Visit(Advance(cl).(delSubs := delSubs)), redis.At(r))
      ensures delSubs == cl.delSubs + if Hit(cl) then [cl.subs[cl.i].id] else []
    {
      hide Ran;
      if Hit(cl) {
        delSubs := cl.delSubs + [cl.subs[cl.i].id];
        ok := DropSubscriber(r, cl, h, base, lost0);
      } else {
        delSubs, ok := cl.delSubs, true;
        RanStep(redis.lost == lost0, h, base, Visit(cl), redis.At(r), Good, Visit(Advance(cl)), redis.At(r));
      }
    }

    /** removeClient's loop over the client's own publishers. */
    method SweepPublishers(r: Id, start: Closing, ghost h: Handler, ghost base: Shared, ghost lost0: nat)
      returns (ok: bool, delPubs: seq<Id>)
      requires redis.Valid() && lost0 <= redis.lost && start.k == 0 && start.delPubs == []
      requires Ran(redis.lost == lost0, h, base, VisitPub(start), redis.At(r))
      modifies redis
      ensures redis.Valid() && redis.OnlyRoom(r)
      ensures !ok ==> Ran(redis.lost == lost0, h, base, Done(false), redis.At(r))
      ensures ok ==> Ran(redis.lost == lost0, h, base, DelSubs(start.(k := |start.pubs|, delPubs := delPubs)), redis.At(r))
    {
      hide Ran, Step;
      delPubs := [];
      var k := 0;
      while k < |start.pubs|
        invariant 0 <= k <= |start.pubs| && redis.Valid() && redis.OnlyRoom(r)
        invariant Ran(redis.lost == lost0, h, base, VisitPub(start.(k := k, delPubs := delPubs)), redis.At(r))
      {
        var p := start.pubs[k];
        ghost var s := redis.At(r);
        ghost var before := start.(k := k, delPubs := delPubs);
        VisitsPub(before, s);
        if p.client == start.c.id {
          delPubs := delPubs + [p.id];
          var cl := start.(k := k, delPubs := delPubs);
          RanStep(redis.lost == lost0, h, base, VisitPub(before), s, Good, ScanPub(cl), s);
          ok := RemoveBridgeStreamPub(r, cl, h, base, lost0);
          if !ok {
            return;
          }
          redis.Send(r, [RemovePublisher(p.erizo, p.client, p.id)]);
        } else {
          RanStep(redis.lost == lost0, h, base, VisitPub(before), s, Good, VisitPub(before.(k := k + 1)), s);
        }
        k := k + 1;
      }
      ok := true;
      ghost var cl := start.(k := k, delPubs := delPubs);
      VisitsPub(cl, redis.At(r));
      RanStep(redis.lost == lost0, h, base, VisitPub(cl), redis.At(r), Good, DelSubs(cl), redis.At(r));
    }

    /** The deletions at the end of removeClient; their failures are ignored. */
    method DeleteRecords(r: Id, cl: Closing, ghost h: Handler, ghost base: Shared, ghost lost0: nat) returns (clean: bool)
      requires redis.Valid() && lost0 <= redis.lost
      requires Ran(redis.lost == lost0, h, base, DelSubs(cl), redis.At(r))
      modifies redis
      ensures redis.Valid() && redis.OnlyRoom(r)
      ensures Ran(redis.lost == lost0, h, base, Done(clean), redis.At(r))
    {
      hide Ran, Step;
      ghost var n := redis.lost;
      ghost var s := redis.At(r);
      var fate := Good;
      if cl.delSubs != [] {
        var room := redis.RoomOf(r);
        fate := redis.Write(r, room.(subs := Drop(room.subs, cl.delSubs)));
      }
      clean := fate.Good?;
      ghost var t := redis.At(r);
      SubsDeleted(cl, s, fate, t);
      RanStep(n == lost0, h, base, DelSubs(cl), s, fate, DelPubs(cl, clean), t);
      n := redis.lost;
      fate := Good;
      if cl.delPubs != [] {
        var room := redis.RoomOf(r);
        fate := redis.Write(r, room.(pubs := Drop(room.pubs, cl.delPubs)));
      }
      PubsDeleted(cl, clean, t, fate, redis.At(r));
      RanStep(n == lost0, h, base, DelPubs(cl, clean), t, fate, Done(clean && fate.Good?), redis.At(r));
      clean := clean && fate.Good?;
    }

    lemma SubsDeleted(cl: Closing, s: Shared, fate: Fate, t: Shared)
      requires if cl.delSubs == [] then fate == Good && t == s
               else t == s.(room := Written(s, s.room.(subs := Drop(s.room.subs, cl.delSubs)), fate))
      ensures Step(DelSubs(cl), s, fate, DelPubs(cl, fate.Good?), t)
    {
    }

    lemma PubsDeleted(cl: Closing, clean: bool, s: Shared, fate: Fate, t: Shared)
      requires if cl.delPubs == [] then fate == Good && t == s
               else t == s.(room := Written(s, s.room.(pubs := Drop(s.room.pubs, cl.delPubs)), fate))
      ensures Step(DelPubs(cl, clean), s, fate, Done(clean && fate.Good?), t)
    {
    }

    /** The locked section of removeClient. With no call lost it succeeds, whatever state the room is in. */
    method CloseLocked(r: Id, c: Client, ghost locker: RedisLocker) returns (ok: bool, finished: bool)
      requires redis.Valid() && Guards(locker, r)
      modifies redis
      ensures redis.Valid() && redis.OnlyRoom(r)
      ensures Ran(redis.lost == old(redis.lost), Close(c), old(redis.At(r)), Done(ok), redis.At(r)) && (ok ==> finished)
      ensures redis.lost == old(redis.lost) ==> ok
    {
      hide Ran;
      ok, finished := CloseSection(r, c);
      if redis.lost == old(redis.lost) {
        CalmCloseSucceeds(c, old(redis.At(r)), ok, redis.At(r));
      }
    }

    /** It stops at a lost call, except that its own deletions at the end may fail. */
    method CloseSection(r: Id, c: Client) returns (ok: bool, finished: bool)
      requires redis.Valid()
      modifies redis
      ensures redis.Valid() && redis.OnlyRoom(r)
      ensures Ran(redis.lost == old(redis.lost), Close(c), old(redis.At(r)), Done(ok), redis.At(r)) && (ok ==> finished)
    {
      hide Ran;
      ghost var h := Close(c);
      ghost var base := redis.At(r);
      ghost var lost0 := redis.lost;
      RanStart(true, h, base);
      ghost var n := redis.lost;
      ok, finished := false, false;
      var fate, subs := redis.GetAllSubscriber(r);
      if fate.Lost? {
        RanStep(n == lost0, h, base, CloseSubs(c), base, fate, Done(false), base);
        return;
      }
      RanStep(n == lost0, h, base, CloseSubs(c), base, Good, ClosePubs(c, subs), base);
      var pubs: seq<Publisher>;
      fate, pubs := redis.GetAllPublisher(r);
      if fate.Lost? {
        RanStep(n == lost0, h, base, ClosePubs(c, subs), base, fate, Done(false), base);
        return;
      }
      RanStep(n == lost0, h, base, ClosePubs(c, subs), base, Good, Visit(Closing(c, subs, pubs, 0, 0, 0, [], [])), base);
      var delSubs, delPubs;
      ok, delSubs := SweepSubscribers(r, c, subs, pubs, base, lost0);
      if !ok {
        return;
      }
      var cl := Closing(c, subs, pubs, |subs|, 0, 0, delSubs, []);
      ok, delPubs := SweepPublishers(r, cl, h, base, lost0);
      if !ok {
        return;
      }
      finished := true;
      ok := DeleteRecords(r, cl.(k := |pubs|, delPubs := delPubs), h, base, lost0);
    }

    // ----- Clients and controllers -----

    /** The history so far, up to the present. */
    ghost predicate Recorded(home: Id -> Client, ws: seq<World>, ds: seq<Deed>)
      reads redis
    {
      Path(home, ws, ds) && ws[|ds|] == redis.Now()
    }

    /** What other threads and controllers do meanwhile: handlers, successful or not, in rooms that this thread has not locked, and any writes
        of tokens and removals. The tokens and removals that this thread has begun are for it to end. */
    method Elsewhere(ghost home: Id -> Client, ghost held: set<Id>, ghost tokens: set<Client>, ghost removals: set<Client>,
                     ghost ws0: seq<World>, ghost ds0: seq<Deed>)
      returns (ghost ws: seq<World>, ghost ds: seq<Deed>)
      requires redis.Valid() && Recorded(home, ws0, ds0) && Begun(redis.Registered(), tokens, removals)
      modifies redis
      ensures redis.Valid() && Recorded(home, ws, ds) && Begun(redis.Registered(), tokens, removals)
      ensures ws0 <= ws && ds0 <= ds
      ensures forall k :: |ds0| <= k < |ds| ==> !ds[k].own && (ds[k].Handled? ==> ds[k].r !in held)
    {
      ws, ds := ws0, ds0;
    }

    /** handleToken: once agent and erizo are `placed`, the client enters its room's hash and the hash of the controller it is
        connected to, and is told the streams of the room. It stops at the first call that is lost. */
    method HandleToken(c: Client, placed: bool, ghost home: Id -> Client)
      returns (ok: bool, streams: seq<Publisher>, ghost ws: seq<World>, ghost ds: seq<Deed>)
      requires redis.Valid() && c.replyTo == id && home(c.id) == c
      modifies redis
      ensures redis.Valid() && Recorded(home, ws, ds) && ws[0] == old(redis.Now())
      ensures if placed then TokenTaken(ds, c, ok) else ds == [] && !ok
      ensures ok ==> Enrolled(ds, c) && PubSnapshot(streams, redis.RoomOf(c.room).pubs)
      ensures ok && (forall k :: 0 <= k < |ds| ==> !Delists(ds[k], c.id)) ==>
                c.id in Hash(redis.clients, c.room) && c.id in Hash(redis.members, id)
    {
      hide Does, Enact, Begun, PubSnapshot, Delists;
      ok, streams, ws, ds := false, [], [redis.Now()], [];
      if !placed {
        return;
      }
      var fate := redis.AddClient(c);
      PathWrites(home, ws, ds, true, TokenFirst(c, fate), redis.Now());
      FirstWriteBegins(ws[0].registry, c, fate);
      ws, ds := ws + [redis.Now()], ds + [Wrote(true, TokenFirst(c, fate))];
      if fate.Lost? {
        return;
      }
      ws, ds := Elsewhere(home, {}, {c}, {}, ws, ds);
      assert EpisodeOf(redis.Registered(), c).tokens > 0 by { BegunToken(redis.Registered(), c); }
      fate := redis.AddClientToEC(id, c);
      PathWrites(home, ws, ds, true, TokenSecond(c, fate), redis.Now());
      ghost var second := |ds|;
      ws, ds := ws + [redis.Now()], ds + [Wrote(true, TokenSecond(c, fate))];
      if fate.Lost? {
        assert ds[0] == Wrote(true, TokenFirst(c, Good)) && TokenEnds(ds, c, false, second);
        return;
      }
      fate, streams := redis.GetAllPublisher(c.room);
      ok := fate.Good?;
      PathIdle(home, ws, ds, Read(true, ok));
      ws, ds := ws + [redis.Now()], ds + [Read(true, ok)];
      assert ds[0] == Wrote(true, TokenFirst(c, Good)) && ds[second] == Wrote(true, TokenSecond(c, Good));
      assert TokenEnds(ds, c, ok, second);
      if forall k :: 0 <= k < |ds| ==> !Delists(ds[k], c.id) {
        EnrolledIsListed(home, ws, ds, c);
      }
    }

    lemma BegunToken(g: Registry, c: Client)
      requires Begun(g, {c}, {})
      ensures EpisodeOf(g, c).tokens > 0
    {
    }

    lemma BegunRemoval(g: Registry, c: Client)
      requires Begun(g, {}, {c})
      ensures EpisodeOf(g, c).removals > 0
    {
    }

    /** The two writes at the end of removeClient, whose failures are ignored. */
    method Unregister(c: Client, ghost locker: RedisLocker, ghost home: Id -> Client, ghost ws0: seq<World>, ghost ds0: seq<Deed>)
      returns (ok: bool, ghost ws: seq<World>, ghost ds: seq<Deed>, ghost b: nat)
      requires redis.Valid() && Guards(locker, c.room) && home(c.id) == c && Recorded(home, ws0, ds0)
      modifies redis
      ensures redis.Valid() && Recorded(home, ws, ds) && ws0 <= ws && ds0 <= ds
      ensures |ds0| <= b < |ds| - 1 && ds[b].Wrote? && ds[b].own && ds[b].e.LeaveFirst? && ds[b].e.c == c
      ensures var last := ds[|ds| - 1]; last.Wrote? && last.own && last.e.LeaveSecond? && last.e.c == c
      ensures ok <==> ds[b].e.fate.Good? && ds[|ds| - 1].e.fate.Good?
    {
      hide Does, Enact, Begun;
      BegunNothing(redis.Registered());
      ws, ds := Elsewhere(home, {c.room}, {}, {}, ws0, ds0);
      b := |ds|;
      ghost var g := redis.Registered();
      var fate := redis.RemoveClient(c.room, c.id, c);
      PathWrites(home, ws, ds, true, LeaveFirst(c, fate), redis.Now());
      FirstWriteBegins(g, c, fate);
      ws, ds := ws + [redis.Now()], ds + [Wrote(true, LeaveFirst(c, fate))];
      ghost var first := ds;
      ws, ds := Elsewhere(home, {c.room}, {}, {c}, ws, ds);
      BegunRemoval(redis.Registered(), c);
      var fate' := redis.RemoveClientFromEC(c.replyTo, c.id, c);
      PathWrites(home, ws, ds, true, LeaveSecond(c, fate'), redis.Now());
      ws, ds := ws + [redis.Now()], ds + [Wrote(true, LeaveSecond(c, fate'))];
      ok := fate.Good? && fate'.Good?;
      assert ds[b] == first[b];
    }

    lemma BegunNothing(g: Registry)
      ensures Begun(g, {}, {})
    {
    }

    /** The locked section as one deed. */
    method CloseRecorded(c: Client, ghost locker: RedisLocker, ghost home: Id -> Client, ghost ws0: seq<World>, ghost ds0: seq<Deed>)
      returns (done: bool, finished: bool, ghost ws: seq<World>, ghost ds: seq<Deed>)
      requires redis.Valid() && Guards(locker, c.room) && home(c.id) == c && Recorded(home, ws0, ds0)
      modifies redis
      ensures redis.Valid() && Recorded(home, ws, ds) && ws0 <= ws && ds == ds0 + [Handled(true, c.room, Close(c), done)]
      ensures (done ==> finished) && (redis.lost == old(redis.lost) ==> done)
    {
      hide Ran, Reaches, Path;
      ghost var w := redis.Now();
      ghost var n := redis.lost;
      done, finished := CloseLocked(c.room, c, locker);
      RanReaches(redis.lost == n, Close(c), old(redis.At(c.room)), Done(done), redis.At(c.room));
      ghost var v := redis.Now();
      forall x ensures SharedIn(w, x) == old(redis.At(x)) && SharedIn(v, x) == redis.At(x) {}
      PathCloses(home, ws0, ds0, c, done, v);
      ws, ds := ws0 + [v], ds0 + [Handled(true, c.room, Close(c), done)];
      PathLength(home, ws0, ds0);
    }

    /** removeClient: `finished` when it got to the end of the locked section, `done` when that succeeded. Then it makes both writes, whatever
        becomes of them, and is `ok` when nothing was lost. Without the lock, or after a lost call inside the section, it does not touch the
        client's registrations. The lock is released in any case. */
    method RemoveClient(c: Client, locker: RedisLocker, tryTime: nat, ghost home: Id -> Client, ghost ws0: seq<World>, ghost ds0: seq<Deed>)
      returns (done: bool, ok: bool, finished: bool, ghost ws: seq<World>, ghost ds: seq<Deed>)
      requires redis.Valid() && home(c.id) == c && Recorded(home, ws0, ds0)
      requires locker.Valid() && !locker.locked && locker.key.room == c.room
      modifies redis, locker, locker.key
      ensures redis.Valid() && locker.Valid() && !locker.locked
      ensures Recorded(home, ws, ds) && ws0 <= ws && ds0 <= ds
      ensures Attempted(ds, |ds0|, |ds|, c, done, ok, finished)
      ensures ds[|ds| - 1] == Refused(true, c) ==> TriedAll(locker, tryTime)
    {
      hide Recorded, Begun, Attempted;
      done, ok, finished := false, false, false;
      BegunNothing(redis.Registered());
      ws, ds := Elsewhere(home, {}, {}, {}, ws0, ds0);
      ghost var a := |ds|;
      var got, _, _ := locker.Lock(tryTime, tryTime);
      if !got {
        RecordRefusal(c, home, ws, ds);
        ws, ds := ws + [redis.Now()], ds + [Refused(true, c)];
        StoppedAt(ds, c, |ds0|, a);
        return;
      }
      done, finished, ws, ds := CloseRecorded(c, locker, home, ws, ds);
      ghost var closed := ds;
      if finished {
        var left;
        ghost var b;
        left, ws, ds, b := Unregister(c, locker, home, ws, ds);
        ok := done && left;
        assert ds[a] == closed[a];
        EndedAt(ds, c, done, ok, |ds0|, a, b);
      } else {
        StoppedAt(ds, c, |ds0|, a);
      }
      locker.Unlock();
    }

    lemma RecordRefusal(c: Client, home: Id -> Client, ws: seq<World>, ds: seq<Deed>)
      requires Recorded(home, ws, ds)
      ensures Recorded(home, ws + [redis.Now()], ds + [Refused(true, c)])
    {
      hide Does;
      PathIdle(home, ws, ds, Refused(true, c));
    }

    lemma StoppedAt(ds: seq<Deed>, c: Client, n: nat, a: nat)
      requires n <= a == |ds| - 1 && (ds[a] == Refused(true, c) || ds[a] == Handled(true, c.room, Close(c), false))
      requires forall k :: n <= k < a ==> !ds[k].own
      ensures Attempted(ds, n, |ds|, c, false, false, false)
    {
      assert StopsAt(ds, c, n, |ds|, a);
    }

    lemma EndedAt(ds: seq<Deed>, c: Client, done: bool, ok: bool, n: nat, a: nat, b: nat)
      requires n <= a && a < b < |ds| - 1 && EndsAt(ds, c, done, ok, a, b, |ds| - 1)
      ensures Attempted(ds, n, |ds|, c, done, ok, true)
    {
    }

    // ----- Cleanup after a dead controller -----

    /** One free locker for each room, each with a key of its own. */
    ghost predicate Ready(lockers: map<Id, RedisLocker>)
      reads lockers.Values, set l | l in lockers.Values :: l.key
    {
      && (forall r :: r in lockers ==> lockers[r].Valid() && !lockers[r].locked && lockers[r].key.room == r)
      && (forall r, q :: r in lockers && q in lockers && r != q ==> lockers[r] != lockers[q] && lockers[r].key != lockers[q].key)
    }

    /** removeExpireErizoController, with other controllers at work before, between and after its removals. The history it leaves has a
        removal of every client that was listed: whatever calls the others lose, such a client has a trace in some room only if it acted after its
        removal, and the dead controller's hash is empty but for clients that completed a token under it meanwhile. */
    method RemoveExpireErizoController(ec: Id, lockers: map<Id, RedisLocker>, tryTime: nat, ghost home: Id -> Client)
      returns (ok: bool, ghost ws: seq<World>, ghost ds: seq<Deed>)
      requires redis.Valid() && Placed(home, redis.Now()) && Ready(lockers)
      requires forall i :: i in Hash(redis.members, ec) ==> home(i).room in lockers
      modifies redis, lockers.Values, set l | l in lockers.Values :: l.key
      ensures redis.Valid() && Ready(lockers) && Recorded(home, ws, ds) && ws[0] == old(redis.Now())
      ensures AllSafe(ws[0]) ==> AllSafe(redis.Now())
      ensures AllFine(home, ws[0]) && Succeed(ds) ==> AllFine(home, redis.Now())
      ensures |ds| > 0 && ds[0].Read? && ds[0].own
      ensures ds[0].answered ==> forall i :: i in old(Hash(redis.members, ec)) ==> Tried(ds, home(i), true) || Tried(ds, home(i), false)
      ensures ok ==> ds[0].answered && forall i :: i in old(Hash(redis.members, ec)) ==> Removed(ds, home(i))
      ensures !ok && ds[0].answered ==> exists i :: i in old(Hash(redis.members, ec)) && Tried(ds, home(i), false)
      ensures ok ==> CleanedUp(home, ws, ds, ec)
      ensures ok && NoneActs(ws, ds, ec) ==>
                && Hash(redis.members, ec) == map[]
                && forall i :: i in old(Hash(redis.members, ec)) ==> Cleared(redis.Now(), i)
    {
      hide Path, Succeed, AllFine, AllSafe, CleanedUp, NoneActs, Cleared, Removed, Placed, Tried;
      ghost var w := redis.Now();
      ws, ds := [w], [];
      PathNone(home, w);
      PlacedFiled(home, w);
      var fate, xs, ids := redis.GetAllClientFromEC(ec);
      PathIdle(home, ws, ds, Read(true, fate.Good?));
      ws, ds := ws + [redis.Now()], ds + [Read(true, fate.Good?)];
      if fate.Lost? {
        AfterCleanup(home, ws, ds, ec, false);
        return false, ws, ds;
      }
      FiledListing(home, w.registry, ec, xs, ids);
      ok, ws, ds := RemoveAll(xs, lockers, tryTime, home, ws, ds);
      ListedRemoved(home, w.registry, ds, ec, xs, ids);
      AfterCleanup(home, ws, ds, ec, ok);
    }

    method RemoveNext(c: Client, lockers: map<Id, RedisLocker>, tryTime: nat, ghost home: Id -> Client,
                      ghost ws0: seq<World>, ghost ds0: seq<Deed>)
      returns (ok: bool, ghost ws: seq<World>, ghost ds: seq<Deed>)
      requires redis.Valid() && Recorded(home, ws0, ds0) && Ready(lockers) && home(c.id) == c && c.room in lockers
      modifies redis, lockers.Values, set l | l in lockers.Values :: l.key
      ensures redis.Valid() && Ready(lockers) && Recorded(home, ws, ds) && ws0 <= ws && ds0 <= ds
      ensures Tried(ds, c, ok)
    {
      hide Path, Attempted;
      var done, finished;
      done, ok, finished, ws, ds := RemoveClient(c, lockers[c.room], tryTime, home, ws0, ds0);
    }

    /** Goes on to the next client whatever became of the one before. */
    method RemoveAll(xs: seq<Client>, lockers: map<Id, RedisLocker>, tryTime: nat, ghost home: Id -> Client,
                     ghost ws0: seq<World>, ghost ds0: seq<Deed>)
      returns (ok: bool, ghost ws: seq<World>, ghost ds: seq<Deed>)
      requires redis.Valid() && Recorded(home, ws0, ds0) && Ready(lockers)
      requires forall a :: 0 <= a < |xs| ==> home(xs[a].id) == xs[a] && xs[a].room in lockers
      modifies redis, lockers.Values, set l | l in lockers.Values :: l.key
      ensures redis.Valid() && Ready(lockers) && Recorded(home, ws, ds) && ws0 <= ws && ds0 <= ds
      ensures forall a :: 0 <= a < |xs| ==> Tried(ds, xs[a], true) || Tried(ds, xs[a], false)
      ensures if ok then forall a :: 0 <= a < |xs| ==> Tried(ds, xs[a], true) else exists a :: 0 <= a < |xs| && Tried(ds, xs[a], false)
    {
      hide Recorded, Ready, Tried;
      ok, ws, ds := true, ws0, ds0;
      var n := 0;
      while n < |xs|
        invariant 0 <= n <= |xs| && redis.Valid() && Ready(lockers) && Recorded(home, ws, ds) && ws0 <= ws && ds0 <= ds
        invariant forall a :: 0 <= a < n ==> Tried(ds, xs[a], true) || Tried(ds, xs[a], false)
        invariant if ok then forall a :: 0 <= a < n ==> Tried(ds, xs[a], true) else exists a :: 0 <= a < n && Tried(ds, xs[a], false)
      {
        ghost var before := ds;
        var removed;
        removed, ws, ds := RemoveNext(xs[n], lockers, tryTime, home, ws, ds);
        forall a, b | 0 <= a < n && Tried(before, xs[a], b) ensures Tried(ds, xs[a], b) { TriedStays(before, ds, xs[a], b); }
        ok := ok && removed;
        n := n + 1;
      }
    }
  }
}
