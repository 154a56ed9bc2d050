/** Handlers of several controllers on one room, interleaved call by call. The lock is all that separates them. */
module Interleaving {
  import opened RoomModel
  import opened Counting
  import opened Handlers
  import opened RoomSpec
  import opened FailureSafety
  import opened RoomInvariant
  import Lock = LeaseLock

  datatype Thread =
    | Waiting(h: Handler)
    | Running(h: Handler, l: Local)
    | Finished(h: Handler, committed: bool)

  datatype Sys = Sys(s: Shared, threads: seq<Thread>)

  // ----- Steps -----

  /** A thread that has just acquired the lock starts its handler. The ids it draws are new. */
  ghost predicate Enter(a: Sys, b: Sys, i: nat) {
    && i < |a.threads| && a.threads[i].Waiting?
    && Fresh(a.threads[i].h, a.s.room)
    && b == a.(threads := a.threads[i := Running(a.threads[i].h, Start(a.threads[i].h))])
  }

  ghost predicate Work(a: Sys, b: Sys, i: nat, good: bool) {
    && i < |a.threads| == |b.threads| && a.threads[i].Running? && b.threads[i].Running?
    && b.threads == a.threads[i := Running(a.threads[i].h, b.threads[i].l)]
    && var x, y := Config(a.threads[i].l, a.s), Config(b.threads[i].l, b.s);
       if good then GoodMove(x, y) else Move(x, y)
  }

  /** The handler is over and the lock is released. A subscribe whose publisher is not answered yet tries again or gives up. */
  ghost predicate Leave(a: Sys, b: Sys, i: nat) {
    && i < |a.threads| == |b.threads| && a.threads[i].Running? && Final(a.threads[i].l)
    && b == a.(threads := a.threads[i := b.threads[i]])
    && var h := a.threads[i].h;
       if a.threads[i].l.Done? then b.threads[i] == Finished(h, true)
       else b.threads[i] == Waiting(h) || b.threads[i] == Finished(h, false)
  }

  ghost predicate Next(a: Sys, b: Sys, good: bool) {
    a == b || exists i: nat :: Enter(a, b, i) || Work(a, b, i, good) || Leave(a, b, i)
  }

  predicate Free(a: Sys) {
    forall i :: 0 <= i < |a.threads| ==> !a.threads[i].Running?
  }

  /** What the lock gives: at most one handler is in its locked section. */
  ghost predicate Exclusive(a: Sys) {
    forall i, j :: 0 <= i < |a.threads| && 0 <= j < |a.threads| && a.threads[i].Running? && a.threads[j].Running? ==> i == j
  }

  ghost predicate IsRun(xs: seq<Sys>, good: bool) {
    && |xs| > 0
    && (forall i :: 0 <= i < |xs[0].threads| ==> xs[0].threads[i].Waiting?)
    && (forall n :: 0 <= n < |xs| - 1 ==> Next(xs[n], xs[n + 1], good))
  }

  ghost predicate ExclusiveRun(xs: seq<Sys>) {
    forall n :: 0 <= n < |xs| ==> Exclusive(xs[n])
  }

  // ----- Serial executions -----

  ghost predicate Atomic(h: Handler, s: Shared, t: Shared) {
    exists ok :: Reaches(h, s, Done(ok), t)
  }

  /** The handlers of a list run one after another, each alone. */
  ghost predicate Serial(s: Shared, hs: seq<Handler>, t: Shared) {
    if hs == [] then s == t
    else exists mid :: Serial(s, hs[..|hs| - 1], mid) && AtomicLast(hs, mid, t)
  }

  ghost predicate AtomicLast(hs: seq<Handler>, s: Shared, t: Shared) {
    hs != [] && Atomic(hs[|hs| - 1], s, t)
  }

  function HandlersOf(threads: seq<Thread>, order: seq<nat>): seq<Handler>
    requires forall k :: 0 <= k < |order| ==> order[k] < |threads|
  {
    seq(|order|, k requires 0 <= k < |order| => threads[order[k]].h)
  }

  /** An order lists every committed thread once and no other. */
  ghost predicate Commits(threads: seq<Thread>, order: seq<nat>) {
    && (forall k :: 0 <= k < |order| ==> order[k] < |threads|)
    && (forall j, k :: 0 <= j < k < |order| ==> order[j] != order[k])
    && (forall i :: 0 <= i < |threads| ==> (i in order <==> threads[i].Finished? && threads[i].committed))
  }

  lemma SerialSnoc(s: Shared, hs: seq<Handler>, mid: Shared, h: Handler, t: Shared)
    requires Serial(s, hs, mid) && Atomic(h, mid, t)
    ensures Serial(s, hs + [h], t)
  {
    assert (hs + [h])[..|hs + [h]| - 1] == hs;
    assert AtomicLast(hs + [h], mid, t);
  }

  /** A locked section in progress: what it has done so far, it would have done alone from `mid`. */
  ghost predicate Midway(a: Sys, mid: Shared) {
    && (Free(a) ==> a.s == mid)
    && (forall i :: 0 <= i < |a.threads| && a.threads[i].Running? ==>
          var Running(h, l) := a.threads[i];
          Reaches(h, mid, l, a.s) && (l.SubGet? || l.NotReady? ==> a.s == mid))
  }

  ghost predicate Serialised(s: Shared, a: Sys, order: seq<nat>, mid: Shared) {
    Commits(a.threads, order) && Serial(s, HandlersOf(a.threads, order), mid) && Midway(a, mid)
  }

  lemma SameHandlers(a: seq<Thread>, b: seq<Thread>, order: seq<nat>)
    requires |a| == |b| && (forall k :: 0 <= k < |order| ==> order[k] < |a|)
    requires forall i :: 0 <= i < |a| ==> a[i].h == b[i].h
    ensures HandlersOf(a, order) == HandlersOf(b, order)
  {
  }

  lemma EnterSerial(s: Shared, a: Sys, b: Sys, i: nat, order: seq<nat>, mid: Shared)
    requires Serialised(s, a, order, mid) && Enter(a, b, i) && Exclusive(b)
    ensures Serialised(s, b, order, mid)
  {
    hide Reaches, Serial, Fresh;
    SameHandlers(a.threads, b.threads, order);
    assert Free(a) by {
      forall k | 0 <= k < |a.threads| ensures !a.threads[k].Running? {
        if k != i { assert b.threads[k] == a.threads[k] && b.threads[i].Running?; }
      }
    }
    ReachesStart(a.threads[i].h, mid);
  }

  /** A subscribe finds its publisher not ready only in its very first call. */
  lemma NotReadyIsFirst(x: Config, y: Config)
    requires Move(x, y)
    ensures !y.l.SubGet? && (y.l.NotReady? ==> x.l.SubGet? && y.s == x.s)
  {
  }

  lemma WorkSerial(s: Shared, a: Sys, b: Sys, i: nat, order: seq<nat>, mid: Shared)
    requires Serialised(s, a, order, mid) && Work(a, b, i, false) && Exclusive(a)
    ensures Serialised(s, b, order, mid)
  {
    hide Reaches, Serial, Move;
    SameHandlers(a.threads, b.threads, order);
    var x, y := Config(a.threads[i].l, a.s), Config(b.threads[i].l, b.s);
    ReachesMove(a.threads[i].h, mid, x, y);
    NotReadyIsFirst(x, y);
  }

  lemma LeaveSerial(s: Shared, a: Sys, b: Sys, i: nat, order: seq<nat>, mid: Shared) returns (order': seq<nat>, mid': Shared)
    requires Serialised(s, a, order, mid) && Leave(a, b, i) && Exclusive(a)
    ensures Serialised(s, b, order', mid')
  {
    hide Reaches, Serial;
    SameHandlers(a.threads, b.threads, order);
    var Running(h, l) := a.threads[i];
    assert Free(b);
    if l.Done? {
      order', mid' := order + [i], a.s;
      assert i !in order;
      assert Atomic(h, mid, a.s);
      SerialSnoc(s, HandlersOf(a.threads, order), mid, h, a.s);
      assert HandlersOf(b.threads, order') == HandlersOf(a.threads, order) + [h];
    } else {
      order', mid' := order, mid;
    }
  }

  /** Every state of an exclusive run is a serial execution of the committed handlers, plus the section in progress. */
  lemma {:induction false} Serialise(xs: seq<Sys>, n: nat) returns (order: seq<nat>, mid: Shared)
    requires IsRun(xs, false) && ExclusiveRun(xs) && n < |xs|
    ensures Serialised(xs[0].s, xs[n], order, mid)
  {
    hide Reaches, Enter, Work, Leave;
    if n == 0 {
      order, mid := [], xs[0].s;
    } else {
      order, mid := Serialise(xs, n - 1);
      var a, b := xs[n - 1], xs[n - 1 + 1];
      assert Next(a, b, false) && Exclusive(a) && Exclusive(b);
      if a != b {
        var i: nat :| Enter(a, b, i) || Work(a, b, i, false) || Leave(a, b, i);
        if Enter(a, b, i) {
          EnterSerial(xs[0].s, a, b, i, order, mid);
        } else if Work(a, b, i, false) {
          WorkSerial(xs[0].s, a, b, i, order, mid);
        } else {
          order, mid := LeaveSerial(xs[0].s, a, b, i, order, mid);
        }
      }
    }
  }

  /** Whenever the lock is free, the publishers, subscribers, bridges and commands are those of some serial order of the
      handlers that committed, each taken once. Lost calls are included: a handler that stops short stops short in the
      serial order too. */
  lemma Serialisable(xs: seq<Sys>) returns (order: seq<nat>)
    requires IsRun(xs, false) && ExclusiveRun(xs) && Free(xs[|xs| - 1])
    ensures Commits(xs[|xs| - 1].threads, order)
    ensures Serial(xs[0].s, HandlersOf(xs[|xs| - 1].threads, order), xs[|xs| - 1].s)
  {
    hide Reaches, Serial, Next;
    var mid: Shared;
    order, mid := Serialise(xs, |xs| - 1);
  }

  // ----- Counts under interleaving and failure -----

  ghost predicate SafeSys(a: Sys) {
    && Safe(a.s.room, {})
    && (forall i :: 0 <= i < |a.threads| && a.threads[i].Running? ==> SafeAt(a.threads[i].l, a.s.room))
  }

  lemma StartSafe(h: Handler, room: Room)
    requires Safe(room, {}) && Fresh(h, room)
    ensures SafeAt(Start(h), room)
  {
  }

  lemma MoveSafe(x: Config, y: Config)
    requires Move(x, y) && SafeAt(x.l, x.s.room)
    ensures SafeAt(y.l, y.s.room) && Safe(y.s.room, {})
  {
    hide SafeAt, Step;
    var fate :| Step(x.l, x.s, fate, y.l, y.s);
    StepSafe(x.l, x.s, fate, y.l, y.s);
    SafePoint(y.l, y.s.room);
  }

  lemma NextSafe(a: Sys, b: Sys)
    requires SafeSys(a) && Exclusive(a) && Exclusive(b) && Next(a, b, false)
    ensures SafeSys(b)
  {
    hide Safe, SafeAt, Move, Fresh;
    if a != b {
      var i: nat :| Enter(a, b, i) || Work(a, b, i, false) || Leave(a, b, i);
      if Enter(a, b, i) {
        StartSafe(a.threads[i].h, a.s.room);
      } else if Work(a, b, i, false) {
        MoveSafe(Config(a.threads[i].l, a.s), Config(b.threads[i].l, b.s));
      }
    }
  }

  /** At every moment of every interleaving, whatever calls were lost before, no bridge is counted beyond its records. */
  lemma {:induction false} AlwaysSafe(xs: seq<Sys>, n: nat)
    requires IsRun(xs, false) && ExclusiveRun(xs) && n < |xs| && Safe(xs[0].s.room, {})
    ensures SafeSys(xs[n])
  {
    hide SafeAt, Next;
    if n > 0 {
      AlwaysSafe(xs, n - 1);
      assert Next(xs[n - 1], xs[n - 1 + 1], false);
      NextSafe(xs[n - 1], xs[n]);
    }
  }

  // ----- Interleavings without failures -----

  /** The specifications of a list of handlers, one after another. */
  ghost function SpecAll(hs: seq<Handler>, room: Room): Room {
    if hs == [] then room else Spec(hs[|hs| - 1], SpecAll(hs[..|hs| - 1], room))
  }

  ghost predicate AllKnown(home: Id -> Client, threads: seq<Thread>) {
    forall i :: 0 <= i < |threads| ==> Known(home, threads[i].h)
  }

  ghost predicate InStep(home: Id -> Client, a: Sys, mid: Shared) {
    && (Free(a) ==> a.s == mid)
    && (forall i :: 0 <= i < |a.threads| && a.threads[i].Running? ==>
          var Running(h, l) := a.threads[i];
          Begins(home, h, mid) && Inv(home, h, mid, l, a.s))
  }

  ghost predicate Composed(home: Id -> Client, room: Room, a: Sys, order: seq<nat>, mid: Shared) {
    && AllKnown(home, a.threads)
    && Commits(a.threads, order)
    && Settled(home, mid)
    && mid.room == SpecAll(HandlersOf(a.threads, order), room)
    && InStep(home, a, mid)
  }

  lemma SpecAllSnoc(hs: seq<Handler>, h: Handler, room: Room)
    ensures SpecAll(hs + [h], room) == Spec(h, SpecAll(hs, room))
  {
    assert (hs + [h])[..|hs + [h]| - 1] == hs;
  }

  lemma EnterComposed(home: Id -> Client, room: Room, a: Sys, b: Sys, i: nat, order: seq<nat>, mid: Shared)
    requires Composed(home, room, a, order, mid) && Enter(a, b, i) && Exclusive(b)
    ensures Composed(home, room, b, order, mid)
  {
    hide Settled, SpecAll, Inv, Fresh, Known;
    SameHandlers(a.threads, b.threads, order);
    assert Free(a) by {
      forall k | 0 <= k < |a.threads| ensures !a.threads[k].Running? {
        if k != i { assert b.threads[k] == a.threads[k] && b.threads[i].Running?; }
      }
    }
    StartHolds(home, a.threads[i].h, mid);
  }

  lemma WorkComposed(home: Id -> Client, room: Room, a: Sys, b: Sys, i: nat, order: seq<nat>, mid: Shared)
    requires Composed(home, room, a, order, mid) && Work(a, b, i, true) && Exclusive(a)
    ensures Composed(home, room, b, order, mid)
  {
    hide Settled, SpecAll, Inv, Known, Begins, Step;
    SameHandlers(a.threads, b.threads, order);
    StepKeeps(home, a.threads[i].h, mid, a.threads[i].l, a.s, b.threads[i].l, b.s);
  }

  lemma FinalInv(home: Id -> Client, h: Handler, mid: Shared, l: Local, s: Shared)
    requires Inv(home, h, mid, l, s) && Final(l)
    ensures l.Done? ==> s.room == Spec(h, mid.room) && Settled(home, s)
    ensures l.NotReady? ==> s == mid
  {
    hide Settled, Spec;
  }

  lemma LeaveComposed(home: Id -> Client, room: Room, a: Sys, b: Sys, i: nat, order: seq<nat>, mid: Shared)
    returns (order': seq<nat>, mid': Shared)
    requires Composed(home, room, a, order, mid) && Leave(a, b, i) && Exclusive(a)
    ensures Composed(home, room, b, order', mid')
  {
    hide Settled, SpecAll, Inv, Known, Begins, Spec;
    SameHandlers(a.threads, b.threads, order);
    var Running(h, l) := a.threads[i];
    FinalInv(home, h, mid, l, a.s);
    assert Free(b);
    if l.Done? {
      order', mid' := order + [i], a.s;
      assert i !in order;
      SpecAllSnoc(HandlersOf(a.threads, order), h, room);
      assert HandlersOf(b.threads, order') == HandlersOf(a.threads, order) + [h];
    } else {
      order', mid' := order, mid;
    }
  }

  lemma {:induction false} Compose(home: Id -> Client, xs: seq<Sys>, n: nat) returns (order: seq<nat>, mid: Shared)
    requires IsRun(xs, true) && ExclusiveRun(xs) && n < |xs|
    requires AllKnown(home, xs[0].threads) && Settled(home, xs[0].s)
    ensures Composed(home, xs[0].s.room, xs[n], order, mid)
  {
    hide Settled, Known, Enter, Work, Leave;
    if n == 0 {
      order, mid := [], xs[0].s;
    } else {
      order, mid := Compose(home, xs, n - 1);
      var a, b := xs[n - 1], xs[n - 1 + 1];
      assert Next(a, b, true) && Exclusive(a) && Exclusive(b);
      if a != b {
        var i: nat :| Enter(a, b, i) || Work(a, b, i, true) || Leave(a, b, i);
        if Enter(a, b, i) {
          EnterComposed(home, xs[0].s.room, a, b, i, order, mid);
        } else if Work(a, b, i, true) {
          WorkComposed(home, xs[0].s.room, a, b, i, order, mid);
        } else {
          order, mid := LeaveComposed(home, xs[0].s.room, a, b, i, order, mid);
        }
      }
    }
  }

  // ----- With the real lock -----

  /** Each thread is in its locked section exactly while its contender holds the lease lock. */
  ghost predicate Coupled(locks: seq<Lock.State>, xs: seq<Sys>) {
    && |locks| == |xs|
    && forall n :: 0 <= n < |xs| ==>
         && |locks[n].pcs| == |xs[n].threads|
         && forall i :: 0 <= i < |xs[n].threads| ==> (xs[n].threads[i].Running? <==> locks[n].pcs[i].Holding?)
  }

  /** A run of the lock in which it may rest while a section works. */
  ghost predicate LockRun(p: Lock.Params, locks: seq<Lock.State>) {
    && |locks| > 0 && Lock.Init(locks[0])
    && forall n :: 0 <= n < |locks| - 1 ==> locks[n] == locks[n + 1] || Lock.Next(p, locks[n], locks[n + 1])
  }

  lemma {:induction false} LockRunKeeps(p: Lock.Params, locks: seq<Lock.State>, n: nat)
    requires Lock.Covered(p) && LockRun(p, locks) && n < |locks|
    ensures Lock.Inv(p, locks[n])
  {
    if n > 0 {
      LockRunKeeps(p, locks, n - 1);
      hide Lock.Inv, Lock.Next;
      assert locks[n - 1] == locks[n - 1 + 1] || Lock.Next(p, locks[n - 1], locks[n - 1 + 1]);
      if locks[n - 1] != locks[n] { Lock.NextKeeps(p, locks[n - 1], locks[n]); }
    }
  }

  lemma LockExcludes(p: Lock.Params, locks: seq<Lock.State>, xs: seq<Sys>)
    requires Lock.Covered(p) && LockRun(p, locks) && Coupled(locks, xs)
    ensures ExclusiveRun(xs)
  {
    forall n | 0 <= n < |xs| ensures Exclusive(xs[n]) {
      LockRunKeeps(p, locks, n);
      assert Lock.MutualExclusion(locks[n]);
    }
  }

  /** Any number of controllers, any interleaving of their Redis calls, the lease lock between them: when the lock is
      free, the room is the composition of the specifications of the handlers that committed, in one order, and it is
      settled. */
  lemma LockedRoomIsSerial(p: Lock.Params, locks: seq<Lock.State>, home: Id -> Client, xs: seq<Sys>)
    returns (order: seq<nat>)
    requires Lock.Covered(p) && LockRun(p, locks) && Coupled(locks, xs)
    requires IsRun(xs, true) && AllKnown(home, xs[0].threads) && Settled(home, xs[0].s)
    requires Free(xs[|xs| - 1])
    ensures var last := xs[|xs| - 1];
      && Commits(last.threads, order)
      && last.s.room == SpecAll(HandlersOf(last.threads, order), xs[0].s.room)
      && Settled(home, last.s)
  {
    hide Settled, SpecAll, Known, Next, LockRun, Lock.Covered, Inv, Begins;
    LockExcludes(p, locks, xs);
    var mid: Shared;
    order, mid := Compose(home, xs, |xs| - 1);
  }

  lemma EmptySettled(home: Id -> Client)
    ensures Settled(home, Shared(EmptyRoom, []))
  {
    assert MediaOf(EmptyRoom) == Media({}, {}, {}, {});
  }

  /** From an empty room: in every state that answered calls reach and that leaves the lock free, each pair of source stream and
      receiving erizo has at most one bridge, whose count is the number of bridged subscribers of that pair, and the commands sent
      build exactly the sessions that the hashes call for. */
  lemma CountsAndCommandsAgree(p: Lock.Params, locks: seq<Lock.State>, home: Id -> Client, xs: seq<Sys>, k: Key)
    requires Lock.Covered(p) && LockRun(p, locks) && Coupled(locks, xs)
    requires IsRun(xs, true) && AllKnown(home, xs[0].threads) && xs[0].s == Shared(EmptyRoom, [])
    requires Free(xs[|xs| - 1])
    ensures var s := xs[|xs| - 1].s;
      && CountOf(s.room.bridges, k) == UserCount(s.room.subs, {}, k)
      && UniqueKeys(s.room.bridges)
      && Replay(s.log) == MediaOf(s.room)
      && (forall i :: i in s.room.subs ==> s.room.subs[i].subscribeTo in s.room.pubs)
  {
    hide SpecAll, Known, Next, LockRun, Lock.Covered, Inv, Begins, Free, Coupled, MediaOf, Replay, CountOf, UserCount;
    EmptySettled(home);
    var order := LockedRoomIsSerial(p, locks, home, xs);
    ExactCounts(xs[|xs| - 1].s.room, k);
  }

  /** The same lock with any calls lost: counts are safe at every moment. */
  lemma LockedRoomIsSafe(p: Lock.Params, locks: seq<Lock.State>, xs: seq<Sys>, n: nat)
    requires Lock.Covered(p) && LockRun(p, locks) && Coupled(locks, xs)
    requires IsRun(xs, false) && n < |xs| && Safe(xs[0].s.room, {})
    ensures Safe(xs[n].s.room, {})
  {
    hide Safe, SafeAt, Next, LockRun, Lock.Covered;
    LockExcludes(p, locks, xs);
    AlwaysSafe(xs, n);
  }
}
