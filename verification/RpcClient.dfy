/** AMQPRPC: the ring as the source updates it in place, with its send queue. Each visit to a slot is one step of the ring, and
    between any two of them the other threads may act. */
module RpcClient {
  import opened RpcRing

  datatype Message = Message(corrid: nat, call: nat)

  /** The messages queued so far, sent or not: one for each call that has met its slot, with the call's slot, except for calls
      whose threads have yet to queue it. */
  ghost predicate Posted(line: seq<Message>, met: set<nat>, posting: set<nat>) {
    && posting <= met
    && (forall i :: 0 <= i < |line| ==> line[i].call in met - posting && line[i].corrid == line[i].call % SIZE)
    && (forall i, j :: 0 <= i < j < |line| ==> line[i].call != line[j].call)
    && (forall c :: c in met - posting ==> Message(c % SIZE, c) in line)
  }

  lemma PostedMeet(line: seq<Message>, met: set<nat>, posting: set<nat>, c: nat)
    requires Posted(line, met, posting) && c !in met
    ensures Posted(line, met + {c}, posting + {c})
  {
  }

  lemma PostedSnoc(line: seq<Message>, met: set<nat>, posting: set<nat>, c: nat)
    requires Posted(line, met, posting) && c in posting
    ensures Posted(line + [Message(c % SIZE, c)], met, posting - {c})
  {
    var more := line + [Message(c % SIZE, c)];
    assert forall i :: 0 <= i < |line| ==> more[i] == line[i];
    forall d | d in met - (posting - {c}) ensures Message(d % SIZE, d) in more {
      if d == c { assert more[|line|] == Message(c % SIZE, c); } else { assert Message(d % SIZE, d) in line; }
    }
  }

  class AmqpRpc {
    const timeout: nat
    const slots: array<Slot>
    var index: nat
    var clock: nat
    /** Names the callbacks in the order of their calls. */
    var calls: nat
    /** Callbacks run so far. */
    var ran: seq<Run>
    var sends: seq<Message>
    var wire: seq<Message>
    ghost var s: Ring
    /** Calls that have met their slots and whose messages are still to be queued. */
    ghost var posting: set<nat>

    /** All messages in the order they were queued. */
    ghost function Line(): seq<Message>
      reads this
    {
      wire + sends
    }

    ghost predicate Valid()
      reads this, slots
    {
      && slots.Length == SIZE && slots[..] == s.slots
      && index == s.index && clock == s.now && calls == |s.corr| && multiset(ran) == s.runs
      && Reachable(timeout, s) && Posted(Line(), s.met.Keys, posting)
    }

    constructor (timeout: nat, now: nat)
      requires now > 0
      ensures Valid() && s == Start(now) && fresh(slots) && sends == [] && wire == []
    {
      this.timeout := timeout;
      slots := new Slot[SIZE](_ => Slot(0, 0));
      index, clock, calls, ran, sends, wire := 0, now, 0, [], [], [];
      s, posting := Start(now), {};
      new;
      StartReachable(timeout, now);
      assert slots[..] == s.slots;
    }

    /** Whatever other threads do meanwhile. Calls in `mine` are still to meet their slots by this thread, the messages of calls in `owed` are
        still to be queued by it; when this thread is the sweep, nobody else sweeps. What is queued stays queued, in its order. */
    method Others(ghost mine: set<nat>, ghost owed: set<nat>, ghost sweeping: bool)
      requires Valid() && mine !! s.met.Keys && owed <= posting
      modifies this, slots
      ensures Valid() && Later(old(s), s) && mine !! s.met.Keys && owed <= posting && old(Line()) <= Line()
      ensures sweeping ==> s.sweeper == old(s.sweeper) && s.seen == old(s.seen)
    {
    }

    method DrawSlot() returns (corrid: nat, call: nat)
      requires Valid()
      modifies this`index, this`calls, this`s
      ensures Valid() && s == DrawIndex(old(s)) && call == |old(s.corr)| && corrid == call % SIZE
      ensures Later(old(s), s) && calls == call + 1 && call !in s.met
    {
      hide Reachable;
      ReachableInv(timeout, s);
      DrawnCalls(timeout, s, calls);
      ReachStep(timeout, s, Draw);
      ReachableLater(timeout, s, Draw);
      corrid := index % SIZE;
      index := (index + 1) % INDEX;
      call := calls;
      calls := calls + 1;
      s := DrawIndex(s);
      WrapKeepsSlot(call);
    }

    method EnterSlot(corrid: nat, call: nat)
      requires Valid() && call < calls && corrid == call % SIZE && call !in s.met
      modifies this`ran, this`s, this`posting, slots
      ensures Valid() && Enabled(old(s), Meet(call)) && s == MeetSlot(old(s), call) && posting == old(posting) + {call}
      ensures Later(old(s), s) && call in s.met
    {
      hide Reachable, Posted, Later;
      DrawnCalls(timeout, s, call);
      Widths(timeout, s);
      ReachStep(timeout, s, Meet(call));
      ReachableLater(timeout, s, Meet(call));
      if slots[corrid].ts == 0 {
        slots[corrid] := Slot(clock, call);
      } else {
        ran := ran + [Run(call, Null)];
      }
      PostedMeet(Line(), s.met.Keys, posting, call);
      s, posting := MeetSlot(s, call), posting + {call};
      assert s.met.Keys == old(s.met.Keys) + {call};
    }

    method Post(corrid: nat, call: nat)
      requires Valid() && call in posting && corrid == call % SIZE
      modifies this`sends, this`posting
      ensures Valid() && sends == old(sends) + [Message(corrid, call)] && posting == old(posting) - {call}
    {
      PostedSnoc(Line(), s.met.Keys, posting, call);
      sends := sends + [Message(corrid, call)];
      posting := posting - {call};
      assert Line() == old(Line()) + [Message(corrid, call)];
    }

    /** A call meets its own slot, with other threads between the draw and the visit. */
    method TakeSlot() returns (corrid: nat, call: nat)
      requires Valid()
      modifies this, slots
      ensures Valid() && Later(old(s), s) && old(Line()) <= Line()
      ensures old(calls) <= call < calls && call !in old(s.met) && call in s.met && call in posting && corrid == call % SIZE
    {
      hide Reachable, Later, MeetSlot, DrawIndex, Posted;
      ghost var s0 := s;
      DrawnCalls(timeout, s, calls);
      corrid, call := DrawSlot();
      ghost var s1 := s;
      Others({call}, {}, false);
      ghost var s2 := s;
      LaterCall(s1, s2, call);
      EnterSlot(corrid, call);
      LaterTwice(s0, s1, s2);
      LaterTwice(s0, s2, s);
    }

    /** A call meets its own slot once and queues its message once, accepted or not, behind all that was queued before the call. */
    method Rpc() returns (call: nat)
      requires Valid()
      modifies this, slots
      ensures Valid() && Later(old(s), s)
      ensures old(calls) <= call < calls && call !in old(s.met) && call in s.met && s.corr[call] == call % SIZE
      ensures old(Line()) <= Line() && call !in posting
      ensures |sends| > 0 && sends[|sends| - 1] == Message(call % SIZE, call)
      ensures forall i :: 0 <= i < |Line()| && Line()[i].call == call <==> i == |Line()| - 1
    {
      hide Reachable, Later, Posted;
      ghost var s0 := s;
      var corrid;
      corrid, call := TakeSlot();
      ghost var s1 := s;
      Others({}, {call}, false);
      LaterCall(s1, s, call);
      DrawnCalls(timeout, s, call);
      Post(corrid, call);
      OnlyLast(Line(), s.met.Keys, posting);
      LaterTwice(s0, s1, s);
    }

    lemma OnlyLast(line: seq<Message>, met: set<nat>, posting: set<nat>)
      requires Posted(line, met, posting) && line != []
      ensures forall i :: 0 <= i < |line| && line[i].call == line[|line| - 1].call <==> i == |line| - 1
    {
    }

    /** A reply runs the callback of the call in its slot; one to a free slot, or to no slot, runs nothing. The guard lets one id through that
        is no slot; the result says so, and what the access does then is undefined. */
    method HandleCallback(corrid: int) returns (wild: bool)
      requires Valid()
      modifies this`ran, this`s, slots
      ensures Valid() && (wild <==> corrid == SIZE)
      ensures s == if 0 <= corrid < SIZE then AnswerSlot(old(s), corrid) else old(s)
    {
      hide Reachable;
      wild := false;
      if corrid < 0 || corrid > SIZE {
        return;
      }
      if corrid >= slots.Length {
        return true;
      }
      ReachStep(timeout, s, Answer(corrid));
      if slots[corrid].ts > 0 {
        ran := ran + [Run(slots[corrid].call, Data)];
        slots[corrid] := Slot(0, slots[corrid].call);
      }
      s := AnswerSlot(s, corrid);
    }

    method ReadClock() returns (now: nat)
      requires Valid() && s.sweeper.Before?
      modifies this`s
      ensures Valid() && s == After(timeout, old(s), Look) && now == clock && Later(old(s), s)
    {
      hide Reachable;
      ReachStep(timeout, s, Look);
      ReachableLater(timeout, s, Look);
      now := clock;
      s := After(timeout, s, Look);
    }

    method SweepSlot(k: nat, now: nat)
      requires Valid() && s.sweeper == Inside(k, now) && k < SIZE
      modifies this`ran, this`s, slots
      ensures Valid() && Enabled(old(s), Check) && s == CheckSlot(timeout, old(s))
      ensures Later(old(s), s) && |s.seen| == SIZE == old(|s.seen|)
      ensures s.sweeper == Before((k + 1) % SIZE) && s.seen == old(s.seen)[k := now]
    {
      hide Reachable, Later, Posted;
      Widths(timeout, s);
      ReachStep(timeout, s, Check);
      Widths(timeout, CheckSlot(timeout, s));
      ReachableLater(timeout, s, Check);
      if slots[k].ts > 0 {
        if Elapsed(now, slots[k].ts) > timeout {
          ran := ran + [Run(slots[k].call, Null)];
          slots[k] := Slot(0, slots[k].call);
        }
      }
      s := CheckSlot(timeout, s);
    }

    /** One slot of the sweep, with the other threads at work around the clock read. */
    method VisitSlot(k: nat)
      requires Valid() && s.sweeper == Before(k) && k < SIZE
      modifies this, slots
      ensures Valid() && Later(old(s), s) && s.sweeper == Before((k + 1) % SIZE) && |s.seen| == SIZE == old(|s.seen|)
      ensures s.seen[k] >= old(clock) && s.seen == old(s.seen)[k := s.seen[k]] && old(Line()) <= Line()
    {
      hide Reachable, Later, CheckSlot, Posted;
      ghost var s0 := s;
      var now := ReadClock();
      ghost var s1 := s;
      Others({}, {}, true);
      ghost var s2 := s;
      SweepSlot(k, now);
      LaterTwice(s0, s1, s2);
      LaterTwice(s0, s2, s);
    }

    /** After one pass every call that was older than the timeout when the pass began has completed. */
    method Sweep()
      requires Valid() && s.sweeper == Before(0)
      modifies this, slots
      ensures Valid() && Later(old(s), s) && s.sweeper == Before(0)
      ensures forall c :: c in s.met && s.met[c] + timeout < old(clock) ==> Runs(s, c) == 1
      ensures old(Line()) <= Line()
    {
      hide Reachable, Posted, Later;
      Widths(timeout, s);
      LaterSelf(s);
      for k := 0 to SIZE
        invariant Valid() && Later(old(s), s) && s.sweeper == Before(k % SIZE) && |s.seen| == SIZE
        invariant (forall j :: 0 <= j < k ==> s.seen[j] >= old(clock)) && old(Line()) <= Line()
      {
        ghost var s0 := s;
        VisitSlot(k);
        ghost var s1 := s;
        LaterTwice(old(s), s0, s1);
        Others({}, {}, true);
        LaterTwice(old(s), s1, s);
      }
      forall c | c in s.met && s.met[c] + timeout < old(clock) ensures Runs(s, c) == 1 {
        SweptRan(timeout, s, old(clock), c);
      }
    }

    /** The send thread empties the queue in order. Then every call that has met its slot has its message on the wire, but for calls
        that are about to queue it. */
    method SendAll()
      requires Valid()
      modifies this`sends, this`wire
      ensures Valid() && sends == [] && wire == old(wire) + old(sends)
      ensures forall c :: c in s.met && c !in posting ==> Message(c % SIZE, c) in wire
    {
      hide Reachable;
      while sends != []
        invariant Valid() && wire + sends == old(wire) + old(sends)
        decreases |sends|
      {
        var data := sends[0];
        sends := sends[1..];
        wire := wire + [data];
        assert Line() == old(Line());
      }
    }
  }

  lemma DrawnCalls(timeout: nat, s: Ring, c: nat)
    requires Reachable(timeout, s)
    ensures c < |s.corr| ==> s.corr[c] == c % SIZE
    ensures c >= |s.corr| ==> c !in s.met
  {
    ReachableInv(timeout, s);
    assert CallOk(s, c);
  }

  lemma Widths(timeout: nat, s: Ring)
    requires Reachable(timeout, s)
    ensures |s.slots| == SIZE == |s.seen|
  {
    ReachableInv(timeout, s);
  }

  lemma LaterSelf(s: Ring)
    ensures Later(s, s)
  {
  }

  lemma SweptRan(timeout: nat, s: Ring, start: nat, c: nat)
    requires Reachable(timeout, s) && |s.seen| == SIZE && s.seen[c % SIZE] >= start
    requires c in s.met && s.met[c] + timeout < start
    ensures Runs(s, c) == 1
  {
    ReachableInv(timeout, s);
    assert CallOk(s, c) && SlotOk(timeout, s, c % SIZE);
  }

  lemma LaterCall(s: Ring, t: Ring, c: nat)
    requires Later(s, t)
    ensures |s.corr| <= |t.corr|
    ensures c in s.met ==> c in t.met
  {
  }

  lemma ReachableLater(timeout: nat, s: Ring, e: Event)
    requires Reachable(timeout, s) && Enabled(s, e)
    ensures Later(s, After(timeout, s, e))
  {
    ReachableInv(timeout, s);
    StepLater(timeout, s, e);
  }

  lemma LaterTwice(s: Ring, t: Ring, u: Ring)
    requires Later(s, t) && Later(t, u)
    ensures Later(s, u) && s.now <= t.now <= u.now
  {
  }
}
