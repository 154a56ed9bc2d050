/** RedisLocker as the source writes it, one object per attempt to enter a locked section. Its commands are steps of the
    lease-lock protocol, and between any two of them the other contenders may act and time may pass. */
module Locker {
  import opened LeaseLock

  /** What an attempt met: the register before each of its commands. */
  ghost predicate WholeAttempt(lease: nat, now: nat, met: seq<Register>) {
    && 1 <= |met| <= 3
    && (|met| == 1 <==> met[0].Nil?)
    && (|met| == 2 ==> met[1].Stamp? && now <= met[1].value + lease)
    && (|met| == 3 ==> met[1].Nil? || now > met[1].value + lease)
  }

  /** SETNX found the key absent; or GET and GETSET did; or GET found a stamp older than the lease and GETSET that stamp or no key. */
  ghost predicate Wins(met: seq<Register>) {
    || |met| == 1
    || (|met| == 3 && met[1].Nil? && met[2].Nil?)
    || (|met| == 3 && met[1].Stamp? && (met[2].Nil? || met[2] == met[1]))
  }

  /** The same for what comes after a SETNX that found the key set. */
  ghost predicate Rest(lease: nat, now: nat, met: seq<Register>) {
    && 1 <= |met| <= 2
    && (|met| == 1 ==> met[0].Stamp? && now <= met[0].value + lease)
    && (|met| == 2 ==> met[0].Nil? || now > met[0].value + lease)
  }

  ghost predicate Catches(met: seq<Register>) {
    |met| == 2 && (met[1].Nil? || (met[0].Stamp? && met[1] == met[0]))
  }

  lemma AttemptOf(lease: nat, now: nat, first: Register, rest: seq<Register>)
    requires if first.Nil? then rest == [] else Rest(lease, now, rest)
    ensures WholeAttempt(lease, now, [first] + rest)
    ensures Wins([first] + rest) <==> first.Nil? || Catches(rest)
  {
  }

  /** One lock key in Redis, with the contenders around it. */
  class LockKey {
    const p: Params
    /** The room whose id is the key. */
    const room: nat
    var s: State
    /** For each contender, the registers its commands have met and the number of its attempts. */
    ghost var met: seq<seq<Register>>
    ghost var tries: seq<nat>

    ghost predicate Valid()
      reads this
    {
      Reachable(p, s) && |met| == |tries| == |s.pcs|
    }

    constructor (p: Params, room: nat, contenders: seq<Pc>, time: nat, reg: Register)
      requires Init(State(time, reg, contenders))
      ensures Valid() && this.p == p && this.room == room && s == State(time, reg, contenders)
    {
      this.p := p;
      this.room := room;
      s := State(time, reg, contenders);
      met, tries := seq(|contenders|, _ => []), seq(|contenders|, _ => 0);
      new;
      assert IsRun(p, [s]) && [s][|[s]| - 1] == s;
    }

    /** Whatever the others do meanwhile. */
    method Others(ghost me: nat)
      requires Valid() && me < |s.pcs|
      modifies this
      ensures Valid() && |s.pcs| == old(|s.pcs|) && s.pcs[me] == old(s.pcs[me])
      ensures met[me] == old(met[me]) && tries[me] == old(tries[me])
    {
    }

    /** A clock that is off by at most the skew. */
    method Now(me: nat) returns (stamp: nat)
      requires Valid() && me < |s.pcs| && s.pcs[me].Idle?
      modifies this
      ensures Valid() && MayRead(p, old(s), me, stamp) && s == ReadClock(old(s), me, stamp)
      ensures met == old(met) && tries == old(tries)[me := old(tries[me]) + 1]
    {
      stamp := *;
      if !MayRead(p, s, me, stamp) {
        stamp := s.time;
      }
      ReachStep(p, s, Read(me, stamp));
      s, tries := ReadClock(s, me, stamp), tries[me := tries[me] + 1];
    }

    method SetNx(me: nat) returns (wrote: bool)
      requires Valid() && me < |s.pcs| && s.pcs[me].Clocked?
      modifies this
      ensures Valid() && s == LeaseLock.SetNx(old(s), me) && (wrote <==> old(s.reg).Nil?)
      ensures met == old(met)[me := old(met[me]) + [old(s.reg)]] && tries == old(tries)
    {
      ReachStep(p, s, Command(me));
      wrote := s.reg.Nil?;
      s, met := LeaseLock.SetNx(s, me), met[me := met[me] + [s.reg]];
    }

    method Get(me: nat) returns (value: Register)
      requires Valid() && me < |s.pcs| && s.pcs[me].Refused?
      modifies this
      ensures Valid() && s == LeaseLock.Get(p, old(s), me) && value == old(s.reg)
      ensures met == old(met)[me := old(met[me]) + [old(s.reg)]] && tries == old(tries)
    {
      ReachStep(p, s, Command(me));
      value := s.reg;
      s, met := LeaseLock.Get(p, s, me), met[me := met[me] + [s.reg]];
    }

    method GetSet(me: nat) returns (before: Register)
      requires Valid() && me < |s.pcs| && (s.pcs[me].SawNil? || s.pcs[me].SawOld?)
      modifies this
      ensures Valid() && s == LeaseLock.GetSet(old(s), me) && before == old(s.reg)
      ensures met == old(met)[me := old(met[me]) + [old(s.reg)]] && tries == old(tries)
    {
      ReachStep(p, s, Command(me));
      before := s.reg;
      s, met := LeaseLock.GetSet(s, me), met[me := met[me] + [s.reg]];
    }

    method Del(me: nat)
      requires Valid() && me < |s.pcs| && s.pcs[me].Holding?
      modifies this
      ensures Valid() && s == LeaseLock.Del(old(s), me) && met == old(met) && tries == old(tries)
    {
      ReachStep(p, s, Command(me));
      s := LeaseLock.Del(s, me);
    }
  }

  class RedisLocker {
    const key: LockKey
    const id: nat
    var locked: bool

    /** The flag tells the truth: it is set exactly while the protocol has this contender as a holder. */
    ghost predicate Valid()
      reads this, key
    {
      && key.Valid() && id < |key.s.pcs|
      && (if locked then key.s.pcs[id].Holding? else key.s.pcs[id].Idle?)
    }

    constructor (key: LockKey, id: nat)
      requires key.Valid() && id < |key.s.pcs| && key.s.pcs[id].Idle?
      ensures Valid() && !locked && this.key == key && this.id == id
    {
      this.key := key;
      this.id := id;
      locked := false;
    }

    /** One attempt: it makes the commands that its answers call for, and holds the lock afterwards if and only if they let it win. An
        object that is locked already makes none. */
    method TryLock() returns (ret: bool, ghost now: nat, ghost met: seq<Register>)
      requires Valid()
      modifies this, key
      ensures Valid() && ret == locked && |key.s.pcs| == old(|key.s.pcs|)
      ensures key.met[id] == old(key.met[id]) + met
      ensures old(locked) ==> ret && met == [] && key.tries[id] == old(key.tries[id])
      ensures !old(locked) ==> WholeAttempt(key.p.lease, now, met) && (ret <==> Wins(met))
      ensures !old(locked) ==> key.tries[id] == old(key.tries[id]) + 1
    {
      hide Reachable, WholeAttempt, Wins;
      if locked {
        return true, 0, [];
      }
      key.Others(id);
      var clock := key.Now(id);
      key.Others(id);
      ghost var first := key.s.reg;
      now, met := clock, [first];
      var wrote := key.SetNx(id);
      if wrote {
        locked := true;
      } else {
        ghost var more := Contend(clock);
        met := met + more;
      }
      AttemptOf(key.p.lease, now, first, met[1..]);
      assert met == [first] + met[1..];
      ret := locked;
    }

    /** The rest of an attempt whose SETNX found the key set. */
    method Contend(clock: nat) returns (ghost met: seq<Register>)
      requires key.Valid() && id < |key.s.pcs| && key.s.pcs[id].Refused? && key.s.pcs[id].stamp == clock && !locked
      modifies this, key
      ensures Valid() && |key.s.pcs| == old(|key.s.pcs|)
      ensures key.met[id] == old(key.met[id]) + met && key.tries[id] == old(key.tries[id])
      ensures Rest(key.p.lease, clock, met) && (locked <==> Catches(met))
    {
      hide Reachable;
      key.Others(id);
      met := [key.s.reg];
      var value := key.Get(id);
      if value.Nil? {
        key.Others(id);
        met := met + [key.s.reg];
        value := key.GetSet(id);
        locked := value.Nil?;
      } else {
        var t1 := value.value;
        if clock > t1 + key.p.lease {
          key.Others(id);
          met := met + [key.s.reg];
          var before := key.GetSet(id);
          var t2 := if before.Nil? then t1 else before.value;
          locked := t2 == t1;
        }
      }
    }

    method Unlock()
      requires Valid()
      modifies this, key
      ensures Valid() && !locked && |key.s.pcs| == old(|key.s.pcs|)
      ensures key.met == old(key.met) && key.tries == old(key.tries)
    {
      if !locked {
        return;
      }
      key.Del(id);
      locked := false;
    }

    /** Tries at least once, and stops at the first success or after tryTime + 1 attempts. A negative tryTime is never used up, so then only
        success ends the loop; `rounds` bounds how far it is followed, and `over` says that it has ended by itself. */
    method Lock(tryTime: int, rounds: nat) returns (ret: bool, over: bool, ghost attempts: nat)
      requires Valid()
      modifies this, key
      ensures Valid() && ret == locked && |key.s.pcs| == old(|key.s.pcs|)
      ensures over <==> ret || attempts == tryTime + 1
      ensures 1 <= attempts <= rounds + 1 && (0 <= tryTime ==> attempts <= tryTime + 1)
      ensures 0 <= tryTime <= rounds ==> over
      ensures tryTime < 0 && over ==> ret
      ensures !over ==> attempts == rounds + 1
      ensures key.tries[id] == old(key.tries[id]) + if old(locked) then 0 else attempts
    {
      hide Reachable, WholeAttempt, Wins;
      var left, n := tryTime, rounds;
      ghost var now, met;
      ret, now, met := TryLock();
      attempts := 1;
      while !ret && left != 0 && n > 0
        invariant Valid() && ret == locked && |key.s.pcs| == old(|key.s.pcs|)
        invariant attempts == tryTime - left + 1 && attempts == rounds - n + 1 && n >= 0
        invariant 0 <= tryTime ==> 0 <= left
        invariant old(locked) ==> ret
        invariant key.tries[id] == old(key.tries[id]) + if old(locked) then 0 else attempts
        decreases n
      {
        left, n := left - 1, n - 1;
        key.Others(id);
        ret, now, met := TryLock();
        attempts := attempts + 1;
      }
      over := ret || left == 0;
    }
  }

  /** Two lockers of one key never both have their flag set, as long as the lease covers the holds. */
  lemma LockersExclude(a: RedisLocker, b: RedisLocker)
    requires a.Valid() && b.Valid() && a.key == b.key && a.id != b.id && Covered(a.key.p)
    ensures !(a.locked && b.locked)
  {
    AtMostOneHolder(a.key.p, a.key.s);
  }
}
