/** The Redis lease lock as a protocol of N contenders around one register. A step is one Redis command, one clock read
    or one unit of time. Clocks may be off by `skew`; an attempt takes at most `attempt` from its clock read; a holder
    deletes the key within `hold` of acquiring it. */
module LeaseLock {

  datatype Register = Nil | Stamp(value: nat)

  datatype Params = Params(lease: nat, attempt: nat, skew: nat, hold: nat)

  /** Where a contender stands in try_lock; `at` is when it read its clock, `stamp` what the clock showed. */
  datatype Pc =
    | Idle
    | Clocked(stamp: nat, at: nat)
    | Refused(stamp: nat, at: nat)
    | SawNil(stamp: nat, at: nat)
    | SawOld(stamp: nat, at: nat, seen: nat)
    | Holding(since: nat)

  datatype State = State(time: nat, reg: Register, pcs: seq<Pc>)

  predicate Trying(pc: Pc) {
    !pc.Idle? && !pc.Holding?
  }

  // ----- Steps -----

  ghost predicate MayTick(p: Params, s: State, n: nat) {
    forall i :: 0 <= i < |s.pcs| ==>
      && (Trying(s.pcs[i]) ==> s.time + n <= s.pcs[i].at + p.attempt)
      && (s.pcs[i].Holding? ==> s.time + n <= s.pcs[i].since + p.hold)
  }

  predicate MayRead(p: Params, s: State, i: nat, stamp: nat) {
    i < |s.pcs| && s.pcs[i].Idle? && stamp <= s.time + p.skew && s.time <= stamp + p.skew
  }

  function ReadClock(s: State, i: nat, stamp: nat): State
    requires i < |s.pcs|
  {
    s.(pcs := s.pcs[i := Clocked(stamp, s.time)])
  }

  function SetNx(s: State, i: nat): State
    requires i < |s.pcs| && s.pcs[i].Clocked?
  {
    var pc := s.pcs[i];
    if s.reg.Nil? then s.(reg := Stamp(pc.stamp), pcs := s.pcs[i := Holding(s.time)])
    else s.(pcs := s.pcs[i := Refused(pc.stamp, pc.at)])
  }

  function Get(p: Params, s: State, i: nat): State
    requires i < |s.pcs| && s.pcs[i].Refused?
  {
    var pc := s.pcs[i];
    s.(pcs := s.pcs[i :=
      if s.reg.Nil? then SawNil(pc.stamp, pc.at)
      else if pc.stamp > s.reg.value + p.lease then SawOld(pc.stamp, pc.at, s.reg.value)
      else Idle])
  }

  /** GETSET always writes. A contender that saw an old stamp wins when the old value is that stamp, and also when the
      key is gone, because a nil answer leaves the stamp it compares with in place. */
  function GetSet(s: State, i: nat): State
    requires i < |s.pcs| && (s.pcs[i].SawNil? || s.pcs[i].SawOld?)
  {
    var pc := s.pcs[i];
    var wins := s.reg.Nil? || (pc.SawOld? && s.reg.value == pc.seen);
    s.(reg := Stamp(pc.stamp), pcs := s.pcs[i := if wins then Holding(s.time) else Idle])
  }

  function Del(s: State, i: nat): State
    requires i < |s.pcs| && s.pcs[i].Holding?
  {
    s.(reg := Nil, pcs := s.pcs[i := Idle])
  }

  datatype Event =
    | Tick
    | Read(i: nat, stamp: nat)
    | Command(i: nat)

  ghost predicate Enabled(p: Params, s: State, e: Event) {
    match e
    case Tick => MayTick(p, s, 1)
    case Read(i, stamp) => MayRead(p, s, i, stamp)
    case Command(i) => i < |s.pcs| && !s.pcs[i].Idle?
  }

  function After(p: Params, s: State, e: Event): State
    requires e.Read? || e.Command? ==> e.i < |s.pcs|
    requires e.Command? ==> !s.pcs[e.i].Idle?
  {
    match e
    case Tick => s.(time := s.time + 1)
    case Read(i, stamp) => ReadClock(s, i, stamp)
    case Command(i) =>
      if s.pcs[i].Clocked? then SetNx(s, i)
      else if s.pcs[i].Refused? then Get(p, s, i)
      else if s.pcs[i].Holding? then Del(s, i)
      else GetSet(s, i)
  }

  ghost predicate Next(p: Params, s: State, t: State) {
    exists e :: Enabled(p, s, e) && t == After(p, s, e)
  }

  ghost predicate Init(s: State) {
    forall i :: 0 <= i < |s.pcs| ==> s.pcs[i].Idle?
  }

  ghost predicate IsRun(p: Params, ss: seq<State>) {
    |ss| > 0 && Init(ss[0]) && forall k :: 0 <= k < |ss| - 1 ==> Next(p, ss[k], ss[k + 1])
  }

  ghost predicate Reachable(p: Params, s: State) {
    exists ss :: IsRun(p, ss) && ss[|ss| - 1] == s
  }

  ghost predicate MutualExclusion(s: State) {
    forall i, j :: 0 <= i < |s.pcs| && 0 <= j < |s.pcs| && s.pcs[i].Holding? && s.pcs[j].Holding? ==> i == j
  }

  // ----- Safety -----

  ghost predicate AttemptOk(p: Params, time: nat, pc: Pc) {
    Trying(pc) ==>
      && pc.at <= time <= pc.at + p.attempt
      && pc.stamp <= pc.at + p.skew && pc.at <= pc.stamp + p.skew
      && (pc.SawOld? ==> pc.stamp > pc.seen + p.lease)
  }

  /** While someone holds the lock the register is set, and set recently: every write since the acquisition carries a
      stamp at most `attempt + skew` before it. Stamps that contenders saw earlier are older than that. */
  ghost predicate HolderOk(p: Params, s: State, h: nat)
    requires h < |s.pcs|
  {
    s.pcs[h].Holding? ==>
      && s.pcs[h].since <= s.time <= s.pcs[h].since + p.hold
      && s.reg.Stamp? && s.pcs[h].since <= s.reg.value + p.attempt + p.skew
      && (forall i :: 0 <= i < |s.pcs| && s.pcs[i].SawOld? ==> s.pcs[i].seen + p.attempt + p.skew < s.pcs[h].since)
  }

  ghost predicate Inv(p: Params, s: State) {
    && MutualExclusion(s)
    && (forall i :: 0 <= i < |s.pcs| ==> AttemptOk(p, s.time, s.pcs[i]))
    && (forall h :: 0 <= h < |s.pcs| ==> HolderOk(p, s, h))
  }

  /** The lease outlasts the longest hold by the worst error of the stamps. */
  predicate Covered(p: Params) {
    p.hold + p.attempt + 2 * p.skew <= p.lease
  }

  lemma TickKeeps(p: Params, s: State)
    requires Inv(p, s) && MayTick(p, s, 1)
    ensures Inv(p, s.(time := s.time + 1))
  {
    var t := s.(time := s.time + 1);
    forall h | 0 <= h < |t.pcs| ensures HolderOk(p, t, h) { assert HolderOk(p, s, h); }
    forall i | 0 <= i < |t.pcs| ensures AttemptOk(p, t.time, t.pcs[i]) { assert AttemptOk(p, s.time, s.pcs[i]); }
  }

  lemma CommandAttempts(p: Params, s: State, i: nat, k: nat)
    requires Inv(p, s) && i < |s.pcs| && !s.pcs[i].Idle? && k < |s.pcs|
    ensures var t := After(p, s, Command(i)); |t.pcs| == |s.pcs| && AttemptOk(p, t.time, t.pcs[k])
  {
    assert AttemptOk(p, s.time, s.pcs[k]);
  }

  /** A holder other than the contender that acts stays the only one, because the stamps others saw are older than the register. */
  lemma CommandHolder(p: Params, s: State, i: nat, h: nat)
    requires Covered(p) && Inv(p, s) && i < |s.pcs| && !s.pcs[i].Idle? && h < |s.pcs| && h != i && s.pcs[h].Holding?
    ensures var t := After(p, s, Command(i));
      |t.pcs| == |s.pcs| && !t.pcs[i].Holding? && t.pcs[h] == s.pcs[h] && HolderOk(p, t, h)
  {
    var t := After(p, s, Command(i));
    assert AttemptOk(p, s.time, s.pcs[i]);
    assert HolderOk(p, s, h);
    assert s.pcs[i].SawOld? ==> s.pcs[i].seen != s.reg.value;
    assert forall k :: 0 <= k < |s.pcs| && k != i ==> t.pcs[k] == s.pcs[k];
  }

  /** A contender that acquires the lock has just written the register, and all stamps seen by others are old by then. */
  lemma CommandAcquires(p: Params, s: State, i: nat)
    requires Covered(p) && Inv(p, s) && i < |s.pcs| && !s.pcs[i].Idle?
    ensures var t := After(p, s, Command(i)); |t.pcs| == |s.pcs| && HolderOk(p, t, i)
  {
    var t := After(p, s, Command(i));
    assert AttemptOk(p, s.time, s.pcs[i]);
    assert forall k :: 0 <= k < |s.pcs| && k != i ==> t.pcs[k] == s.pcs[k];
    forall k | 0 <= k < |s.pcs| && s.pcs[k].SawOld?
      ensures s.pcs[k].seen + p.attempt + p.skew < s.time
    {
      assert AttemptOk(p, s.time, s.pcs[k]);
    }
  }

  /** A command changes the register and the place of its contender only. */
  lemma CommandKeeps(p: Params, s: State, i: nat)
    requires Covered(p) && Inv(p, s) && i < |s.pcs| && !s.pcs[i].Idle?
    ensures Inv(p, After(p, s, Command(i)))
  {
    var t := After(p, s, Command(i));
    CommandAcquires(p, s, i);
    assert forall k :: 0 <= k < |s.pcs| && k != i ==> t.pcs[k] == s.pcs[k];
    hide AttemptOk, HolderOk, After, Covered;
    forall k | 0 <= k < |t.pcs| ensures AttemptOk(p, t.time, t.pcs[k]) { CommandAttempts(p, s, i, k); }
    forall h | 0 <= h < |t.pcs| ensures HolderOk(p, t, h) && (h != i && t.pcs[h].Holding? ==> !t.pcs[i].Holding?) {
      if h != i {
        if s.pcs[h].Holding? { CommandHolder(p, s, i, h); } else { IdleHolder(p, t, h); }
      }
    }
  }

  lemma IdleHolder(p: Params, s: State, h: nat)
    requires h < |s.pcs| && !s.pcs[h].Holding?
    ensures HolderOk(p, s, h)
  {
  }

  lemma ReadKeeps(p: Params, s: State, i: nat, stamp: nat)
    requires Inv(p, s) && MayRead(p, s, i, stamp)
    ensures Inv(p, ReadClock(s, i, stamp))
  {
    var t := ReadClock(s, i, stamp);
    forall h | 0 <= h < |t.pcs| ensures HolderOk(p, t, h) { assert HolderOk(p, s, h); }
    forall k | 0 <= k < |t.pcs| ensures AttemptOk(p, t.time, t.pcs[k]) { assert AttemptOk(p, s.time, s.pcs[k]); }
  }

  lemma NextKeeps(p: Params, s: State, t: State)
    requires Covered(p) && Inv(p, s) && Next(p, s, t)
    ensures Inv(p, t)
  {
    var e :| Enabled(p, s, e) && t == After(p, s, e);
    match e
    case Tick => TickKeeps(p, s);
    case Read(i, stamp) => ReadKeeps(p, s, i, stamp);
    case Command(i) => CommandKeeps(p, s, i);
  }

  lemma {:induction false} RunKeeps(p: Params, ss: seq<State>, k: nat)
    requires Covered(p) && IsRun(p, ss) && k < |ss|
    ensures Inv(p, ss[k])
  {
    if k > 0 {
      RunKeeps(p, ss, k - 1);
      assert Next(p, ss[k - 1], ss[k - 1 + 1]);
      NextKeeps(p, ss[k - 1], ss[k]);
    }
  }

  /** However many contenders interleave their commands, at most one holds the lock. */
  lemma AtMostOneHolder(p: Params, s: State)
    requires Covered(p) && Reachable(p, s)
    ensures MutualExclusion(s)
  {
    var ss :| IsRun(p, ss) && ss[|ss| - 1] == s;
    RunKeeps(p, ss, |ss| - 1);
  }

  // ----- When the lock is acquired -----

  /** A command that sets a key which was absent leaves its contender holding the lock: no key is set for nobody. */
  lemma SetIsHeld(p: Params, s: State, i: nat)
    requires i < |s.pcs| && !s.pcs[i].Idle? && s.reg.Nil?
    ensures var t := After(p, s, Command(i)); t.reg.Stamp? ==> t.pcs[i].Holding? && t.reg.value == s.pcs[i].stamp
  {
  }

  /** GETSET writes its own stamp whether it wins or loses; a holder that is done leaves no key, whoever's stamp it carried by then. */
  lemma WritesAnyway(p: Params, s: State, i: nat)
    requires i < |s.pcs|
    ensures s.pcs[i].SawNil? || s.pcs[i].SawOld? ==> After(p, s, Command(i)).reg == Stamp(s.pcs[i].stamp)
    ensures s.pcs[i].Holding? ==> After(p, s, Command(i)) == s.(reg := Nil, pcs := s.pcs[i := Idle])
  {
  }

  ghost predicate SomebodyHolds(s: State) {
    exists i :: 0 <= i < |s.pcs| && s.pcs[i].Holding?
  }

  /** From an absent key, the key is set only while somebody holds the lock. */
  lemma {:induction false} SetMeansHeld(p: Params, ss: seq<State>, k: nat)
    requires IsRun(p, ss) && ss[0].reg.Nil? && k < |ss| && ss[k].reg.Stamp?
    ensures SomebodyHolds(ss[k])
  {
    if k > 0 {
      var s, t := ss[k - 1], ss[k];
      assert Next(p, s, ss[k - 1 + 1]);
      var e :| Enabled(p, s, e) && t == After(p, s, e);
      if s.reg.Nil? {
        SetIsHeld(p, s, e.i);
      } else {
        SetMeansHeld(p, ss, k - 1);
        HeldStays(p, s, e);
      }
    }
  }

  lemma HeldStays(p: Params, s: State, e: Event)
    requires Enabled(p, s, e) && SomebodyHolds(s) && After(p, s, e).reg.Stamp?
    ensures SomebodyHolds(After(p, s, e))
  {
    var j :| 0 <= j < |s.pcs| && s.pcs[j].Holding?;
    assert After(p, s, e).pcs[j].Holding?;
  }

  /** Everything one contender does in one attempt, with nobody in between: it reads its clock, tries SETNX, and goes on to GET and
      GETSET as far as the answers lead. */
  function Attempt(p: Params, s: State, i: nat, stamp: nat): State
    requires i < |s.pcs|
  {
    var s1 := SetNx(ReadClock(s, i, stamp), i);
    if !s1.pcs[i].Refused? then s1
    else
      var s2 := Get(p, s1, i);
      if s2.pcs[i].SawNil? || s2.pcs[i].SawOld? then GetSet(s2, i) else s2
  }

  /** An undisturbed attempt acquires the lock if and only if the key is absent or its stamp is older than the lease; it then writes its own
      stamp, and otherwise leaves everything as it was. */
  lemma AttemptAcquiresIff(p: Params, s: State, i: nat, stamp: nat)
    requires i < |s.pcs| && s.pcs[i].Idle?
    ensures var t := Attempt(p, s, i, stamp);
      && (t.pcs[i].Holding? <==> s.reg.Nil? || stamp > s.reg.value + p.lease)
      && (t.pcs[i].Holding? ==> t.reg == Stamp(stamp) && t.pcs == s.pcs[i := Holding(s.time)])
      && (!t.pcs[i].Holding? ==> t == s)
  {
  }

  // ----- The bound is exact -----

  lemma ReachStep(p: Params, s: State, e: Event)
    requires Reachable(p, s) && Enabled(p, s, e)
    ensures Reachable(p, After(p, s, e))
  {
    var ss :| IsRun(p, ss) && ss[|ss| - 1] == s;
    var tt := ss + [After(p, s, e)];
    assert Next(p, s, After(p, s, e));
    forall k | 0 <= k < |tt| - 1 ensures Next(p, tt[k], tt[k + 1]) {
      if k < |ss| - 1 { assert Next(p, ss[k], ss[k + 1]); }
    }
    assert IsRun(p, tt) && tt[|tt| - 1] == After(p, s, e);
  }

  lemma {:induction false} ReachTicks(p: Params, s: State, n: nat)
    requires Reachable(p, s) && MayTick(p, s, n)
    ensures Reachable(p, s.(time := s.time + n))
  {
    if n == 0 {
      assert s.(time := s.time + 0) == s;
    } else {
      assert MayTick(p, s, n - 1);
      ReachTicks(p, s, n - 1);
      var t := s.(time := s.time + (n - 1));
      assert MayTick(p, t, 1);
      ReachStep(p, t, Tick);
      assert After(p, t, Tick) == s.(time := s.time + n);
    }
  }

  /** A slow attempt of a contender whose clock is late by x, then a prompt attempt of one whose clock is ahead by y. */
  lemma TwoHolders(p: Params, d: nat, x: nat, y: nat, hold: nat) returns (s: State)
    requires d <= p.attempt && x <= p.skew && y <= p.skew && hold <= p.hold
    requires hold + d + x + y == p.lease + 1
    ensures Reachable(p, s) && !MutualExclusion(s)
  {
    s := State(x, Nil, [Idle, Idle]);
    assert IsRun(p, [s]) && [s][|[s]| - 1] == s;
    ReachStep(p, s, Read(0, 0));
    s := After(p, s, Read(0, 0));
    ReachTicks(p, s, d);
    s := s.(time := s.time + d);
    ReachStep(p, s, Command(0));
    s := After(p, s, Command(0));
    ReachTicks(p, s, hold);
    s := s.(time := s.time + hold);
    ReachStep(p, s, Read(1, s.time + y));
    s := After(p, s, Read(1, s.time + y));
    ReachStep(p, s, Command(1));
    s := After(p, s, Command(1));
    ReachStep(p, s, Command(1));
    s := After(p, s, Command(1));
    ReachStep(p, s, Command(1));
    s := After(p, s, Command(1));
    assert s.pcs[0].Holding? && s.pcs[1].Holding?;
  }

  function Min(a: nat, b: nat): nat { if a <= b then a else b }

  /** The lock excludes if and only if the lease covers the longest hold plus the longest attempt plus twice the skew. */
  lemma ExclusiveIffCovered(p: Params)
    ensures (forall s :: Reachable(p, s) ==> MutualExclusion(s)) <==> Covered(p)
  {
    if Covered(p) {
      forall s | Reachable(p, s) ensures MutualExclusion(s) { AtMostOneHolder(p, s); }
    } else {
      var need := p.lease + 1;
      var hold := Min(p.hold, need);
      var d := Min(p.attempt, need - hold);
      var x := Min(p.skew, need - hold - d);
      var y := need - hold - d - x;
      var s := TwoHolders(p, d, x, y, hold);
    }
  }
}
