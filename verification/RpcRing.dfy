/** The ring of correlation slots that matches replies to remote calls. A step is one clock tick, one draw of the
    index, one visit to a slot by a caller, by a reply or by the sweep, or one clock read of the sweep, which the source
    takes before it enters the slot. */
module RpcRing {

  const SIZE: nat := 256
  const INDEX: nat := 0x1_0000_0000
  const CLOCK: nat := 0x1_0000_0000_0000_0000

  /** A slot is free when its time stamp is zero. */
  datatype Slot = Slot(ts: nat, call: nat)

  datatype Reply = Null | Data

  /** One execution of the callback of a call. */
  datatype Run = Run(call: nat, reply: Reply)

  /** The sweep is before a slot, or has read the clock for it. */
  datatype Sweeper = Before(k: nat) | Inside(k: nat, seen: nat)

  /** `corr` gives each call drawn so far its slot, `met` when it visited that slot, `seen` the clock the last sweep of each
      slot went by. */
  datatype Ring = Ring(now: nat, index: nat, corr: seq<nat>, slots: seq<Slot>, met: map<nat, nat>, runs: multiset<Run>,
                       sweeper: Sweeper, seen: seq<nat>)

  function Runs(s: Ring, c: nat): nat {
    s.runs[Run(c, Null)] + s.runs[Run(c, Data)]
  }

  // ----- Steps -----

  datatype Event = Tick | Draw | Meet(c: nat) | Answer(k: nat) | Look | Check

  ghost predicate Enabled(s: Ring, e: Event) {
    match e
    case Tick => true
    case Draw => true
    case Meet(c) => c < |s.corr| && c !in s.met && s.corr[c] < |s.slots|
    case Answer(k) => k < |s.slots|
    case Look => s.sweeper.Before?
    case Check => s.sweeper.Inside? && s.sweeper.k < |s.slots| == |s.seen|
  }

  function DrawIndex(s: Ring): Ring {
    s.(index := (s.index + 1) % INDEX, corr := s.corr + [s.index % SIZE])
  }

  /** The caller takes a free slot; at a full one its callback runs at once. */
  function MeetSlot(s: Ring, c: nat): Ring
    requires c < |s.corr| && s.corr[c] < |s.slots|
  {
    var k := s.corr[c];
    var t := s.(met := s.met[c := s.now]);
    if s.slots[k].ts == 0 then t.(slots := s.slots[k := Slot(s.now, c)])
    else t.(runs := s.runs + multiset{Run(c, Null)})
  }

  function RunAndFree(s: Ring, k: nat, reply: Reply): Ring
    requires k < |s.slots|
  {
    s.(slots := s.slots[k := Slot(0, s.slots[k].call)], runs := s.runs + multiset{Run(s.slots[k].call, reply)})
  }

  function AnswerSlot(s: Ring, k: nat): Ring
    requires k < |s.slots|
  {
    if s.slots[k].ts > 0 then RunAndFree(s, k, Data) else s
  }

  /** Unsigned 64-bit difference. */
  function Elapsed(seen: nat, ts: nat): int {
    if seen >= ts then seen - ts else seen - ts + CLOCK
  }

  predicate Expires(timeout: nat, seen: nat, slot: Slot) {
    slot.ts > 0 && Elapsed(seen, slot.ts) > timeout
  }

  function CheckSlot(timeout: nat, s: Ring): Ring
    requires s.sweeper.Inside? && s.sweeper.k < |s.slots| == |s.seen|
  {
    var k := s.sweeper.k;
    var t := s.(sweeper := Before((k + 1) % SIZE), seen := s.seen[k := s.sweeper.seen]);
    if Expires(timeout, s.sweeper.seen, s.slots[k]) then RunAndFree(t, k, Null) else t
  }

  function After(timeout: nat, s: Ring, e: Event): Ring
    requires Enabled(s, e)
  {
    match e
    case Tick => s.(now := s.now + 1)
    case Draw => DrawIndex(s)
    case Meet(c) => MeetSlot(s, c)
    case Answer(k) => AnswerSlot(s, k)
    case Look => s.(sweeper := Inside(s.sweeper.k, s.now))
    case Check => CheckSlot(timeout, s)
  }

  ghost predicate Init(s: Ring) {
    && s.now > 0 && s.index == 0 && s.corr == [] && s.met == map[] && s.runs == multiset{} && s.sweeper == Before(0)
    && |s.slots| == SIZE && (forall k :: 0 <= k < SIZE ==> s.slots[k].ts == 0)
    && |s.seen| == SIZE && (forall k :: 0 <= k < SIZE ==> s.seen[k] == 0)
  }

  ghost predicate Next(timeout: nat, s: Ring, t: Ring) {
    exists e :: Enabled(s, e) && t == After(timeout, s, e)
  }

  ghost predicate Path(timeout: nat, ss: seq<Ring>) {
    |ss| > 0 && forall i :: 0 <= i < |ss| - 1 ==> Next(timeout, ss[i], ss[i + 1])
  }

  ghost predicate Leads(timeout: nat, s: Ring, t: Ring) {
    exists ss :: Path(timeout, ss) && ss[0] == s && ss[|ss| - 1] == t
  }

  ghost predicate Reachable(timeout: nat, s: Ring) {
    exists s0 :: Init(s0) && Leads(timeout, s0, s)
  }

  // ----- Slot arithmetic -----

  /** The slot of a call does not notice that the index wraps around. */
  lemma WrapKeepsSlot(n: nat)
    ensures (n % INDEX) % SIZE == n % SIZE
    ensures (n % INDEX + 1) % INDEX == (n + 1) % INDEX
  {
    var q := n / INDEX;
    assert n == SIZE * (q * 0x100_0000) + n % INDEX;
  }

  lemma SameSlot(a: nat, b: nat)
    requires a % SIZE == b % SIZE && a < b + SIZE && b < a + SIZE
    ensures a == b
  {
    assert a == SIZE * (a / SIZE) + a % SIZE;
    assert b == SIZE * (b / SIZE) + b % SIZE;
  }

  /** Any 256 consecutive calls use distinct slots. */
  lemma ConsecutiveDistinct(timeout: nat, s: Ring, a: nat, b: nat)
    requires Reachable(timeout, s) && a < |s.corr| && b < |s.corr| && a < b < a + 256
    ensures s.corr[a] == a % 256 && s.corr[a] != s.corr[b]
  {
    ReachableInv(timeout, s);
    if s.corr[a] == s.corr[b] { SameSlot(a, b); }
  }

  // ----- Every call runs its callback once -----

  /** What a slot in use says about its call: it is the call's own slot, and the callback has not run. */
  ghost predicate SlotOk(timeout: nat, s: Ring, k: nat)
    requires k < |s.slots| == |s.seen|
  {
    var slot := s.slots[k];
    slot.ts > 0 ==>
      && slot.call in s.met && s.met[slot.call] == slot.ts && slot.call % SIZE == k && Runs(s, slot.call) == 0
      && s.seen[k] <= slot.ts + timeout
  }

  /** A call that has met its slot is pending there, or its callback has run. */
  ghost predicate CallOk(s: Ring, c: nat)
    requires |s.slots| == SIZE
  {
    if c in s.met then
      && c < |s.corr| && 0 < s.met[c] <= s.now
      && (Runs(s, c) == 1 || (Runs(s, c) == 0 && s.slots[c % SIZE] == Slot(s.met[c], c)))
    else Runs(s, c) == 0
  }

  ghost predicate Shape(s: Ring) {
    && s.now > 0 && s.index == |s.corr| % INDEX && |s.slots| == SIZE == |s.seen| && s.sweeper.k < SIZE
    && (forall c :: 0 <= c < |s.corr| ==> s.corr[c] == c % SIZE)
    && (forall k :: 0 <= k < SIZE ==> s.seen[k] <= s.now)
    && (s.sweeper.Inside? ==> s.sweeper.seen <= s.now)
  }

  ghost predicate Inv(timeout: nat, s: Ring) {
    && Shape(s)
    && (forall k :: 0 <= k < SIZE ==> SlotOk(timeout, s, k))
    && (forall c: nat :: CallOk(s, c))
  }

  lemma MeetKeeps(timeout: nat, s: Ring, c: nat)
    requires Inv(timeout, s) && Enabled(s, Meet(c))
    ensures Inv(timeout, MeetSlot(s, c))
  {
    var t := MeetSlot(s, c);
    assert CallOk(s, c);
    forall k | 0 <= k < SIZE ensures SlotOk(timeout, t, k) { assert SlotOk(timeout, s, k); }
    forall d: nat ensures CallOk(t, d) { assert CallOk(s, d); }
  }

  /** Running the callback of a pending call and freeing its slot. */
  lemma FreeKeeps(timeout: nat, s: Ring, k: nat, reply: Reply)
    requires Inv(timeout, s) && k < SIZE && s.slots[k].ts > 0
    ensures Inv(timeout, RunAndFree(s, k, reply))
  {
    var t := RunAndFree(s, k, reply);
    var c := s.slots[k].call;
    assert SlotOk(timeout, s, k) && CallOk(s, c);
    forall j | 0 <= j < SIZE ensures SlotOk(timeout, t, j) { assert SlotOk(timeout, s, j); }
    forall d: nat ensures CallOk(t, d) { assert CallOk(s, d); }
  }

  lemma DrawKeeps(timeout: nat, s: Ring)
    requires Inv(timeout, s)
    ensures Inv(timeout, DrawIndex(s))
  {
    var t := DrawIndex(s);
    WrapKeepsSlot(|s.corr|);
    forall k | 0 <= k < SIZE ensures SlotOk(timeout, t, k) { assert SlotOk(timeout, s, k); }
    forall d: nat ensures CallOk(t, d) { assert CallOk(s, d); }
  }

  lemma CheckKeeps(timeout: nat, s: Ring)
    requires Inv(timeout, s) && Enabled(s, Check)
    ensures Inv(timeout, CheckSlot(timeout, s))
  {
    var k := s.sweeper.k;
    var u := if Expires(timeout, s.sweeper.seen, s.slots[k]) then RunAndFree(s, k, Null) else s;
    if Expires(timeout, s.sweeper.seen, s.slots[k]) { FreeKeeps(timeout, s, k, Null); }
    var t := CheckSlot(timeout, s);
    assert t == u.(sweeper := t.sweeper, seen := t.seen);
    forall j | 0 <= j < SIZE ensures SlotOk(timeout, t, j) { assert SlotOk(timeout, u, j); }
    forall d: nat ensures CallOk(t, d) { assert CallOk(u, d); }
  }

  lemma ClockKeeps(timeout: nat, s: Ring, t: Ring)
    requires Inv(timeout, s) && s.now <= t.now && Shape(t) && t == s.(now := t.now, sweeper := t.sweeper)
    ensures Inv(timeout, t)
  {
    forall k | 0 <= k < SIZE ensures SlotOk(timeout, t, k) { assert SlotOk(timeout, s, k); }
    forall d: nat ensures CallOk(t, d) { assert CallOk(s, d); }
  }

  lemma NextKeeps(timeout: nat, s: Ring, e: Event)
    requires Inv(timeout, s) && Enabled(s, e)
    ensures Inv(timeout, After(timeout, s, e))
  {
    hide CallOk, SlotOk;
    match e
    case Tick => ClockKeeps(timeout, s, After(timeout, s, e));
    case Draw => DrawKeeps(timeout, s);
    case Meet(c) => MeetKeeps(timeout, s, c);
    case Answer(k) => if s.slots[k].ts > 0 { FreeKeeps(timeout, s, k, Data); }
    case Look => ClockKeeps(timeout, s, After(timeout, s, e));
    case Check => CheckKeeps(timeout, s);
  }

  lemma InitInv(timeout: nat, s: Ring)
    requires Init(s)
    ensures Inv(timeout, s)
  {
  }

  lemma {:induction false} PathKeeps(timeout: nat, ss: seq<Ring>, i: nat)
    requires Path(timeout, ss) && Inv(timeout, ss[0]) && i < |ss|
    ensures Inv(timeout, ss[i])
  {
    hide Inv;
    if i > 0 {
      PathKeeps(timeout, ss, i - 1);
      assert Next(timeout, ss[i - 1], ss[i - 1 + 1]);
      var e :| Enabled(ss[i - 1], e) && ss[i] == After(timeout, ss[i - 1], e);
      NextKeeps(timeout, ss[i - 1], e);
    }
  }

  lemma ReachableInv(timeout: nat, s: Ring)
    requires Reachable(timeout, s)
    ensures Inv(timeout, s)
  {
    hide Inv;
    var s0 :| Init(s0) && Leads(timeout, s0, s);
    InitInv(timeout, s0);
    var ss :| Path(timeout, ss) && ss[0] == s0 && ss[|ss| - 1] == s;
    PathKeeps(timeout, ss, |ss| - 1);
  }

  ghost predicate PendingIn(s: Ring, c: nat, k: nat) {
    k < |s.slots| && s.slots[k].ts > 0 && s.slots[k].call == c
  }

  /** In every reachable state a call that has met its slot is pending in exactly one slot, its own, with its callback not
      run; or it is in no slot and its callback has run exactly once. Any other call is in no slot and has not run. */
  lemma ExactlyOnce(timeout: nat, s: Ring, c: nat)
    requires Reachable(timeout, s)
    ensures forall k :: PendingIn(s, c, k) <==> k == c % SIZE && c in s.met && Runs(s, c) == 0
    ensures Runs(s, c) <= 1
    ensures Runs(s, c) == 1 ==> c in s.met
  {
    ReachableInv(timeout, s);
    assert CallOk(s, c);
    forall k | PendingIn(s, c, k) ensures k == c % SIZE && c in s.met && Runs(s, c) == 0 {
      assert SlotOk(timeout, s, k);
    }
  }

  /** A reply that carries the slot of call c runs the callback of c if and only if c is still pending. Otherwise it runs
      nothing, or the callback of another pending call of the same slot. */
  lemma AnswerReaches(timeout: nat, s: Ring, c: nat)
    requires Reachable(timeout, s) && |s.slots| == SIZE && c in s.met
    ensures var t := AnswerSlot(s, c % SIZE);
      && (Runs(t, c) == Runs(s, c) + 1 <==> Runs(s, c) == 0)
      && (t == s <==> forall d :: d in s.met && d % SIZE == c % SIZE ==> Runs(s, d) == 1)
      && (t != s ==> exists d: nat :: d % SIZE == c % SIZE && PendingIn(s, d, c % SIZE) && t.runs == s.runs + multiset{Run(d, Data)})
  {
    ReachableInv(timeout, s);
    var k := c % SIZE;
    var t := AnswerSlot(s, k);
    assert CallOk(s, c) && SlotOk(timeout, s, k);
    var d := s.slots[k].call;
    if s.slots[k].ts > 0 {
      assert CallOk(s, d) && PendingIn(s, d, k);
      assert |t.runs| == |s.runs| + 1;
    } else {
      forall e | e in s.met && e % SIZE == k ensures Runs(s, e) == 1 { assert CallOk(s, e); }
    }
  }

  /** A callback is handed data by a reply to its slot and by nothing else. */
  lemma DataOnlyByReply(timeout: nat, s: Ring, e: Event, c: nat)
    requires Reachable(timeout, s) && Enabled(s, e)
    ensures After(timeout, s, e).runs[Run(c, Data)] > s.runs[Run(c, Data)] <==> e.Answer? && PendingIn(s, c, e.k)
  {
    ReachableInv(timeout, s);
    assert e.Answer? ==> After(timeout, s, e) == AnswerSlot(s, e.k);
  }

  /** A callback is told of failure when its own call finds the slot in use, or when the sweep gives up on it: by the sweep's clock the call is
      older than the timeout, or it took the slot after that clock was read. */
  lemma NullOnlyByFailure(timeout: nat, s: Ring, e: Event, c: nat)
    requires Reachable(timeout, s) && Enabled(s, e) && s.now + timeout < CLOCK
    ensures After(timeout, s, e).runs[Run(c, Null)] > s.runs[Run(c, Null)] <==>
      || (e == Meet(c) && exists d :: PendingIn(s, d, c % SIZE))
      || (e == Check && PendingIn(s, c, s.sweeper.k) && c in s.met &&
          (s.sweeper.seen < s.met[c] || s.met[c] + timeout < s.sweeper.seen))
  {
    ReachableInv(timeout, s);
    if e == Meet(c) {
      assert s.slots[c % SIZE].ts > 0 ==> PendingIn(s, s.slots[c % SIZE].call, c % SIZE);
    } else if e == Check {
      assert SlotOk(timeout, s, s.sweeper.k) && CallOk(s, c);
    }
  }

  /** A call is turned away if and only if an earlier visitor of its slot is still pending there. */
  lemma TurnedAwayIffBlocked(timeout: nat, s: Ring, c: nat)
    requires Reachable(timeout, s) && Enabled(s, Meet(c))
    ensures Runs(MeetSlot(s, c), c) == 1 <==> exists d :: d in s.met && d % SIZE == c % SIZE && Runs(s, d) == 0
    ensures Runs(MeetSlot(s, c), c) == 0 <==> PendingIn(MeetSlot(s, c), c, c % SIZE)
  {
    ReachableInv(timeout, s);
    var k := c % SIZE;
    assert CallOk(s, c) && SlotOk(timeout, s, k);
    forall d | d in s.met && d % SIZE == k && Runs(s, d) == 0 ensures s.slots[k].ts > 0 { assert CallOk(s, d); }
  }

  // ----- Calls complete in time -----

  /** No pending call is older than the timeout by the clock of the last sweep of its slot. */
  lemma PendingIsYoung(timeout: nat, s: Ring, c: nat)
    requires Reachable(timeout, s) && |s.seen| == SIZE && PendingIn(s, c, c % SIZE)
    ensures c in s.met && s.seen[c % SIZE] <= s.met[c] + timeout
  {
    ReachableInv(timeout, s);
    assert SlotOk(timeout, s, c % SIZE);
  }

  /** While the sweeps of a slot go by clocks at most `period` apart, a call completes within timeout + period. */
  lemma CompletesInTime(timeout: nat, period: nat, s: Ring, c: nat)
    requires Reachable(timeout, s) && |s.seen| == SIZE && c in s.met
    requires s.now <= s.seen[c % SIZE] + period && s.met[c] + timeout + period < s.now
    ensures Runs(s, c) == 1
  {
    ReachableInv(timeout, s);
    assert CallOk(s, c) && SlotOk(timeout, s, c % SIZE);
  }

  /** The sweep gives up on a call exactly when the call is older than the timeout by the sweep's clock or took the slot
      after that clock was read, when the unsigned difference wraps around. So it gives up only on calls that are
      older than the timeout if and only if its clock is not behind the call, or the call has grown old meanwhile. */
  lemma EarlyIffStale(timeout: nat, s: Ring)
    requires Reachable(timeout, s) && Enabled(s, Check) && s.now + timeout < CLOCK
    requires s.slots[s.sweeper.k].ts > 0
    ensures var slot, seen := s.slots[s.sweeper.k], s.sweeper.seen;
      && (Expires(timeout, seen, slot) <==> seen < slot.ts || slot.ts + timeout < seen)
      && ((Expires(timeout, seen, slot) ==> slot.ts + timeout < s.now) <==> slot.ts <= seen || slot.ts + timeout < s.now)
  {
    ReachableInv(timeout, s);
    var slot := s.slots[s.sweeper.k];
    assert SlotOk(timeout, s, s.sweeper.k) && CallOk(s, slot.call);
  }

  lemma LeadsStep(timeout: nat, s: Ring, t: Ring, e: Event)
    requires Leads(timeout, s, t) && Enabled(t, e)
    ensures Leads(timeout, s, After(timeout, t, e))
  {
    var ss :| Path(timeout, ss) && ss[0] == s && ss[|ss| - 1] == t;
    var u := After(timeout, t, e);
    var tt := ss + [u];
    assert Next(timeout, t, u);
    forall i | 0 <= i < |tt| - 1 ensures Next(timeout, tt[i], tt[i + 1]) {
      if i < |ss| - 1 { assert Next(timeout, ss[i], ss[i + 1]); }
    }
    assert Path(timeout, tt) && tt[0] == s && tt[|tt| - 1] == u;
  }

  lemma LeadsSelf(timeout: nat, s: Ring)
    ensures Leads(timeout, s, s)
  {
    var ss := [s];
    assert Path(timeout, ss) && ss[0] == s && ss[|ss| - 1] == s;
  }

  lemma {:induction false} PathLater(timeout: nat, ss: seq<Ring>, i: nat)
    requires Path(timeout, ss) && i < |ss| && Inv(timeout, ss[0])
    ensures Later(ss[0], ss[i])
  {
    hide Inv;
    if i > 0 {
      PathLater(timeout, ss, i - 1);
      PathKeeps(timeout, ss, i - 1);
      assert Next(timeout, ss[i - 1], ss[i - 1 + 1]);
      var e :| Enabled(ss[i - 1], e) && ss[i] == After(timeout, ss[i - 1], e);
      StepLater(timeout, ss[i - 1], e);
    }
  }

  /** What no step undoes: calls keep their slots and visits, a callback that has run has run, clocks go forward. */
  ghost predicate Later(s: Ring, t: Ring) {
    && s.now <= t.now && s.corr <= t.corr && s.runs <= t.runs && |s.seen| == |t.seen|
    && (forall c :: c in s.met ==> c in t.met && t.met[c] == s.met[c])
  }

  lemma StepLater(timeout: nat, s: Ring, e: Event)
    requires Inv(timeout, s) && Enabled(s, e)
    ensures Later(s, After(timeout, s, e))
  {
  }

  lemma ReachStep(timeout: nat, s: Ring, e: Event)
    requires Reachable(timeout, s) && Enabled(s, e)
    ensures Reachable(timeout, After(timeout, s, e))
  {
    var s0 :| Init(s0) && Leads(timeout, s0, s);
    LeadsStep(timeout, s0, s, e);
  }

  function Start(now: nat): Ring {
    Ring(now, 0, [], seq(SIZE, _ => Slot(0, 0)), map[], multiset{}, Before(0), seq(SIZE, _ => 0))
  }

  lemma StartReachable(timeout: nat, now: nat)
    requires now > 0
    ensures Reachable(timeout, Start(now))
  {
    LeadsSelf(timeout, Start(now));
    assert Init(Start(now));
  }

  /** Such a sweep happens: a call that has waited no time at all is given up. */
  lemma FreshCallExpires(timeout: nat) returns (s: Ring)
    requires timeout < CLOCK - 1
    ensures Reachable(timeout, s) && Enabled(s, Check)
    ensures var slot := s.slots[s.sweeper.k]; slot.ts == s.now && Expires(timeout, s.sweeper.seen, slot)
  {
    hide Reachable;
    StartReachable(timeout, 1);
    s := Start(1);
    ReachStep(timeout, s, Look);
    s := After(timeout, s, Look);
    ReachStep(timeout, s, Tick);
    s := After(timeout, s, Tick);
    ReachStep(timeout, s, Draw);
    s := After(timeout, s, Draw);
    ReachStep(timeout, s, Meet(0));
    s := After(timeout, s, Meet(0));
  }
}
