/** The service threads of the scheduler around their shared queue. A step is what one thread does between taking the mutex and
    giving it up again, one task running to its end, one call of schedule or stop, or one unit of time. */
module TaskScheduler {

  /** Ids follow the order of the schedule calls. */
  datatype Task = Task(time: int, id: nat)

  /** Where a service thread stands: about to take the mutex, waiting for a task, waiting until a time, running a task
      or gone. */
  datatype Thread = Ready | Idle | Timed(until: int) | Running(task: Task) | Exited

  datatype Start = Start(task: Task, at: int)

  /** `all` lists the tasks as they were scheduled, `started` when each began; `late` says that someone other than a task
      scheduled after stop(true). */
  datatype State = State(now: int, queue: seq<Task>, threads: seq<Thread>, all: seq<Task>, started: seq<Start>,
                         finished: seq<Task>, stopRequested: bool, stopWhenEmpty: bool, late: bool)

  datatype Caller = Outside | Inside(i: nat)

  datatype Event =
    | Tick
    | Enter(i: nat)
    | Expire(i: nat)
    | Finish(i: nat)
    | Schedule(time: int, who: Caller)
    | Stop(drain: bool)

  // ----- The queue -----

  /** A multimap insertion: after every task that is not later. */
  function Insert(q: seq<Task>, t: Task): seq<Task> {
    if q == [] || t.time < q[0].time then [t] + q else [q[0]] + Insert(q[1..], t)
  }

  predicate Earlier(a: Task, b: Task) {
    a.time < b.time || (a.time == b.time && a.id < b.id)
  }

  predicate Ordered(q: seq<Task>) {
    forall i, j :: 0 <= i < j < |q| ==> Earlier(q[i], q[j])
  }

  lemma {:induction false} InsertAdds(q: seq<Task>, t: Task, u: Task)
    ensures multiset(Insert(q, t))[u] == multiset(q)[u] + if u == t then 1 else 0
  {
    if q != [] && t.time >= q[0].time {
      assert q == [q[0]] + q[1..];
      InsertAdds(q[1..], t, u);
      assert multiset(q)[u] == multiset{q[0]}[u] + multiset(q[1..])[u];
      assert multiset(Insert(q, t))[u] == multiset{q[0]}[u] + multiset(Insert(q[1..], t))[u];
    }
  }

  lemma InsertMembers(q: seq<Task>, t: Task, u: Task)
    ensures u in Insert(q, t) <==> u in q || u == t
  {
    InsertAdds(q, t, u);
    assert u in Insert(q, t) <==> multiset(Insert(q, t))[u] > 0;
    assert u in q <==> multiset(q)[u] > 0;
  }

  /** The first task after an insertion is no later than the first one before it. */
  lemma InsertHead(q: seq<Task>, t: Task)
    ensures Insert(q, t) != [] && (q != [] ==> Insert(q, t)[0].time <= q[0].time)
  {
  }

  lemma OrderedCons(t: Task, q: seq<Task>)
    requires Ordered(q) && forall u :: u in q ==> Earlier(t, u)
    ensures Ordered([t] + q)
  {
    var r := [t] + q;
    assert forall j :: 1 <= j < |r| ==> r[j] == q[j - 1];
  }

  /** The queue stays in order of time, and of schedule calls among equal times. */
  lemma {:induction false} InsertOrdered(q: seq<Task>, t: Task)
    requires Ordered(q) && forall u :: u in q ==> u.id < t.id
    ensures Ordered(Insert(q, t))
  {
    if q == [] || t.time < q[0].time {
      forall u | u in q ensures Earlier(t, u) {}
      OrderedCons(t, q);
    } else {
      InsertOrdered(q[1..], t);
      forall u | u in Insert(q[1..], t) ensures Earlier(q[0], u) { InsertMembers(q[1..], t, u); }
      OrderedCons(q[0], Insert(q[1..], t));
    }
  }

  // ----- Steps -----

  /** Where a thread goes with the mutex held and no timeout behind it. */
  function Resolve(s: State): Thread {
    if s.stopRequested || (s.stopWhenEmpty && s.queue == []) then Exited
    else if s.queue == [] then Idle
    else Timed(s.queue[0].time)
  }

  predicate Parked(t: Thread) {
    t.Ready? || t.Idle? || t.Timed?
  }

  predicate Enabled(s: State, e: Event) {
    match e
    case Tick => true
    case Enter(i) => i < |s.threads| && Parked(s.threads[i])
    case Expire(i) => i < |s.threads| && s.threads[i].Timed? && s.threads[i].until <= s.now
    case Finish(i) => i < |s.threads| && s.threads[i].Running?
    case Schedule(_, who) => who.Inside? ==> who.i < |s.threads| && s.threads[who.i].Running?
    case Stop(_) => true
  }

  /** A thread whose wait timed out takes the first task there is now, which need not be the one it waited for. */
  function AfterTimeout(s: State, i: nat): State
    requires i < |s.threads|
  {
    if s.stopRequested || s.queue == [] then s.(threads := s.threads[i := Resolve(s)])
    else
      var t := s.queue[0];
      s.(queue := s.queue[1..], threads := s.threads[i := Running(t)], started := s.started + [Start(t, s.now)])
  }

  function Scheduled(s: State, time: int, who: Caller): State {
    var t := Task(time, |s.all|);
    s.(queue := Insert(s.queue, t), all := s.all + [t], late := s.late || (s.stopWhenEmpty && who.Outside?))
  }

  function After(s: State, e: Event): State
    requires Enabled(s, e)
  {
    match e
    case Tick => s.(now := s.now + 1)
    case Enter(i) => s.(threads := s.threads[i := Resolve(s)])
    case Expire(i) => AfterTimeout(s, i)
    case Finish(i) => s.(threads := s.threads[i := Ready], finished := s.finished + [s.threads[i].task])
    case Schedule(time, who) => Scheduled(s, time, who)
    case Stop(drain) => if drain then s.(stopWhenEmpty := true) else s.(stopRequested := true)
  }

  ghost predicate Init(n: nat, s: State) {
    && s.threads == seq(n, _ => Ready) && s.queue == [] && s.all == [] && s.started == [] && s.finished == []
    && !s.stopRequested && !s.stopWhenEmpty && !s.late
  }

  ghost predicate Next(s: State, t: State) {
    exists e :: Enabled(s, e) && t == After(s, e)
  }

  ghost predicate IsRun(n: nat, ss: seq<State>) {
    |ss| > 0 && Init(n, ss[0]) && forall k :: 0 <= k < |ss| - 1 ==> Next(ss[k], ss[k + 1])
  }

  ghost predicate Reachable(n: nat, s: State) {
    exists ss :: IsRun(n, ss) && ss[|ss| - 1] == s
  }

  // ----- Every task is in one place -----

  function Held(threads: seq<Thread>, t: Task): nat {
    if threads == [] then 0 else Runs(threads[0], t) + Held(threads[1..], t)
  }

  function Runs(thread: Thread, t: Task): nat {
    if thread == Running(t) then 1 else 0
  }

  lemma {:induction false} HeldUpdate(threads: seq<Thread>, i: nat, x: Thread, t: Task)
    requires i < |threads|
    ensures Held(threads[i := x], t) + Runs(threads[i], t) == Held(threads, t) + Runs(x, t)
  {
    if i == 0 {
      assert threads[0 := x][1..] == threads[1..];
    } else {
      assert threads[i := x][1..] == threads[1..][i - 1 := x];
      HeldUpdate(threads[1..], i - 1, x, t);
    }
  }

  lemma {:induction false} HeldByNobody(threads: seq<Thread>, t: Task)
    requires forall i :: 0 <= i < |threads| ==> !threads[i].Running?
    ensures Held(threads, t) == 0
  {
    if threads != [] { HeldByNobody(threads[1..], t); }
  }

  /** How often a task is queued, running or finished. */
  function Places(s: State, t: Task): nat {
    multiset(s.queue)[t] + Held(s.threads, t) + multiset(s.finished)[t]
  }

  predicate IsScheduled(s: State, t: Task) {
    t.id < |s.all| && s.all[t.id] == t
  }

  ghost predicate Conserved(s: State) {
    && (forall k :: 0 <= k < |s.all| ==> s.all[k].id == k)
    && forall t :: Places(s, t) == if IsScheduled(s, t) then 1 else 0
  }

  ghost predicate AllExited(s: State) {
    forall i :: 0 <= i < |s.threads| ==> s.threads[i].Exited?
  }

  /** A thread leaves only when stopped, and the last one to leave under stop(true) leaves an empty queue. */
  ghost predicate Drains(s: State) {
    && (forall i :: 0 <= i < |s.threads| && s.threads[i].Exited? ==> s.stopRequested || s.stopWhenEmpty)
    && (s.threads != [] && AllExited(s) && !s.stopRequested && !s.late ==> s.queue == [])
  }

  ghost predicate Inv(s: State) {
    Ordered(s.queue) && Conserved(s) && Drains(s)
  }

  lemma QueuedIsScheduled(s: State, t: Task)
    requires Conserved(s) && t in s.queue
    ensures IsScheduled(s, t)
  {
    assert multiset(s.queue)[t] > 0;
    assert Places(s, t) > 0;
  }

  lemma ScheduleConserves(s: State, time: int, who: Caller)
    requires Conserved(s)
    ensures Conserved(Scheduled(s, time, who))
  {
    var t := Task(time, |s.all|);
    var r := Scheduled(s, time, who);
    forall u ensures Places(r, u) == if IsScheduled(r, u) then 1 else 0 {
      InsertAdds(s.queue, t, u);
      assert Places(s, u) == if IsScheduled(s, u) then 1 else 0;
    }
  }

  lemma ScheduleKeeps(s: State, time: int, who: Caller)
    requires Inv(s) && Enabled(s, Schedule(time, who))
    ensures Inv(Scheduled(s, time, who))
  {
    hide Conserved;
    var t := Task(time, |s.all|);
    forall u | u in s.queue ensures u.id < t.id { QueuedIsScheduled(s, u); }
    InsertOrdered(s.queue, t);
    ScheduleConserves(s, time, who);
    assert s.threads != [] && AllExited(s) ==> s.threads[0].Exited?;
    assert who.Inside? ==> !AllExited(s);
  }

  /** A thread moves on, and a task with it from the queue to the thread or from the thread to the finished ones. */
  lemma MoveConserves(s: State, r: State, i: nat)
    requires Conserved(s) && r.all == s.all
    requires i < |s.threads| == |r.threads| && r.threads == s.threads[i := r.threads[i]]
    requires forall t :: multiset(r.queue)[t] + Runs(r.threads[i], t) + multiset(r.finished)[t] ==
                         multiset(s.queue)[t] + Runs(s.threads[i], t) + multiset(s.finished)[t]
    ensures Conserved(r)
  {
    forall t ensures Places(r, t) == Places(s, t) { HeldUpdate(s.threads, i, r.threads[i], t); }
    forall t ensures Places(r, t) == if IsScheduled(r, t) then 1 else 0 {
      assert Places(s, t) == if IsScheduled(s, t) then 1 else 0;
    }
  }

  lemma EnterKeeps(s: State, i: nat)
    requires Inv(s) && i < |s.threads| && Parked(s.threads[i])
    ensures Inv(s.(threads := s.threads[i := Resolve(s)]))
  {
    hide Conserved;
    var r := s.(threads := s.threads[i := Resolve(s)]);
    assert r.threads[i] == Resolve(s);
    MoveConserves(s, r, i);
  }

  lemma PopConserves(s: State, i: nat)
    requires Conserved(s) && i < |s.threads| && s.threads[i].Timed? && !s.stopRequested && s.queue != []
    ensures Conserved(AfterTimeout(s, i))
  {
    hide Conserved;
    var r := AfterTimeout(s, i);
    assert r.threads[i] == Running(s.queue[0]);
    assert s.queue == [s.queue[0]] + r.queue;
    assert forall t :: multiset(s.queue)[t] == multiset{s.queue[0]}[t] + multiset(r.queue)[t];
    MoveConserves(s, r, i);
  }

  lemma PopKeeps(s: State, i: nat)
    requires Inv(s) && i < |s.threads| && s.threads[i].Timed? && !s.stopRequested && s.queue != []
    ensures Inv(AfterTimeout(s, i))
  {
    hide Conserved;
    PopConserves(s, i);
    assert AfterTimeout(s, i).threads[i].Running?;
  }

  lemma FinishKeeps(s: State, i: nat)
    requires Inv(s) && Enabled(s, Finish(i))
    ensures Inv(After(s, Finish(i)))
  {
    hide Conserved;
    var r := After(s, Finish(i));
    assert r.threads[i].Ready?;
    MoveConserves(s, r, i);
  }

  lemma SameKeeps(s: State, e: Event)
    requires Inv(s) && (e.Tick? || e.Stop?)
    ensures Inv(After(s, e))
  {
    var r := After(s, e);
    forall t ensures Places(r, t) == if IsScheduled(r, t) then 1 else 0 {
      assert Places(s, t) == if IsScheduled(s, t) then 1 else 0;
    }
  }

  lemma NextKeeps(s: State, e: Event)
    requires Inv(s) && Enabled(s, e)
    ensures Inv(After(s, e))
  {
    hide Inv;
    match e
    case Tick => SameKeeps(s, e);
    case Enter(i) => EnterKeeps(s, i);
    case Expire(i) => if s.stopRequested || s.queue == [] { EnterKeeps(s, i); } else { PopKeeps(s, i); }
    case Finish(i) => FinishKeeps(s, i);
    case Schedule(time, who) => ScheduleKeeps(s, time, who);
    case Stop(drain) => SameKeeps(s, e);
  }

  lemma InitInv(n: nat, s: State)
    requires Init(n, s)
    ensures Inv(s) && |s.threads| == n
  {
    forall t ensures Places(s, t) == 0 { HeldByNobody(s.threads, t); }
  }

  lemma {:induction false} RunKeeps(n: nat, ss: seq<State>, k: nat)
    requires IsRun(n, ss) && k < |ss|
    ensures Inv(ss[k]) && |ss[k].threads| == n
  {
    hide Inv;
    if k == 0 {
      InitInv(n, ss[0]);
    } else {
      RunKeeps(n, ss, k - 1);
      assert Next(ss[k - 1], ss[k - 1 + 1]);
      var e :| Enabled(ss[k - 1], e) && ss[k] == After(ss[k - 1], e);
      NextKeeps(ss[k - 1], e);
    }
  }

  lemma ReachableInv(n: nat, s: State)
    requires Reachable(n, s)
    ensures Inv(s) && |s.threads| == n
  {
    hide Inv;
    var ss :| IsRun(n, ss) && ss[|ss| - 1] == s;
    RunKeeps(n, ss, |ss| - 1);
  }

  /** However many threads serve the queue, every scheduled task is in exactly one of queue, thread and finished list, once;
      and nothing else is. */
  lemma InOnePlace(n: nat, s: State, t: Task)
    requires Reachable(n, s)
    ensures multiset(s.queue)[t] + Held(s.threads, t) + multiset(s.finished)[t] == if t in s.all then 1 else 0
  {
    ReachableInv(n, s);
    assert Places(s, t) == if IsScheduled(s, t) then 1 else 0;
    assert t in s.all <==> IsScheduled(s, t);
  }

  /** The task a thread takes is earliest in the queue, and of those due at the same time the one scheduled first. */
  lemma TakesEarliest(n: nat, s: State, i: nat)
    requires Reachable(n, s) && Enabled(s, Expire(i)) && After(s, Expire(i)).threads[i].Running?
    ensures var t := After(s, Expire(i)).threads[i].task;
      t in s.queue && forall u :: u in s.queue && u != t ==> Earlier(t, u)
  {
    ReachableInv(n, s);
  }

  /** When all threads have left under stop(true), with no stop(false) and no outside call of schedule after it, every task has
      run exactly once. */
  lemma DrainCompletes(n: nat, s: State)
    requires Reachable(n, s) && n > 0 && AllExited(s) && !s.stopRequested && !s.late
    ensures s.queue == [] && forall t :: multiset(s.finished)[t] == if t in s.all then 1 else 0
  {
    ReachableInv(n, s);
    forall t ensures multiset(s.finished)[t] == if t in s.all then 1 else 0 {
      HeldByNobody(s.threads, t);
      InOnePlace(n, s, t);
    }
  }

  // ----- Runs by their events -----

  ghost predicate IsTrace(n: nat, ss: seq<State>, es: seq<Event>) {
    && |ss| == |es| + 1 && Init(n, ss[0])
    && forall k :: 0 <= k < |es| ==> Enabled(ss[k], es[k]) && ss[k + 1] == After(ss[k], es[k])
  }

  lemma TraceIsRun(n: nat, ss: seq<State>, es: seq<Event>, k: nat)
    requires IsTrace(n, ss, es) && k < |ss|
    ensures Reachable(n, ss[k])
  {
    var ts := ss[..k + 1];
    forall j | 0 <= j < |ts| - 1 ensures Next(ts[j], ts[j + 1]) {
      assert Enabled(ss[j], es[j]) && ss[j + 1] == After(ss[j], es[j]);
    }
    assert IsRun(n, ts) && ts[|ts| - 1] == ss[k];
  }

  /** The tasks that a list of events schedules: their times in the order of the calls. */
  function Asked(es: seq<Event>): seq<Task> {
    if es == [] then []
    else
      var before, e := Asked(es[..|es| - 1]), es[|es| - 1];
      if e.Schedule? then before + [Task(e.time, |before|)] else before
  }

  ghost predicate StoppedBy(es: seq<Event>, k: nat, drain: bool) {
    exists j :: 0 <= j < k && j < |es| && es[j] == Stop(drain)
  }

  ghost predicate LateBy(es: seq<Event>, k: nat) {
    exists j :: 0 <= j < k && j < |es| && StoppedBy(es, j, true) && es[j].Schedule? && es[j].who.Outside?
  }

  lemma StoppedSnoc(es: seq<Event>, k: nat, drain: bool)
    requires k < |es|
    ensures StoppedBy(es, k + 1, drain) <==> StoppedBy(es, k, drain) || es[k] == Stop(drain)
  {
  }

  lemma LateSnoc(es: seq<Event>, k: nat)
    requires k < |es|
    ensures LateBy(es, k + 1) <==> LateBy(es, k) || (StoppedBy(es, k, true) && es[k].Schedule? && es[k].who.Outside?)
  {
    hide StoppedBy;
  }

  /** The flags say which stops there were. */
  lemma {:induction false} TraceStops(n: nat, ss: seq<State>, es: seq<Event>, k: nat)
    requires IsTrace(n, ss, es) && k < |ss|
    ensures ss[k].stopRequested <==> StoppedBy(es, k, false)
    ensures ss[k].stopWhenEmpty <==> StoppedBy(es, k, true)
    ensures ss[k].late <==> LateBy(es, k)
  {
    hide StoppedBy, LateBy;
    if k == 0 {
      StoppedNever(es);
    } else {
      TraceStops(n, ss, es, k - 1);
      assert ss[k] == After(ss[k - 1], es[k - 1]) by { assert ss[k - 1 + 1] == ss[k]; }
      StoppedSnoc(es, k - 1, false);
      StoppedSnoc(es, k - 1, true);
      LateSnoc(es, k - 1);
    }
  }

  lemma StoppedNever(es: seq<Event>)
    ensures !StoppedBy(es, 0, true) && !StoppedBy(es, 0, false) && !LateBy(es, 0)
  {
  }

  /** The tasks are those of the schedule calls. */
  lemma {:induction false} TraceAsks(n: nat, ss: seq<State>, es: seq<Event>, k: nat)
    requires IsTrace(n, ss, es) && k < |ss|
    ensures ss[k].all == Asked(es[..k])
  {
    if k > 0 {
      TraceAsks(n, ss, es, k - 1);
      assert ss[k] == After(ss[k - 1], es[k - 1]) by { assert ss[k - 1 + 1] == ss[k]; }
      assert es[..k][..k - 1] == es[..k - 1] && es[..k][k - 1] == es[k - 1];
    }
  }

  /** A run whose only stops are stop(true), with no outside call of schedule after the first of them: when all threads have left, every
      task that was ever scheduled has run exactly once, and nothing else has. */
  lemma DrainRunsAll(n: nat, ss: seq<State>, es: seq<Event>)
    requires IsTrace(n, ss, es) && n > 0 && AllExited(ss[|es|])
    requires forall k :: 0 <= k < |es| && es[k].Stop? ==> es[k].drain
    requires !LateBy(es, |es|)
    ensures ss[|es|].queue == []
    ensures forall t :: multiset(ss[|es|].finished)[t] == if t in Asked(es) then 1 else 0
  {
    TraceIsRun(n, ss, es, |es|);
    TraceStops(n, ss, es, |es|);
    TraceAsks(n, ss, es, |es|);
    assert es[..|es|] == es;
    DrainCompletes(n, ss[|es|]);
  }

  /** A thread that acts after stop(false) leaves, and starts nothing. */
  lemma StopIsPrompt(s: State, e: Event, i: nat)
    requires s.stopRequested && Enabled(s, e) && (e == Enter(i) || e == Expire(i))
    ensures var t := After(s, e); t.threads == s.threads[i := Exited] && t.queue == s.queue && t.started == s.started
  {
  }

  /** After stop(false) no task is started any more. */
  lemma {:induction false} StoppedStartsNothing(n: nat, ss: seq<State>, es: seq<Event>, a: nat, k: nat)
    requires IsTrace(n, ss, es) && a < k < |ss| && es[a] == Stop(false)
    ensures ss[k].stopRequested && ss[k].started == ss[a].started
  {
    assert ss[k] == After(ss[k - 1], es[k - 1]) by { assert ss[k - 1 + 1] == ss[k]; }
    if k > a + 1 {
      StoppedStartsNothing(n, ss, es, a, k - 1);
    }
  }

  /** A thread that is free takes the first task when that is due, in its next two actions, unless it has been told to stop. */
  lemma DueTaskStarts(n: nat, s: State, i: nat)
    requires Reachable(n, s) && i < n && !s.stopRequested && s.queue != [] && s.queue[0].time <= s.now
    requires |s.threads| == n && Parked(s.threads[i])
    ensures var t := After(s, Enter(i));
      Enabled(t, Expire(i)) && After(t, Expire(i)).started == s.started + [Start(s.queue[0], s.now)]
  {
  }

  /** A free thread waits for the first task's time, and without a limit only when there is no task. */
  lemma WaitsForFirst(s: State, i: nat)
    requires i < |s.threads| && Parked(s.threads[i]) && !s.stopRequested
    ensures var t := After(s, Enter(i)).threads[i];
      if s.queue != [] then t == Timed(s.queue[0].time) else if s.stopWhenEmpty then t == Exited else t == Idle
  {
  }

  // ----- Never early -----

  ghost predicate NeverEarly(s: State) {
    forall k :: 0 <= k < |s.started| ==> s.started[k].task.time <= s.started[k].at
  }

  /** A single thread waits for a time at which the first task is due: only it removes tasks, and insertions can only move the
      first task forward. */
  ghost predicate Single(s: State) {
    && NeverEarly(s)
    && forall i :: 0 <= i < |s.threads| && s.threads[i].Timed? ==> s.queue != [] && s.queue[0].time <= s.threads[i].until
  }

  lemma SingleKeeps(s: State, e: Event)
    requires Single(s) && |s.threads| <= 1 && Enabled(s, e)
    ensures Single(After(s, e))
  {
    if e.Schedule? { InsertHead(s.queue, Task(e.time, |s.all|)); }
  }

  lemma {:induction false} SingleRun(n: nat, ss: seq<State>, k: nat)
    requires IsRun(n, ss) && n <= 1 && k < |ss|
    ensures Single(ss[k])
  {
    if k > 0 {
      SingleRun(n, ss, k - 1);
      RunKeeps(n, ss, k - 1);
      hide Inv;
      assert Next(ss[k - 1], ss[k - 1 + 1]);
      var e :| Enabled(ss[k - 1], e) && ss[k] == After(ss[k - 1], e);
      SingleKeeps(ss[k - 1], e);
    }
  }

  lemma ReachStep(n: nat, s: State, e: Event)
    requires Reachable(n, s) && Enabled(s, e)
    ensures Reachable(n, After(s, e))
  {
    var ss :| IsRun(n, ss) && ss[|ss| - 1] == s;
    var t := After(s, e);
    var tt := ss + [t];
    assert Next(s, t);
    forall k | 0 <= k < |tt| - 1 ensures Next(tt[k], tt[k + 1]) {
      if k < |ss| - 1 { assert Next(ss[k], ss[k + 1]); }
    }
    assert IsRun(n, tt) && tt[|tt| - 1] == t;
  }

  /** Two threads wait for the same task; the second one takes the next task, before its time. */
  lemma EarlyStart(n: nat) returns (s: State)
    requires n >= 2
    ensures Reachable(n, s) && !NeverEarly(s)
  {
    hide Reachable;
    s := Begin(n, 0);
    BeginReachable(n, 0);
    ReachStep(n, s, Schedule(0, Outside));
    s := After(s, Schedule(0, Outside));
    ReachStep(n, s, Schedule(9, Outside));
    s := After(s, Schedule(9, Outside));
    assert [Task(0, 0)][1..] == [];
    assert s.queue == [Task(0, 0)] + Insert([], Task(9, 1));
    ReachStep(n, s, Enter(0));
    s := After(s, Enter(0));
    ReachStep(n, s, Enter(1));
    s := After(s, Enter(1));
    ReachStep(n, s, Expire(0));
    s := After(s, Expire(0));
    ReachStep(n, s, Expire(1));
    s := After(s, Expire(1));
    assert s.started[1] == Start(Task(9, 1), 0);
  }

  function Begin(n: nat, now: int): State {
    State(now, [], seq(n, _ => Ready), [], [], [], false, false, false)
  }

  lemma BeginReachable(n: nat, now: int)
    ensures Reachable(n, Begin(n, now))
  {
    var ss := [Begin(n, now)];
    assert IsRun(n, ss) && ss[|ss| - 1] == Begin(n, now);
  }

  /** No run ever starts a task before its time if and only if there is at most one service thread. */
  lemma NeverEarlyIffSingle(n: nat)
    ensures (forall s :: Reachable(n, s) ==> NeverEarly(s)) <==> n <= 1
  {
    if n <= 1 {
      forall s | Reachable(n, s) ensures NeverEarly(s) {
        var ss :| IsRun(n, ss) && ss[|ss| - 1] == s;
        SingleRun(n, ss, |ss| - 1);
      }
    } else {
      var s := EarlyStart(n);
    }
  }
}
