/** Scheduler: the service loop as the source writes it. While a thread waits or runs a task it does not hold the mutex,
    and the others may act. */
module SchedulerService {
  import opened TaskScheduler

  /** Threads still serving the queue. */
  function Serving(threads: seq<Thread>): nat {
    if threads == [] then 0 else (if threads[0].Exited? then 0 else 1) + Serving(threads[1..])
  }

  lemma {:induction false} ServingUpdate(threads: seq<Thread>, i: nat, t: Thread)
    requires i < |threads| && !threads[i].Exited?
    ensures Serving(threads) > 0
    ensures Serving(threads[i := t]) == Serving(threads) - if t.Exited? then 1 else 0
  {
    if i == 0 {
      assert threads[0 := t][1..] == threads[1..];
    } else {
      assert threads[i := t][1..] == threads[1..][i - 1 := t];
      ServingUpdate(threads[1..], i - 1, t);
    }
  }

  lemma {:induction false} ServingAll(n: nat)
    ensures Serving(seq(n, _ => Ready)) == n
  {
    if n > 0 {
      assert seq(n, _ => Ready)[1..] == seq(n - 1, _ => Ready);
      ServingAll(n - 1);
    }
  }

  /** What the destructor asserts: the count of threads is zero exactly when all have left. */
  lemma {:induction false} ServingNone(threads: seq<Thread>)
    ensures Serving(threads) == 0 <==> forall i :: 0 <= i < |threads| ==> threads[i].Exited?
  {
    if threads != [] {
      ServingNone(threads[1..]);
      assert forall i :: 1 <= i < |threads| ==> threads[i] == threads[1..][i - 1];
    }
  }

  /** Goes to the position after every task that is not later. */
  method InsertTask(q: seq<Task>, t: Task) returns (r: seq<Task>)
    ensures r == Insert(q, t)
  {
    var k := 0;
    while k < |q| && q[k].time <= t.time
      invariant k <= |q| && Insert(q, t) == q[..k] + Insert(q[k..], t)
    {
      InsertSkips(q, k, t);
      k := k + 1;
    }
    r := q[..k] + [t] + q[k..];
    assert r == q[..k] + Insert(q[k..], t);
  }

  /** What a service thread does: it sleeps without a limit, wakes from a timed wait (with a task due or not), takes and runs a task, leaves. */
  datatype Act = Slept | Woke(due: bool) | Took(task: Task) | Ran(task: Task) | Left

  function Waits(acts: seq<Act>): nat {
    if acts == [] then 0
    else Waits(acts[..|acts| - 1]) + if acts[|acts| - 1].Slept? || acts[|acts| - 1].Woke? then 1 else 0
  }

  /** Whenever a task is due the thread takes one and runs it, and it takes none at other times. */
  ghost predicate Serves(acts: seq<Act>) {
    var n := |acts|;
    || n == 0
    || ((acts[n - 1] == Slept || acts[n - 1] == Woke(false)) && Serves(acts[..n - 1]))
    || (n >= 3 && acts[n - 3] == Woke(true) && acts[n - 2].Took? && acts[n - 1] == Ran(acts[n - 2].task) && Serves(acts[..n - 3]))
  }

  lemma WaitServes(acts: seq<Act>, a: Act)
    requires Serves(acts) && (a == Slept || a == Woke(false))
    ensures Serves(acts + [a]) && Waits(acts + [a]) == Waits(acts) + 1
  {
    assert (acts + [a])[..|acts|] == acts;
  }

  lemma RunServes(acts: seq<Act>, t: Task)
    requires Serves(acts)
    ensures Serves(acts + [Woke(true)] + [Took(t)] + [Ran(t)])
    ensures Waits(acts + [Woke(true)] + [Took(t)] + [Ran(t)]) == Waits(acts) + 1 == Waits(acts + [Woke(true)])
  {
    var a := acts + [Woke(true)];
    var b := a + [Took(t)];
    var c := b + [Ran(t)];
    assert a[..|acts|] == acts && b[..|a|] == a && c[..|b|] == b && c[..|c| - 3] == acts;
    assert Waits(a) == Waits(acts) + 1 && Waits(b) == Waits(a) && Waits(c) == Waits(b);
  }

  class Scheduler {
    const n: nat
    var queue: seq<Task>
    var stopRequested: bool
    var stopWhenEmpty: bool
    var serving: int
    var clock: int
    /** Names the tasks in the order of their schedule calls. */
    var calls: nat
    ghost var s: State
    /** What each thread has done so far. */
    ghost var acts: seq<seq<Act>>

    ghost predicate Valid()
      reads this
    {
      && queue == s.queue && stopRequested == s.stopRequested && stopWhenEmpty == s.stopWhenEmpty
      && clock == s.now && calls == |s.all| && serving == Serving(s.threads) && |s.threads| == n == |acts|
      && Reachable(n, s)
    }

    constructor (n: nat, now: int)
      ensures Valid() && s == Begin(n, now) && this.n == n
    {
      this.n := n;
      queue, stopRequested, stopWhenEmpty, serving, clock, calls := [], false, false, n, now, 0;
      s, acts := Begin(n, now), seq(n, _ => []);
      new;
      BeginReachable(n, now);
      ServingAll(n);
    }

    /** Whatever the other threads and callers do meanwhile. */
    method Others(ghost me: nat)
      requires Valid() && me < n
      modifies this
      ensures Valid() && s.threads[me] == old(s.threads[me]) && acts[me] == old(acts[me]) && s.now >= old(s.now)
    {
    }

    /** Puts an act on the record of its thread. */
    ghost method Record(me: nat, a: Act)
      requires Valid() && me < n
      modifies this`acts
      ensures Valid() && acts == old(acts)[me := old(acts[me]) + [a]]
    {
      acts := acts[me := acts[me] + [a]];
    }

    method AddTask(time: int, ghost who: Caller)
      requires Valid() && Enabled(s, Schedule(time, who))
      modifies this`queue, this`calls, this`s
      ensures Valid() && s == Scheduled(old(s), time, who)
    {
      hide Reachable;
      ReachStep(n, s, Schedule(time, who));
      queue := InsertTask(queue, Task(time, calls));
      calls := calls + 1;
      s := Scheduled(s, time, who);
    }

    method RequestStop(drain: bool)
      requires Valid()
      modifies this`stopWhenEmpty, this`stopRequested, this`s
      ensures Valid() && s == After(old(s), Stop(drain))
    {
      hide Reachable;
      ReachStep(n, s, Stop(drain));
      if drain {
        stopWhenEmpty := true;
      } else {
        stopRequested := true;
      }
      s := After(s, Stop(drain));
    }

    /** The untimed wait. */
    method WaitForTask(me: nat)
      requires Valid() && me < n && Parked(s.threads[me]) && !stopRequested && !stopWhenEmpty && queue == []
      modifies this
      ensures Valid() && s.threads[me] == Idle && acts[me] == old(acts[me]) + [Slept]
    {
      hide Reachable;
      ReachStep(n, s, Enter(me));
      ServingUpdate(s.threads, me, Idle);
      s := After(s, Enter(me));
      Record(me, Slept);
      Others(me);
    }

    /** The timed wait, for the first task: it may end early, and reports a timeout only when the time has come. */
    method WaitUntilDue(me: nat) returns (timeout: bool)
      requires Valid() && me < n && Parked(s.threads[me]) && !stopRequested && queue != []
      modifies this
      ensures Valid() && s.threads[me] == Timed(old(queue[0].time))
      ensures timeout ==> Enabled(s, Expire(me))
      ensures acts[me] == old(acts[me]) + [Woke(timeout && !stopRequested && queue != [])]
    {
      hide Reachable;
      var time := queue[0].time;
      ReachStep(n, s, Enter(me));
      ServingUpdate(s.threads, me, Timed(time));
      s := After(s, Enter(me));
      Others(me);
      timeout := *;
      if clock < time {
        timeout := false;
      }
      Record(me, Woke(timeout && !stopRequested && queue != []));
    }

    method Leave(me: nat)
      requires Valid() && me < n && Parked(s.threads[me]) && (stopRequested || (stopWhenEmpty && queue == []))
      modifies this`s, this`serving, this`acts
      ensures Valid() && s == After(old(s), Enter(me)) && s.threads[me] == Exited && acts[me] == old(acts[me]) + [Left]
    {
      hide Reachable;
      ReachStep(n, s, Enter(me));
      ServingUpdate(s.threads, me, Exited);
      serving := serving - 1;
      s := After(s, Enter(me));
      Record(me, Left);
    }

    /** Taking the first task with the mutex held. */
    method Take(me: nat) returns (task: Task)
      requires Valid() && me < n && Enabled(s, Expire(me)) && !stopRequested && queue != []
      modifies this`s, this`queue, this`acts
      ensures Valid() && s == After(old(s), Expire(me)) && s.threads[me] == Running(task)
      ensures acts[me] == old(acts[me]) + [Took(task)]
    {
      hide Reachable;
      ReachStep(n, s, Expire(me));
      ServingUpdate(s.threads, me, Running(queue[0]));
      task := queue[0];
      queue := queue[1..];
      s := After(s, Expire(me));
      Record(me, Took(task));
    }

    method Execute(me: nat, task: Task)
      requires Valid() && me < n && s.threads[me] == Running(task)
      modifies this
      ensures Valid() && s.threads[me] == Ready && acts[me] == old(acts[me]) + [Ran(task)]
    {
      hide Reachable;
      Others(me);
      ReachStep(n, s, Finish(me));
      ServingUpdate(s.threads, me, Ready);
      s := After(s, Finish(me));
      Record(me, Ran(task));
      Others(me);
    }

    /** The thread is free, and has done what the record says since it began. */
    ghost predicate Accounted(me: nat, acts0: seq<Act>, done: seq<Act>, more: seq<Act>)
      reads this
    {
      Valid() && me < n && Parked(s.threads[me]) && acts[me] == acts0 + done + more && Serves(done)
    }

    lemma Begins(me: nat)
      requires Valid() && me < n && Parked(s.threads[me])
      ensures Accounted(me, acts[me], [], []) && Waits([]) == 0
    {
      ServesNone();
    }

    lemma Pauses(me: nat, acts0: seq<Act>, done: seq<Act>)
      requires Accounted(me, acts0, done, [])
      ensures Valid() && me < n && Parked(s.threads[me]) && acts[me] == acts0 + done && Serves(done)
    {
    }

    method Sleep(me: nat, ghost acts0: seq<Act>, ghost done: seq<Act>)
      requires Accounted(me, acts0, done, []) && !stopRequested && !stopWhenEmpty && queue == []
      modifies this
      ensures Accounted(me, acts0, done + [Slept], []) && Waits(done + [Slept]) == Waits(done) + 1
    {
      hide Reachable, Serves, Waits;
      WaitForTask(me);
      WaitServes(done, Slept);
    }

    method Doze(me: nat, ghost acts0: seq<Act>, ghost done: seq<Act>) returns (timeout: bool)
      requires Accounted(me, acts0, done, []) && !stopRequested && queue != []
      modifies this
      ensures if timeout && !stopRequested && queue != []
              then Enabled(s, Expire(me)) && Accounted(me, acts0, done, [Woke(true)])
              else Accounted(me, acts0, done + [Woke(false)], []) && Waits(done + [Woke(false)]) == Waits(done) + 1
    {
      hide Reachable, Serves, Waits;
      timeout := WaitUntilDue(me);
      WaitServes(done, Woke(false));
    }

    method ServeOne(me: nat, ghost acts0: seq<Act>, ghost done: seq<Act>) returns (task: Task)
      requires Accounted(me, acts0, done, [Woke(true)]) && Enabled(s, Expire(me)) && !stopRequested && queue != []
      modifies this
      ensures var more := done + [Woke(true)] + [Took(task)] + [Ran(task)];
        Accounted(me, acts0, more, []) && Waits(more) == Waits(done) + 1
    {
      hide Reachable, Serves, Waits;
      task := Take(me);
      Execute(me, task);
      RunServes(done, task);
    }

    method Depart(me: nat, ghost acts0: seq<Act>, ghost done: seq<Act>)
      requires Accounted(me, acts0, done, []) && (stopRequested || (stopWhenEmpty && queue == []))
      modifies this
      ensures Valid() && me < n && s.threads[me] == Exited && acts[me] == acts0 + done + [Left] && Serves(done)
    {
      hide Reachable, Serves, Waits;
      Leave(me);
    }

    /** The service loop of one thread, followed through any number of waits. Every wait, every task taken and the exit
        is a step of the thread, so what holds of all runs holds of the loop. The loop runs a task whenever one is due, and ends by leaving unless
        it has been followed through all its waits. */
    method ServiceQueue(me: nat, waits: nat) returns (left: nat, ghost done: seq<Act>)
      requires Valid() && me < n && s.threads[me] == Ready
      modifies this
      ensures Valid() && Serves(done) && left + Waits(done) == waits
      ensures if s.threads[me] == Exited then acts[me] == old(acts[me]) + done + [Left]
              else left == 0 && Parked(s.threads[me]) && acts[me] == old(acts[me]) + done
    {
      hide Accounted, Serves, Waits, Enabled;
      ghost var acts0 := acts[me];
      left, done := waits, [];
      Begins(me);
      while !stopRequested && !(stopWhenEmpty && queue == [])
        invariant Accounted(me, acts0, done, []) && left + Waits(done) == waits
        decreases left
      {
        ghost var before := left;
        while !stopRequested && !stopWhenEmpty && queue == []
          invariant Accounted(me, acts0, done, []) && left + Waits(done) == waits
          invariant left < before || (left == before && !stopRequested && !(stopWhenEmpty && queue == []))
          decreases left
        {
          if left == 0 {
            Pauses(me, acts0, done);
            return;
          }
          left := left - 1;
          Sleep(me, acts0, done);
          done := done + [Slept];
        }
        var timeout := false;
        while !stopRequested && queue != [] && !timeout
          invariant left < before || (left == before && !stopRequested && queue != [] && !timeout)
          invariant if timeout && !stopRequested && queue != []
                    then Enabled(s, Expire(me)) && Accounted(me, acts0, done, [Woke(true)]) && left + Waits(done) + 1 == waits
                    else Accounted(me, acts0, done, []) && left + Waits(done) == waits
          decreases left, !timeout
        {
          if left == 0 {
            Pauses(me, acts0, done);
            return;
          }
          left := left - 1;
          timeout := Doze(me, acts0, done);
          if !(timeout && !stopRequested && queue != []) {
            done := done + [Woke(false)];
          }
        }
        if stopRequested { break; }
        if queue == [] { continue; }
        var task := ServeOne(me, acts0, done);
        done := done + [Woke(true)] + [Took(task)] + [Ran(task)];
      }
      Depart(me, acts0, done);
    }
  }

  lemma ServesNone()
    ensures Serves([]) && Waits([]) == 0
  {
  }

  lemma InsertSkips(q: seq<Task>, k: nat, t: Task)
    requires k < |q| && q[k].time <= t.time
    ensures q[..k] + Insert(q[k..], t) == q[..k + 1] + Insert(q[k + 1..], t)
  {
    assert q[k..][1..] == q[k + 1..];
    assert q[..k] + ([q[k]] + Insert(q[k + 1..], t)) == q[..k + 1] + Insert(q[k + 1..], t);
  }
}
