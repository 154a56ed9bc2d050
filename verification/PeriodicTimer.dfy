/** The periodic timer of a worker: each round reschedules itself with a delay that makes up for how late it ran. */
module PeriodicTimer {

  /** One call of scheduleEvery: its clock read and the delay it was given. */
  datatype Timer = Timer(start: int, delay: int)

  /** The clock after the task of a round, and the clock at the start of the next call. */
  datatype Round = Round(read: int, next: int)

  function Reschedule(period: int, t: Timer, r: Round): Timer {
    var skew := r.read - t.start - t.delay;
    Timer(r.next, period - skew)
  }

  /** The timer after some rounds whose task asked to go on. */
  function Play(period: int, t0: int, rounds: seq<Round>): Timer {
    if rounds == [] then Timer(t0, period)
    else Reschedule(period, Play(period, t0, rounds[..|rounds| - 1]), rounds[|rounds| - 1])
  }

  /** The delay handed to the scheduler. */
  function Requested(t: Timer): nat {
    if t.delay > 0 then t.delay else 0
  }

  function Gaps(rounds: seq<Round>): int {
    if rounds == [] then 0 else Gaps(rounds[..|rounds| - 1]) + rounds[|rounds| - 1].next - rounds[|rounds| - 1].read
  }

  /** Round k aims at t0 + (k + 1) * period plus the gaps between the two clock reads, whatever the lateness of the rounds
      before it. */
  lemma {:induction false} NoDrift(period: int, t0: int, rounds: seq<Round>)
    ensures var t := Play(period, t0, rounds);
      t.start + t.delay == t0 + (|rounds| + 1) * period + Gaps(rounds)
  {
    if rounds != [] {
      NoDrift(period, t0, rounds[..|rounds| - 1]);
    }
  }

  /** The requested delay is what is left until that target; it is reached exactly if and only if it is not already past. */
  lemma RequestsTarget(period: int, t0: int, rounds: seq<Round>)
    ensures var t, target := Play(period, t0, rounds), t0 + (|rounds| + 1) * period + Gaps(rounds);
      && (t.start + Requested(t) == if t.start <= target then target else t.start)
      && (t.start + Requested(t) == target <==> t.start <= target)
  {
    NoDrift(period, t0, rounds);
  }

  /** Lateness is forgotten: runs with as many rounds and the same gaps aim at the same time. */
  lemma LatenessForgotten(period: int, t0: int, a: seq<Round>, b: seq<Round>)
    requires |a| == |b| && Gaps(a) == Gaps(b)
    ensures Play(period, t0, a).start + Play(period, t0, a).delay == Play(period, t0, b).start + Play(period, t0, b).delay
  {
    NoDrift(period, t0, a);
    NoDrift(period, t0, b);
  }

  /** The clock goes forward and no round runs before the time it was requested for. */
  ghost predicate Plausible(period: int, t0: int, rounds: seq<Round>) {
    rounds != [] ==>
      var before := rounds[..|rounds| - 1];
      var t, r := Play(period, t0, before), rounds[|rounds| - 1];
      Plausible(period, t0, before) && t.start + Requested(t) <= r.read <= r.next
  }

  lemma {:induction false} GapsGrow(period: int, t0: int, rounds: seq<Round>)
    requires Plausible(period, t0, rounds)
    ensures Gaps(rounds) >= 0
  {
    if rounds != [] { GapsGrow(period, t0, rounds[..|rounds| - 1]); }
  }

  /** A timer that makes up for lateness still never gets ahead: n rounds take at least n periods. */
  lemma NeverAhead(period: int, t0: int, rounds: seq<Round>)
    requires Plausible(period, t0, rounds) && rounds != []
    ensures rounds[|rounds| - 1].read >= t0 + |rounds| * period
  {
    var before := rounds[..|rounds| - 1];
    GapsGrow(period, t0, before);
    NoDrift(period, t0, before);
  }
}
