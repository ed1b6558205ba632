/**
 * Cooperating workers over one list (agent/src/core/ScanService.ts, `runChunk` and
 * `runKnownDevicesTask`).
 *
 * A worker checks the guard and takes the next index in one turn of the event loop, then awaits its
 * probe; nothing says in which order turns come. With a deadline this is a discovery chunk, without
 * one it is a task over the known devices.
 */
module WorkerPool {
  import opened Wrappers

  const CONCURRENCY_LIMIT := 10

  datatype Worker = Ready | Busy(index: nat) | Stopped

  datatype Pool = Pool(length: nat, deadline: Option<int>, workers: seq<Worker>, taken: nat, finished: seq<nat>)

  /** One turn of worker `w`: at time `now` it looks at the guard, or its probe has just come back. */
  datatype Turn = Turn(w: nat, now: int)

  function Start(length: nat, deadline: Option<int>): Pool {
    Pool(length, deadline, seq(if length < CONCURRENCY_LIMIT then length else CONCURRENCY_LIMIT, _ => Ready), 0, [])
  }

  predicate MayTake(p: Pool, now: int) {
    p.taken < p.length && (p.deadline.Some? ==> now < p.deadline.value)
  }

  function Step(p: Pool, t: Turn): Pool {
    if t.w >= |p.workers| then p
    else
      match p.workers[t.w]
      case Ready =>
        if MayTake(p, t.now) then p.(workers := p.workers[t.w := Busy(p.taken)], taken := p.taken + 1)
        else p.(workers := p.workers[t.w := Stopped])
      case Busy(i) => p.(workers := p.workers[t.w := Ready], finished := p.finished + [i])
      case Stopped => p
  }

  function Run(p: Pool, turns: seq<Turn>): Pool
    decreases |turns|
  {
    if turns == [] then p else Run(Step(p, turns[0]), turns[1..])
  }

  /** A worker at the guard takes the next index exactly if one is left and the deadline, if any, is not reached. */
  lemma TakesIff(p: Pool, t: Turn)
    requires t.w < |p.workers| && p.workers[t.w] == Ready
    ensures var q := Step(p, t);
            && (q.taken == p.taken + 1 <==> p.taken < p.length && (p.deadline == None || t.now < p.deadline.value))
            && q.workers[t.w] == if p.taken < p.length && (p.deadline == None || t.now < p.deadline.value) then Busy(p.taken) else Stopped
  {
  }

  /** So no index of a chunk is taken from its deadline on. */
  lemma {:induction false} NothingTakenLate(p: Pool, turns: seq<Turn>)
    requires p.deadline.Some? && forall i | 0 <= i < |turns| :: turns[i].now >= p.deadline.value
    ensures Run(p, turns).taken == p.taken
    decreases |turns|
  {
    if turns != [] {
      NothingTakenLate(Step(p, turns[0]), turns[1..]);
    }
  }

  /** Promise.all has resolved. */
  predicate AllStopped(p: Pool) {
    forall w | 0 <= w < |p.workers| :: p.workers[w].Stopped?
  }

  /** Every index taken is with exactly one worker or was finished exactly once. */
  ghost predicate Shared(p: Pool) {
    && p.taken <= p.length
    && (forall j | 0 <= j < |p.finished| :: p.finished[j] < p.taken)
    && (forall j, k | 0 <= j < k < |p.finished| :: p.finished[j] != p.finished[k])
    && (forall w | 0 <= w < |p.workers| && p.workers[w].Busy? ::
          p.workers[w].index < p.taken && p.workers[w].index !in p.finished)
    && (forall v, w | 0 <= v < w < |p.workers| && p.workers[v].Busy? && p.workers[w].Busy? ::
          p.workers[v].index != p.workers[w].index)
    && (forall i | 0 <= i < p.taken :: i in p.finished || Held(p, i))
  }

  ghost predicate Held(p: Pool, i: nat) {
    exists w | 0 <= w < |p.workers| :: p.workers[w] == Busy(i)
  }

  lemma StepShares(p: Pool, t: Turn)
    requires Shared(p)
    ensures Shared(Step(p, t))
  {
    var q := Step(p, t);
    if t.w < |p.workers| {
      forall i | 0 <= i < q.taken
        ensures i in q.finished || Held(q, i)
      {
        if i == p.taken {
          assert q.workers[t.w] == Busy(i);
        } else if Held(p, i) {
          var w :| 0 <= w < |p.workers| && p.workers[w] == Busy(i);
          if w == t.w {
            assert q.finished[|p.finished|] == i;
          } else {
            assert q.workers[w] == Busy(i);
          }
        } else {
          assert i in p.finished;
        }
      }
    }
  }

  lemma {:induction false} RunShares(p: Pool, turns: seq<Turn>)
    requires Shared(p)
    ensures Shared(Run(p, turns))
    decreases |turns|
  {
    if turns != [] {
      StepShares(p, turns[0]);
      RunShares(Step(p, turns[0]), turns[1..]);
    }
  }

  /**
   * However up to ten workers interleave, when all have stopped the probed indices are exactly
   * 0..taken-1, each once: what `runChunk` reports as consumed is a prefix of the plan.
   */
  lemma ConsumedIsAPrefix(length: nat, deadline: Option<int>, turns: seq<Turn>)
    ensures var p := Run(Start(length, deadline), turns);
            |p.workers| <= 10 && (AllStopped(p) ==>
              && p.taken <= length
              && |p.finished| == p.taken
              && multiset(p.finished) == multiset(Indices(p.taken)))
  {
    var p := Run(Start(length, deadline), turns);
    RunShares(Start(length, deadline), turns);
    RunKeepsShape(Start(length, deadline), turns);
    if AllStopped(p) {
      DistinctCover(p.finished, p.taken);
    }
  }

  function Indices(n: nat): (s: seq<nat>) {
    seq(n, i requires 0 <= i => i)
  }

  lemma IndicesGrow(n: nat)
    ensures Indices(0) == []
    ensures multiset(Indices(n + 1)) == multiset(Indices(n)) + multiset{n}
  {
    assert Indices(n + 1) == Indices(n) + [n];
  }

  /** Distinct numbers below `n` that leave none out. */
  ghost predicate ExactCover(s: seq<nat>, n: nat) {
    && (forall j, k | 0 <= j < k < |s| :: s[j] != s[k])
    && (forall j | 0 <= j < |s| :: s[j] < n)
    && (forall i | 0 <= i < n :: i in s)
  }

  /** Such numbers are 0..n-1 in some order. */
  lemma {:induction false} DistinctCover(s: seq<nat>, n: nat)
    requires ExactCover(s, n)
    ensures multiset(s) == multiset(Indices(n)) && |s| == n
    decreases n
  {
    hide Indices, ExactCover;
    CoverOfNothing(s, n);
    if n == 0 {
      IndicesGrow(0);
    } else {
      var k := WithoutLargest(s, n);
      DistinctCover(s[..k] + s[k + 1..], n - 1);
      IndicesGrow(n - 1);
    }
  }

  lemma CoverOfNothing(s: seq<nat>, n: nat)
    requires ExactCover(s, n)
    ensures s == [] <==> n == 0
  {
    if s != [] {
      assert s[0] < n;
    }
    assert n > 0 ==> 0 in s;
  }

  lemma WithoutOne(s: seq<nat>, n: nat, k: nat, rest: seq<nat>)
    requires n > 0 && ExactCover(s, n) && k < |s| && s[k] == n - 1 && rest == s[..k] + s[k + 1..]
    ensures ExactCover(rest, n - 1)
  {
    assert forall j | 0 <= j < |rest| :: rest[j] == s[if j < k then j else j + 1];
    forall i | 0 <= i < n - 1
      ensures i in rest
    {
      assert i in s;
      var j :| 0 <= j < |s| && s[j] == i;
      assert rest[if j < k then j else j - 1] == i;
    }
  }

  lemma WithoutLargest(s: seq<nat>, n: nat) returns (k: nat)
    requires n > 0 && ExactCover(s, n)
    ensures k < |s| && ExactCover(s[..k] + s[k + 1..], n - 1)
    ensures multiset(s) == multiset(s[..k] + s[k + 1..]) + multiset{n - 1}
  {
    assert n - 1 in s;
    k :| 0 <= k < |s| && s[k] == n - 1;
    hide ExactCover;
    SplitAt(s, k);
    WithoutOne(s, n, k, s[..k] + s[k + 1..]);
  }

  lemma SplitAt(s: seq<nat>, k: nat)
    requires k < |s|
    ensures s == s[..k] + [s[k]] + s[k + 1..]
    ensures multiset(s) == multiset(s[..k] + s[k + 1..]) + multiset{s[k]}
  {
    assert s == s[..k] + [s[k]] + s[k + 1..];
  }

  // ---- why workers stop ----

  /** A worker stopped early only because it saw the deadline pass. */
  ghost predicate StoppedForAReason(p: Pool, clock: int) {
    (exists w | 0 <= w < |p.workers| :: p.workers[w].Stopped?) && p.taken < p.length ==>
      p.deadline.Some? && p.deadline.value <= clock
  }

  ghost predicate Ordered(turns: seq<Turn>, from: int) {
    forall i | 0 <= i < |turns| :: from <= turns[i].now && (forall j | 0 <= j < i :: turns[j].now <= turns[i].now)
  }

  function LastTime(turns: seq<Turn>, from: int): int {
    if turns == [] then from else turns[|turns| - 1].now
  }

  lemma {:induction false} StopsOnlyAtDeadline(p: Pool, turns: seq<Turn>, clock: int)
    requires StoppedForAReason(p, clock) && Ordered(turns, clock)
    ensures StoppedForAReason(Run(p, turns), LastTime(turns, clock))
    decreases |turns|
  {
    if turns != [] {
      StepStopsForAReason(p, turns[0], clock);
      StopsOnlyAtDeadline(Step(p, turns[0]), turns[1..], turns[0].now);
    }
  }

  lemma StepStopsForAReason(p: Pool, t: Turn, clock: int)
    requires StoppedForAReason(p, clock) && clock <= t.now
    ensures StoppedForAReason(Step(p, t), t.now)
  {
    var q := Step(p, t);
    if w :| 0 <= w < |q.workers| && q.workers[w].Stopped? && q.taken < q.length {
      if w != t.w || p.workers[w].Stopped? {
        assert p.workers[w].Stopped?;
      }
    }
  }

  /** Without a deadline a worker stops only when nothing is left, whatever the clock does. */
  ghost predicate StoppedWhenDone(p: Pool) {
    p.deadline.None? && forall w | 0 <= w < |p.workers| && p.workers[w].Stopped? :: p.taken >= p.length
  }

  lemma {:induction false} StopsOnlyWhenDone(p: Pool, turns: seq<Turn>)
    requires StoppedWhenDone(p)
    ensures StoppedWhenDone(Run(p, turns))
    decreases |turns|
  {
    if turns != [] {
      var q, t := Step(p, turns[0]), turns[0];
      forall w | 0 <= w < |q.workers| && q.workers[w].Stopped? ensures q.taken >= q.length {
        assert w != t.w ==> p.workers[w].Stopped?;
      }
      StopsOnlyWhenDone(q, turns[1..]);
    }
  }

  /** A finished task has taken every device exactly once. */
  lemma EveryDeviceIsTaken(length: nat, turns: seq<Turn>)
    ensures var p := Run(Start(length, None), turns);
            AllStopped(p) ==> p.taken == length && multiset(p.finished) == multiset(Indices(length))
  {
    var p := Run(Start(length, None), turns);
    ConsumedIsAPrefix(length, None, turns);
    StopsOnlyWhenDone(Start(length, None), turns);
    RunKeepsShape(Start(length, None), turns);
    if AllStopped(p) && |p.workers| > 0 {
      FirstStopped(p);
    }
  }

  /** A chunk that finished short of its plan saw its deadline pass. */
  lemma ShortChunkMeansDeadline(length: nat, deadline: int, turns: seq<Turn>, from: int)
    requires Ordered(turns, from)
    ensures var p := Run(Start(length, Some(deadline)), turns);
            AllStopped(p) && p.taken < length ==> deadline <= LastTime(turns, from)
  {
    var p := Run(Start(length, Some(deadline)), turns);
    StopsOnlyAtDeadline(Start(length, Some(deadline)), turns, from);
    RunKeepsShape(Start(length, Some(deadline)), turns);
    if AllStopped(p) && |p.workers| > 0 {
      FirstStopped(p);
    }
  }

  lemma FirstStopped(p: Pool)
    requires AllStopped(p) && |p.workers| > 0
    ensures exists w | 0 <= w < |p.workers| :: p.workers[w].Stopped?
  {
    assert p.workers[0].Stopped?;
  }

  lemma {:induction false} RunKeepsShape(p: Pool, turns: seq<Turn>)
    ensures var q := Run(p, turns);
            |q.workers| == |p.workers| && q.length == p.length && q.deadline == p.deadline && q.taken >= p.taken
    decreases |turns|
  {
    if turns != [] {
      RunKeepsShape(Step(p, turns[0]), turns[1..]);
    }
  }
}
