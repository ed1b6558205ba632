/**
 * The rotation of pinned hosts (agent/src/core/ScanService.ts, `scanPinnedHosts`).
 *
 * Each lap opens by serving hosts in turn until a time budget runs out; the next lap goes on where
 * this one stopped. Hosts are named by their index in the configured list.
 */
module PinnedHosts {
  const PINNED_BUDGET_MS := 20_000

  /** The remainder of the source's `%`, by repeated subtraction. */
  function Wrap(x: nat, n: nat): (r: nat)
    requires n > 0
    ensures r < n
  {
    if x < n then x else Wrap(x - n, n)
  }

  lemma QuotientIsUnique(x: nat, q: int, r: int, n: nat)
    requires n > 0 && x == q * n + r && 0 <= r < n
    ensures x % n == r
  {
    var d := q - x / n;
    assert d * n == x % n - r by {
      assert x == (x / n) * n + x % n;
      assert (q - x / n) * n == q * n - (x / n) * n;
    }
    FarFromZero(d, n);
  }

  lemma FarFromZero(d: int, n: nat)
    requires n > 0
    ensures d >= 1 ==> d * n >= n
    ensures d <= -1 ==> d * n <= 0 - n
  {
    if d <= -1 {
      assert (-d - 1) * n >= 0;
      assert (-d - 1) * n == -(d * n) - n;
    }
  }

  lemma {:induction false} WrapIsMod(x: nat, n: nat)
    requires n > 0
    ensures Wrap(x, n) == x % n
  {
    if x < n {
      QuotientIsUnique(x, 0, x, n);
    } else {
      WrapIsMod(x - n, n);
      var q, r := (x - n) / n, (x - n) % n;
      assert x == (q + 1) * n + r by {
        assert x - n == q * n + r;
        assert (q + 1) * n == q * n + n;
      }
      QuotientIsUnique(x, q + 1, r, n);
    }
  }

  method Remainder(x: nat, n: nat) returns (r: nat)
    requires n > 0
    ensures r == Wrap(x, n)
  {
    WrapIsMod(x, n);
    r := x % n;
  }

  /** Wrapping one part of a sum first does not matter. */
  lemma {:induction false} WrapOfSum(a: nat, b: nat, n: nat)
    requires n > 0
    ensures Wrap(Wrap(a, n) + b, n) == Wrap(a + b, n)
  {
    if a >= n {
      WrapOfSum(a - n, b, n);
    }
  }

  /** `count` hosts of a list of `n`, cyclically from `from`. */
  function Cyclic(n: nat, from: nat, count: nat): (hosts: seq<int>)
    requires n > 0
  {
    seq(count, k requires 0 <= k => Wrap(from + k, n))
  }

  class Rotation {
    /** Where the next lap starts; kept in memory only. */
    var pinnedIdx: nat

    constructor ()
      ensures pinnedIdx == 0
    {
      pinnedIdx := 0;
    }

    /** What a restart of discovery does to the rotation. */
    method Restart()
      modifies this
      ensures pinnedIdx == 0
    {
      pinnedIdx := 0;
    }

    /**
     * Serves one lap. `now(k)` is the k-th reading of the clock. Hosts are served in cyclic order, each
     * at most once, and serving stops early only when the clock has passed the budget.
     */
    method ServeLap(n: nat, now: nat -> int) returns (served: seq<int>)
      modifies this
      ensures n == 0 ==> served == [] && pinnedIdx == old(pinnedIdx)
      ensures n > 0 ==> |served| <= n && served == Cyclic(n, old(pinnedIdx), |served|)
      ensures n > 0 ==> pinnedIdx == Wrap(old(pinnedIdx) + |served|, n)
      ensures |served| < n ==> now(|served| + 1) >= now(0) + 20_000
      ensures forall k | 0 < k <= |served| :: now(k) < now(0) + 20_000
    {
      hide Wrap;
      served := [];
      if n == 0 {
        return;
      }
      var deadline := now(0) + PINNED_BUDGET_MS;
      var from := Remainder(pinnedIdx, n);
      var done := 0;
      ghost var start := pinnedIdx;
      while done < n && now(done + 1) < deadline
        invariant done <= n && |served| == done
        invariant served == Cyclic(n, start, done)
        invariant forall k | 0 < k <= done :: now(k) < deadline
      {
        WrapOfSum(start, done, n);
        var host := Remainder(from + done, n);
        served := served + [host];
        assert Cyclic(n, start, done + 1) == Cyclic(n, start, done) + [Wrap(start + done, n)];
        done := done + 1;
      }
      WrapOfSum(start, done, n);
      pinnedIdx := Remainder(from + done, n);
    }
  }

  // ---- many laps over one list ----

  function Sum(counts: seq<nat>): nat {
    if counts == [] then 0 else counts[0] + Sum(counts[1..])
  }

  /** What laps serve one after the other, when the i-th has time for `counts[i]` hosts. */
  function ServedOver(n: nat, pinnedIdx: nat, counts: seq<nat>): seq<int>
    requires n > 0
    decreases |counts|
  {
    if counts == [] then []
    else Cyclic(n, pinnedIdx, counts[0]) + ServedOver(n, Wrap(pinnedIdx + counts[0], n), counts[1..])
  }

  /** However the budgets cut them, the laps together are one uninterrupted rotation. */
  lemma {:induction false} LapsRotate(n: nat, pinnedIdx: nat, counts: seq<nat>)
    requires n > 0
    ensures ServedOver(n, pinnedIdx, counts) == Cyclic(n, pinnedIdx, Sum(counts))
    decreases |counts|
  {
    if counts != [] {
      var next := Wrap(pinnedIdx + counts[0], n);
      LapsRotate(n, next, counts[1..]);
      var rest := Sum(counts[1..]);
      forall k | 0 <= k < rest
        ensures Cyclic(n, next, rest)[k] == Cyclic(n, pinnedIdx, Sum(counts))[counts[0] + k]
      {
        WrapOfSum(pinnedIdx + counts[0], k, n);
      }
    }
  }

  /** Two places of a rotation less than `n` apart hold different hosts: no lap serves a host twice. */
  lemma NoHostTwice(n: nat, from: nat, i: nat, j: nat)
    requires n > 0 && i < j < i + n
    ensures Wrap(from + i, n) != Wrap(from + j, n)
  {
    WrapOfSum(from + i, j - i, n);
  }

  /** With at least one host per lap, every host of the list is served within `n` laps. */
  lemma EveryHostServed(n: nat, pinnedIdx: nat, counts: seq<nat>, host: nat)
    requires host < n && |counts| >= n
    requires forall i | 0 <= i < |counts| :: counts[i] >= 1
    ensures host in ServedOver(n, pinnedIdx, counts)
  {
    LapsRotate(n, pinnedIdx, counts);
    SumAtLeast(counts);
    var r := Wrap(pinnedIdx, n);
    var k := if host >= r then host - r else host + n - r;
    WrapOfSum(pinnedIdx, k, n);
    assert Cyclic(n, pinnedIdx, Sum(counts))[k] == host;
  }

  lemma {:induction false} SumAtLeast(counts: seq<nat>)
    requires forall i | 0 <= i < |counts| :: counts[i] >= 1
    ensures Sum(counts) >= |counts|
    decreases |counts|
  {
    if counts != [] {
      SumAtLeast(counts[1..]);
    }
  }
}
