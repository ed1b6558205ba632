/**
 * The priority scheduler of the agent's network loops (agent/src/core/TaskScheduler.ts,
 * agent/src/core/MonitorIntervals.ts).
 *
 * A tick that finds no task running starts at most one: alert before meter before supplies before
 * discovery. Each loop's clock is set when its task starts; discovery's only when it opens a lap.
 */
module TaskScheduler {
  import opened Wrappers

  datatype Task = Alert | Meter | Supplies | Discovery

  /** When each loop last started. */
  datatype Clocks = Clocks(alert: int, meter: int, supplies: int, discovery: int)

  /** Milliseconds between starts. */
  datatype Intervals = Intervals(alert: int, meter: int, supplies: int, discovery: int)

  datatype Tick = Tick(now: int, lapOpen: bool)

  function Due(c: Clocks, iv: Intervals, task: Task, t: Tick): bool {
    match task
    case Alert => t.now - c.alert >= iv.alert
    case Meter => t.now - c.meter >= iv.meter
    case Supplies => t.now - c.supplies >= iv.supplies
    case Discovery => t.lapOpen || t.now - c.discovery >= iv.discovery
  }

  function Choose(c: Clocks, iv: Intervals, t: Tick): Option<Task> {
    if Due(c, iv, Alert, t) then Some(Alert)
    else if Due(c, iv, Meter, t) then Some(Meter)
    else if Due(c, iv, Supplies, t) then Some(Supplies)
    else if Due(c, iv, Discovery, t) then Some(Discovery)
    else None
  }

  function Started(c: Clocks, task: Option<Task>, t: Tick): Clocks {
    match task
    case None => c
    case Some(Alert) => c.(alert := t.now)
    case Some(Meter) => c.(meter := t.now)
    case Some(Supplies) => c.(supplies := t.now)
    case Some(Discovery) => if t.lapOpen then c else c.(discovery := t.now)
  }

  class TaskScheduler {
    var isNetworkTaskRunning: bool
    var lastDiscoveryTime: int
    var lastMeterTime: int
    var lastSuppliesTime: int
    var lastAlertTime: int

    function View(): Clocks
      reads this
    {
      Clocks(lastAlertTime, lastMeterTime, lastSuppliesTime, lastDiscoveryTime)
    }

    constructor (now: int)
      ensures !isNetworkTaskRunning && View() == Clocks(now, now, now, 0)
    {
      isNetworkTaskRunning := false;
      lastDiscoveryTime, lastMeterTime, lastSuppliesTime, lastAlertTime := 0, now, now, now;
    }

    /** run(), up to the start of its task; `retryMs` is set when it found a task still running. */
    method Run(t: Tick, iv: Intervals) returns (task: Option<Task>, retryMs: Option<nat>)
      modifies this
      ensures old(isNetworkTaskRunning) ==> task == None && retryMs == Some(10_000) && View() == old(View()) && isNetworkTaskRunning
      ensures !old(isNetworkTaskRunning) ==> task == Choose(old(View()), iv, t) && retryMs == None
      ensures !old(isNetworkTaskRunning) ==> View() == Started(old(View()), task, t) && isNetworkTaskRunning == task.Some?
    {
      if isNetworkTaskRunning {
        return None, Some(10_000);
      }
      task, retryMs := None, None;
      if t.now - lastAlertTime >= iv.alert {
        isNetworkTaskRunning, lastAlertTime, task := true, t.now, Some(Alert);
      } else if t.now - lastMeterTime >= iv.meter {
        isNetworkTaskRunning, lastMeterTime, task := true, t.now, Some(Meter);
      } else if t.now - lastSuppliesTime >= iv.supplies {
        isNetworkTaskRunning, lastSuppliesTime, task := true, t.now, Some(Supplies);
      } else if t.lapOpen || t.now - lastDiscoveryTime >= iv.discovery {
        isNetworkTaskRunning, task := true, Some(Discovery);
        if !t.lapOpen {
          lastDiscoveryTime := t.now;
        }
      }
    }

    /** The `finally` of runTask; the next tick is five seconds away. */
    method TaskOver() returns (nextMs: nat)
      modifies this`isNetworkTaskRunning
      ensures !isNetworkTaskRunning && nextMs == 5_000
    {
      isNetworkTaskRunning := false;
      nextMs := 5_000;
    }
  }

  // ---- runs of ticks that find no task running, with the intervals fixed ----

  /** The clocks as tick `k` finds them. */
  function ClocksAt(c: Clocks, iv: Intervals, ticks: seq<Tick>, k: nat): Clocks
    requires k <= |ticks|
    decreases k, 0
  {
    if k == 0 then c
    else Started(ClocksAt(c, iv, ticks, k - 1), TaskAt(c, iv, ticks, k - 1), ticks[k - 1])
  }

  /** The task tick `k` starts. */
  function TaskAt(c: Clocks, iv: Intervals, ticks: seq<Tick>, k: nat): Option<Task>
    requires k < |ticks|
    decreases k, 1
  {
    Choose(ClocksAt(c, iv, ticks, k), iv, ticks[k])
  }

  predicate DueAt(c: Clocks, iv: Intervals, ticks: seq<Tick>, task: Task, k: nat)
    requires k < |ticks|
  {
    Due(ClocksAt(c, iv, ticks, k), iv, task, ticks[k])
  }

  /** Ticks come in order, at most `d` apart. */
  ghost predicate Paced(ticks: seq<Tick>, d: nat) {
    forall k | 0 < k < |ticks| :: 0 <= ticks[k].now - ticks[k - 1].now <= d
  }

  ghost predicate StartsWithin(c: Clocks, iv: Intervals, ticks: seq<Tick>, task: Task, k: nat, ticksLater: nat)
    requires k + ticksLater < |ticks|
  {
    exists j | k <= j <= k + ticksLater :: TaskAt(c, iv, ticks, j) == Some(task)
  }

  function IntervalOf(iv: Intervals, task: Task): int {
    match task
    case Alert => iv.alert
    case Meter => iv.meter
    case Supplies => iv.supplies
    case Discovery => iv.discovery
  }

  function ClockOf(c: Clocks, task: Task): int {
    match task
    case Alert => c.alert
    case Meter => c.meter
    case Supplies => c.supplies
    case Discovery => c.discovery
  }

  lemma {:induction false} PacedOver(ticks: seq<Tick>, d: nat, i: nat, j: nat)
    requires Paced(ticks, d) && i <= j < |ticks|
    ensures ticks[i].now <= ticks[j].now <= ticks[i].now + d * (j - i)
    decreases j - i
  {
    if i < j {
      PacedOver(ticks, d, i, j - 1);
      assert d * (j - i) == d * (j - 1 - i) + d;
    }
  }

  /** A clock set at tick `i` is never set back. */
  lemma {:induction false} ClockKeeps(c: Clocks, iv: Intervals, ticks: seq<Tick>, d: nat, task: Task, i: nat, j: nat)
    requires Paced(ticks, d) && i < j < |ticks| && !task.Discovery?
    requires TaskAt(c, iv, ticks, i) == Some(task)
    ensures ClockOf(ClocksAt(c, iv, ticks, j), task) >= ticks[i].now
    decreases j
  {
    if j > i + 1 {
      ClockKeeps(c, iv, ticks, d, task, i, j - 1);
      PacedOver(ticks, d, i, j - 1);
    }
  }

  /** A loop whose interval exceeds `n` gaps does not start twice within `n` ticks. */
  lemma NotTwice(c: Clocks, iv: Intervals, ticks: seq<Tick>, d: nat, task: Task, n: nat, i: nat, j: nat)
    requires Paced(ticks, d) && i < j <= i + n && j < |ticks| && !task.Discovery?
    requires IntervalOf(iv, task) > n * d
    ensures TaskAt(c, iv, ticks, i) == Some(task) ==> TaskAt(c, iv, ticks, j) != Some(task)
  {
    if TaskAt(c, iv, ticks, i) == Some(task) {
      ClockKeeps(c, iv, ticks, d, task, i, j);
      PacedOver(ticks, d, i, j);
      GapsBound(d, j - i, n);
    }
  }

  lemma GapsBound(d: nat, gaps: nat, n: nat)
    requires gaps <= n
    ensures d * gaps <= n * d
  {
    assert (n - gaps) * d >= 0;
    assert n * d == gaps * d + (n - gaps) * d;
  }

  /** A loop that is due stays due until it starts. */
  lemma {:induction false} StaysDue(c: Clocks, iv: Intervals, ticks: seq<Tick>, d: nat, task: Task, k: nat, j: nat)
    requires Paced(ticks, d) && k <= j < |ticks| && DueAt(c, iv, ticks, task, k)
    requires task.Discovery? ==> forall i | k <= i <= j :: ticks[i].lapOpen
    requires forall i | k <= i < j :: TaskAt(c, iv, ticks, i) != Some(task)
    ensures DueAt(c, iv, ticks, task, j)
    decreases j
  {
    if k < j && !task.Discovery? {
      StaysDue(c, iv, ticks, d, task, k, j - 1);
      PacedOver(ticks, d, j - 1, j);
    }
  }

  lemma AlertStartsAtOnce(c: Clocks, iv: Intervals, ticks: seq<Tick>, k: nat)
    requires k < |ticks| && DueAt(c, iv, ticks, Alert, k)
    ensures StartsWithin(c, iv, ticks, Alert, k, 0)
  {
    assert TaskAt(c, iv, ticks, k) == Some(Alert);
  }

  lemma MeterStartsWithinTwoTicks(c: Clocks, iv: Intervals, ticks: seq<Tick>, d: nat, k: nat)
    requires Paced(ticks, d) && iv.alert > d && k + 1 < |ticks| && DueAt(c, iv, ticks, Meter, k)
    ensures StartsWithin(c, iv, ticks, Meter, k, 1)
  {
    if TaskAt(c, iv, ticks, k) != Some(Meter) {
      StaysDue(c, iv, ticks, d, Meter, k, k + 1);
      NotTwice(c, iv, ticks, d, Alert, 1, k, k + 1);
      assert TaskAt(c, iv, ticks, k + 1) == Some(Meter);
    }
  }

  lemma SuppliesStartWithinThreeTicks(c: Clocks, iv: Intervals, ticks: seq<Tick>, d: nat, k: nat)
    requires Paced(ticks, d) && iv.alert > 2 * d && iv.meter > 2 * d
    requires k + 2 < |ticks| && DueAt(c, iv, ticks, Supplies, k)
    ensures StartsWithin(c, iv, ticks, Supplies, k, 2)
  {
    var x, y, z := TaskAt(c, iv, ticks, k), TaskAt(c, iv, ticks, k + 1), TaskAt(c, iv, ticks, k + 2);
    if !StartsWithin(c, iv, ticks, Supplies, k, 2) {
      forall j | k <= j <= k + 2
        ensures TaskAt(c, iv, ticks, j) in {Some(Alert), Some(Meter)}
      {
        StaysDue(c, iv, ticks, d, Supplies, k, j);
      }
      forall task: Task, i: nat, j: nat | k <= i < j <= k + 2 && task in {Alert, Meter}
        ensures TaskAt(c, iv, ticks, i) == Some(task) ==> TaskAt(c, iv, ticks, j) != Some(task)
      {
        NotTwice(c, iv, ticks, d, task, 2, i, j);
      }
    }
  }

  lemma ChunkStartsWithinFourTicks(c: Clocks, iv: Intervals, ticks: seq<Tick>, d: nat, k: nat)
    requires Paced(ticks, d) && iv.alert > 3 * d && iv.meter > 3 * d && iv.supplies > 3 * d
    requires k + 3 < |ticks| && forall j | k <= j <= k + 3 :: ticks[j].lapOpen
    ensures StartsWithin(c, iv, ticks, Discovery, k, 3)
  {
    var w, x, y, z := TaskAt(c, iv, ticks, k), TaskAt(c, iv, ticks, k + 1), TaskAt(c, iv, ticks, k + 2), TaskAt(c, iv, ticks, k + 3);
    if !StartsWithin(c, iv, ticks, Discovery, k, 3) {
      forall j | k <= j <= k + 3
        ensures TaskAt(c, iv, ticks, j) in {Some(Alert), Some(Meter), Some(Supplies)}
      {
        assert DueAt(c, iv, ticks, Discovery, j);
      }
      forall task: Task, i: nat, j: nat | k <= i < j <= k + 3 && task in {Alert, Meter, Supplies}
        ensures TaskAt(c, iv, ticks, i) == Some(task) ==> TaskAt(c, iv, ticks, j) != Some(task)
      {
        NotTwice(c, iv, ticks, d, task, 3, i, j);
      }
    }
  }

  /** No loop starts before its interval is over; a chunk needs none while its lap is open. */
  lemma StartsWhenDue(c: Clocks, iv: Intervals, ticks: seq<Tick>, k: nat)
    requires k < |ticks|
    ensures var clocks, now := ClocksAt(c, iv, ticks, k), ticks[k].now;
            match TaskAt(c, iv, ticks, k)
            case Some(Alert) => now - clocks.alert >= iv.alert
            case Some(Meter) => now - clocks.meter >= iv.meter && now - clocks.alert < iv.alert
            case Some(Supplies) => now - clocks.supplies >= iv.supplies && now - clocks.meter < iv.meter && now - clocks.alert < iv.alert
            case Some(Discovery) => ticks[k].lapOpen || now - clocks.discovery >= iv.discovery
            case None => !ticks[k].lapOpen && now - clocks.discovery < iv.discovery
  {
  }

  /** The tick opens a lap: it starts discovery while none is open. */
  predicate OpensLap(c: Clocks, iv: Intervals, ticks: seq<Tick>, k: nat)
    requires k < |ticks|
  {
    TaskAt(c, iv, ticks, k) == Some(Discovery) && !ticks[k].lapOpen
  }

  /** Discovery's clock is the time of the last tick that opened a lap, however many chunks came since. */
  lemma {:induction false} LapClock(c: Clocks, iv: Intervals, ticks: seq<Tick>, i: nat, k: nat)
    requires i < k <= |ticks| && OpensLap(c, iv, ticks, i) && forall j | i < j < k :: !OpensLap(c, iv, ticks, j)
    ensures ClocksAt(c, iv, ticks, k).discovery == ticks[i].now
    decreases k
  {
    if k > i + 1 {
      LapClock(c, iv, ticks, i, k - 1);
      assert !OpensLap(c, iv, ticks, k - 1);
    }
  }

  lemma {:induction false} LapClockKeeps(c: Clocks, iv: Intervals, ticks: seq<Tick>, d: nat, i: nat, k: nat)
    requires Paced(ticks, d) && i < k < |ticks| && OpensLap(c, iv, ticks, i)
    ensures ClocksAt(c, iv, ticks, k).discovery >= ticks[i].now
    decreases k
  {
    if k > i + 1 {
      LapClockKeeps(c, iv, ticks, d, i, k - 1);
      PacedOver(ticks, d, i, k - 1);
    }
  }

  /** Two starts of a loop are at least its interval apart, and so are two openings of a lap. */
  lemma StartsAreSpaced(c: Clocks, iv: Intervals, ticks: seq<Tick>, d: nat, i: nat, j: nat)
    requires Paced(ticks, d) && i < j < |ticks|
    ensures var x, y := TaskAt(c, iv, ticks, i), TaskAt(c, iv, ticks, j);
            var apart := ticks[j].now - ticks[i].now;
            && (x == y == Some(Alert) ==> apart >= iv.alert)
            && (x == y == Some(Meter) ==> apart >= iv.meter)
            && (x == y == Some(Supplies) ==> apart >= iv.supplies)
            && (x == y == Some(Discovery) && !ticks[i].lapOpen && !ticks[j].lapOpen ==> apart >= iv.discovery)
  {
    var x := TaskAt(c, iv, ticks, i);
    StartsWhenDue(c, iv, ticks, j);
    if x.Some? && !x.value.Discovery? {
      ClockKeeps(c, iv, ticks, d, x.value, i, j);
    }
    if OpensLap(c, iv, ticks, i) {
      LapClockKeeps(c, iv, ticks, d, i, j);
    }
  }

  lemma {:induction false} LapStaysDue(c: Clocks, iv: Intervals, ticks: seq<Tick>, d: nat, k: nat, j: nat)
    requires Paced(ticks, d) && k <= j < |ticks|
    requires ticks[k].now - ClocksAt(c, iv, ticks, k).discovery >= iv.discovery
    requires forall i | k <= i < j :: TaskAt(c, iv, ticks, i) != Some(Discovery)
    ensures ticks[j].now - ClocksAt(c, iv, ticks, j).discovery >= iv.discovery
    decreases j
  {
    if k < j {
      LapStaysDue(c, iv, ticks, d, k, j - 1);
      PacedOver(ticks, d, j - 1, j);
    }
  }

  /** Once its interval is over the next lap opens, or an open one goes on, within four ticks. */
  lemma LapOpensWithinFourTicks(c: Clocks, iv: Intervals, ticks: seq<Tick>, d: nat, k: nat)
    requires Paced(ticks, d) && iv.alert > 3 * d && iv.meter > 3 * d && iv.supplies > 3 * d && k + 3 < |ticks|
    requires ticks[k].now - ClocksAt(c, iv, ticks, k).discovery >= iv.discovery
    ensures StartsWithin(c, iv, ticks, Discovery, k, 3)
  {
    var w, x, y, z := TaskAt(c, iv, ticks, k), TaskAt(c, iv, ticks, k + 1), TaskAt(c, iv, ticks, k + 2), TaskAt(c, iv, ticks, k + 3);
    if !StartsWithin(c, iv, ticks, Discovery, k, 3) {
      forall j | k <= j <= k + 3
        ensures TaskAt(c, iv, ticks, j) in {Some(Alert), Some(Meter), Some(Supplies)}
      {
        LapStaysDue(c, iv, ticks, d, k, j);
        assert DueAt(c, iv, ticks, Discovery, j);
      }
      forall task: Task, i: nat, j: nat | k <= i < j <= k + 3 && task in {Alert, Meter, Supplies}
        ensures TaskAt(c, iv, ticks, i) == Some(task) ==> TaskAt(c, iv, ticks, j) != Some(task)
      {
        NotTwice(c, iv, ticks, d, task, 3, i, j);
      }
    }
  }

  /** Discovery is filler: it never starts at a tick where another loop is due. */
  lemma DiscoveryYields(c: Clocks, iv: Intervals, ticks: seq<Tick>, k: nat, other: Task)
    requires k < |ticks| && TaskAt(c, iv, ticks, k) == Some(Discovery) && other != Discovery
    ensures !DueAt(c, iv, ticks, other, k)
  {
  }

  /** Four intervals in minutes, as configured; `undefined` means the defaults. */
  const DEFAULT_BIZ := Intervals(3, 20, 60, 10)
  const DEFAULT_OFF := Intervals(15, 240, 240, 60)

  function ToMs(minutes: Intervals): Intervals {
    Intervals(minutes.alert * 60_000, minutes.meter * 60_000, minutes.supplies * 60_000, minutes.discovery * 60_000)
  }

  /** With the default intervals, ticks less than a minute apart are close enough for every bound above. */
  lemma DefaultsAreWide(d: nat)
    requires d < 60_000
    ensures forall iv | iv in {ToMs(DEFAULT_BIZ), ToMs(DEFAULT_OFF)} ::
              iv.alert > 3 * d && iv.meter > 3 * d && iv.supplies > 3 * d
  {
  }
}
