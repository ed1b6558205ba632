/**
 * How far the local queue can grow (agent/src/core/ScanService.ts, agent/src/sync/database.ts).
 *
 * Backpressure is only looked at when a scan or a known-devices task starts, so both may go on
 * enqueueing after the limit is passed. At most one scan (guarded by `_isScanning`) and one
 * known-devices task (serialised by the scheduler) run at a time, interleaved at will. What each may
 * enqueue is not an assumption: a capture enqueues one reading at most, and there is one capture for
 * every host served and for every index a worker has taken.
 */
module Backpressure {
  import opened Wrappers
  import opened DiscoveryCursor
  import ScanService
  import WorkerPool

  const BACKPRESSURE_LIMIT := 10_000

  /** A scan: hosts of its configuration and those served, the workers on its chunk, what it enqueued. */
  datatype Scan = Scan(hosts: nat, served: nat, pool: WorkerPool.Pool, enqueued: nat)

  datatype Task = Task(pool: WorkerPool.Pool, enqueued: nat)

  datatype Load = Load(pending: nat, scan: Option<Scan>, task: Option<Task>)

  datatype Event =
    | StartScan(ranges: seq<CursorRange>, cursor: Cursor, hosts: nat, deadline: int)
    | HostServed
    | ScanTurn(turn: WorkerPool.Turn)
    | ScanEnqueues
    | EndScan
    | StartTask(devices: nat)
    | TaskTurn(turn: WorkerPool.Turn)
    | TaskEnqueues
    | EndTask
    | Uploaded(count: nat)
    | Reboot

  predicate IsBackpressureActive(s: Load) {
    s.pending > BACKPRESSURE_LIMIT
  }

  ghost function ScanStep(pending: nat, scan: Scan, e: Event): (nat, Scan) {
    match e
    case HostServed => (pending, if scan.served < scan.hosts then scan.(served := scan.served + 1) else scan)
    case ScanTurn(t) => (pending, scan.(pool := WorkerPool.Step(scan.pool, t)))
    case ScanEnqueues =>
      if scan.enqueued < scan.served + scan.pool.taken then (pending + 1, scan.(enqueued := scan.enqueued + 1))
      else (pending, scan)
    case _ => (pending, scan)
  }

  ghost function TaskStep(pending: nat, task: Task, e: Event): (nat, Task) {
    match e
    case TaskTurn(t) => (pending, task.(pool := WorkerPool.Step(task.pool, t)))
    case TaskEnqueues =>
      if task.enqueued < task.pool.taken then (pending + 1, task.(enqueued := task.enqueued + 1)) else (pending, task)
    case _ => (pending, task)
  }

  ghost function Step(s: Load, e: Event): Load {
    match e
    case StartScan(ranges, cursor, hosts, deadline) =>
      if s.scan.Some? || IsBackpressureActive(s) then s
      else
        var plan := Planned(ranges, cursor, ScanService.CHUNK_MAX_IPS);
        s.(scan := Some(Scan(hosts, 0, WorkerPool.Start(|plan|, Some(deadline)), 0)))
    case EndScan => s.(scan := None)
    case StartTask(devices) =>
      if s.task.Some? || IsBackpressureActive(s) then s
      else s.(task := Some(Task(WorkerPool.Start(devices, None), 0)))
    case EndTask => s.(task := None)
    case Uploaded(count) => s.(pending := if count <= s.pending then s.pending - count else 0)
    case Reboot => s.(scan := None, task := None)
    case _ =>
      if (e.HostServed? || e.ScanTurn? || e.ScanEnqueues?) && s.scan.Some? then
        var next := ScanStep(s.pending, s.scan.value, e);
        s.(pending := next.0, scan := Some(next.1))
      else if (e.TaskTurn? || e.TaskEnqueues?) && s.task.Some? then
        var next := TaskStep(s.pending, s.task.value, e);
        s.(pending := next.0, task := Some(next.1))
      else s
  }

  ghost function Run(s: Load, events: seq<Event>): Load
    decreases |events|
  {
    if events == [] then s else Run(Step(s, events[0]), events[1..])
  }

  /** The configuration never names more than `hosts` pinned hosts and never knows more than `devices`. */
  ghost predicate Within(events: seq<Event>, hosts: nat, devices: nat) {
    forall i | 0 <= i < |events| ::
      (events[i].StartScan? ==> events[i].hosts <= hosts) && (events[i].StartTask? ==> events[i].devices <= devices)
  }

  ghost predicate PoolOk(pool: WorkerPool.Pool, limit: nat) {
    pool.taken <= pool.length <= limit
  }

  ghost predicate ScanOk(scan: Scan, hosts: nat) {
    && scan.served <= scan.hosts <= hosts && PoolOk(scan.pool, ScanService.CHUNK_MAX_IPS)
    && scan.enqueued <= scan.served + scan.pool.taken
  }

  ghost predicate TaskOk(task: Task, devices: nat) {
    PoolOk(task.pool, devices) && task.enqueued <= task.pool.taken
  }

  /** What the scan may still enqueue at the very most. */
  ghost function ScanLeft(s: Load): int {
    if s.scan.Some? then s.scan.value.hosts + s.scan.value.pool.length - s.scan.value.enqueued else 0
  }

  ghost function TaskLeft(s: Load): int {
    if s.task.Some? then s.task.value.pool.length - s.task.value.enqueued else 0
  }

  ghost predicate Bounded(s: Load, hosts: nat, devices: nat) {
    && (s.scan.Some? ==> ScanOk(s.scan.value, hosts))
    && (s.task.Some? ==> TaskOk(s.task.value, devices))
    && s.pending + ScanLeft(s) + TaskLeft(s) <= BACKPRESSURE_LIMIT + ScanService.CHUNK_MAX_IPS + hosts + devices
  }

  /** A worker takes an index only while there is one. */
  lemma TurnStaysWithin(pool: WorkerPool.Pool, t: WorkerPool.Turn, limit: nat)
    requires PoolOk(pool, limit)
    ensures var next := WorkerPool.Step(pool, t);
            PoolOk(next, limit) && next.length == pool.length && pool.taken <= next.taken
  {
  }

  lemma StepIsBounded(s: Load, e: Event, hosts: nat, devices: nat)
    requires Bounded(s, hosts, devices)
    requires (e.StartScan? ==> e.hosts <= hosts) && (e.StartTask? ==> e.devices <= devices)
    ensures Bounded(Step(s, e), hosts, devices)
  {
    hide WorkerPool.Step, Planned;
    match e
    case ScanTurn(t) =>
      if s.scan.Some? { TurnStaysWithin(s.scan.value.pool, t, ScanService.CHUNK_MAX_IPS); }
    case TaskTurn(t) =>
      if s.task.Some? { TurnStaysWithin(s.task.value.pool, t, devices); }
    case StartScan(ranges, cursor, h, deadline) => ChunkIsShort(ranges, cursor);
    case _ =>
  }

  lemma ChunkIsShort(ranges: seq<CursorRange>, cursor: Cursor)
    ensures |Planned(ranges, cursor, ScanService.CHUNK_MAX_IPS)| <= ScanService.CHUNK_MAX_IPS
  {
    hide TotalDeclaredIps, Position;
  }

  /** Whatever the interleaving, the queue stays within the limit plus one scan and one task. */
  lemma {:induction false} QueueIsBounded(s: Load, events: seq<Event>, hosts: nat, devices: nat)
    requires Bounded(s, hosts, devices) && Within(events, hosts, devices)
    ensures Bounded(Run(s, events), hosts, devices)
    ensures Run(s, events).pending <= 10_000 + 400 + hosts + devices
    decreases |events|
  {
    hide Step;
    if events != [] {
      StepIsBounded(s, events[0], hosts, devices);
      QueueIsBounded(Step(s, events[0]), events[1..], hosts, devices);
    }
  }

  // ---- the bound is met ----

  lemma {:induction false} RunJoin(s: Load, p: seq<Event>, q: seq<Event>)
    ensures Run(s, p + q) == Run(Run(s, p), q)
    decreases |p|
  {
    hide Step;
    if p == [] {
      assert p + q == q;
    } else {
      assert (p + q)[1..] == p[1..] + q;
      RunJoin(Step(s, p[0]), p[1..], q);
    }
  }

  lemma RunTwo(s: Load, d: Event, e: Event)
    ensures Run(s, [d, e]) == Step(Step(s, d), e)
  {
    hide Step;
    assert [d, e][1..] == [e] && [e][1..] == [];
    assert Run(Step(s, d), [e]) == Step(Step(s, d), e);
  }

  /** Worker 0 alone, turn by turn, takes and finishes `n` indices. */
  lemma {:induction false} PoolTakes(pool: WorkerPool.Pool, n: nat, now: int)
    requires |pool.workers| > 0 && pool.workers[0].Ready? && pool.taken + n <= pool.length
    requires pool.deadline.Some? ==> now < pool.deadline.value
    ensures WorkerPool.Run(pool, seq(2 * n, _ => WorkerPool.Turn(0, now))).taken == pool.taken + n
    decreases n
  {
    if n > 0 {
      var t := WorkerPool.Turn(0, now);
      var turns := seq(2 * n, _ => t);
      assert turns[1..][1..] == seq(2 * (n - 1), _ => t);
      var next := WorkerPool.Step(WorkerPool.Step(pool, t), t);
      assert WorkerPool.Run(pool, turns) == WorkerPool.Run(next, turns[1..][1..]);
      PoolTakes(next, n - 1, now);
    }
  }

  lemma {:induction false} ScanTurns(s: Load, m: nat, t: WorkerPool.Turn)
    requires s.scan.Some?
    ensures Run(s, seq(m, _ => ScanTurn(t)))
         == s.(scan := Some(s.scan.value.(pool := WorkerPool.Run(s.scan.value.pool, seq(m, _ => t)))))
    decreases m
  {
    hide WorkerPool.Step;
    if m > 0 {
      assert seq(m, _ => ScanTurn(t))[1..] == seq(m - 1, _ => ScanTurn(t));
      assert seq(m, _ => t)[1..] == seq(m - 1, _ => t);
      ScanTurns(Step(s, ScanTurn(t)), m - 1, t);
    }
  }

  lemma {:induction false} TaskTurns(s: Load, m: nat, t: WorkerPool.Turn)
    requires s.task.Some?
    ensures Run(s, seq(m, _ => TaskTurn(t)))
         == s.(task := Some(s.task.value.(pool := WorkerPool.Run(s.task.value.pool, seq(m, _ => t)))))
    decreases m
  {
    hide WorkerPool.Step;
    if m > 0 {
      assert seq(m, _ => TaskTurn(t))[1..] == seq(m - 1, _ => TaskTurn(t));
      assert seq(m, _ => t)[1..] == seq(m - 1, _ => t);
      TaskTurns(Step(s, TaskTurn(t)), m - 1, t);
    }
  }

  lemma {:induction false} HostsServed(s: Load, n: nat)
    requires s.scan.Some? && s.scan.value.served + n <= s.scan.value.hosts
    ensures Run(s, seq(n, _ => HostServed)) == s.(scan := Some(s.scan.value.(served := s.scan.value.served + n)))
    decreases n
  {
    if n > 0 {
      assert seq(n, _ => HostServed)[1..] == seq(n - 1, _ => HostServed);
      HostsServed(Step(s, HostServed), n - 1);
    }
  }

  lemma {:induction false} ScanDrains(s: Load, n: nat)
    requires s.scan.Some? && s.scan.value.enqueued + n <= s.scan.value.served + s.scan.value.pool.taken
    ensures Run(s, seq(n, _ => ScanEnqueues))
         == s.(pending := s.pending + n, scan := Some(s.scan.value.(enqueued := s.scan.value.enqueued + n)))
    decreases n
  {
    if n > 0 {
      assert seq(n, _ => ScanEnqueues)[1..] == seq(n - 1, _ => ScanEnqueues);
      ScanDrains(Step(s, ScanEnqueues), n - 1);
    }
  }

  lemma {:induction false} TaskDrains(s: Load, n: nat)
    requires s.task.Some? && s.task.value.enqueued + n <= s.task.value.pool.taken
    ensures Run(s, seq(n, _ => TaskEnqueues))
         == s.(pending := s.pending + n, task := Some(s.task.value.(enqueued := s.task.value.enqueued + n)))
    decreases n
  {
    if n > 0 {
      assert seq(n, _ => TaskEnqueues)[1..] == seq(n - 1, _ => TaskEnqueues);
      TaskDrains(Step(s, TaskEnqueues), n - 1);
    }
  }

  /** What the scan does in the run below: every host, every address, a reading of each. */
  function WholeScan(hosts: nat): seq<Event> {
    seq(hosts, _ => HostServed) + (seq(2 * ScanService.CHUNK_MAX_IPS, _ => ScanTurn(WorkerPool.Turn(0, 0)))
                                   + seq(hosts + ScanService.CHUNK_MAX_IPS, _ => ScanEnqueues))
  }

  function WholeTask(devices: nat): seq<Event> {
    seq(2 * devices, _ => TaskTurn(WorkerPool.Turn(0, 0))) + seq(devices, _ => TaskEnqueues)
  }

  lemma WholeScanEnqueues(s: Load, hosts: nat)
    requires s.scan == Some(Scan(hosts, 0, WorkerPool.Start(ScanService.CHUNK_MAX_IPS, Some(1)), 0))
    ensures var t := Run(s, WholeScan(hosts));
            t.pending == s.pending + hosts + ScanService.CHUNK_MAX_IPS && t.task == s.task
  {
    hide Step, Run;
    var turns := seq(2 * ScanService.CHUNK_MAX_IPS, _ => ScanTurn(WorkerPool.Turn(0, 0)));
    var drain := seq(hosts + ScanService.CHUNK_MAX_IPS, _ => ScanEnqueues);
    RunJoin(s, seq(hosts, _ => HostServed), turns + drain);
    HostsServed(s, hosts);
    var a := Run(s, seq(hosts, _ => HostServed));
    RunJoin(a, turns, drain);
    ScanTurns(a, 2 * ScanService.CHUNK_MAX_IPS, WorkerPool.Turn(0, 0));
    PoolTakes(a.scan.value.pool, ScanService.CHUNK_MAX_IPS, 0);
    ScanDrains(Run(a, turns), hosts + ScanService.CHUNK_MAX_IPS);
  }

  lemma WholeTaskEnqueues(s: Load, devices: nat)
    requires s.task == Some(Task(WorkerPool.Start(devices, None), 0))
    ensures Run(s, WholeTask(devices)).pending == s.pending + devices
  {
    hide Step, Run;
    var turns := seq(2 * devices, _ => TaskTurn(WorkerPool.Turn(0, 0)));
    RunJoin(s, turns, seq(devices, _ => TaskEnqueues));
    TaskTurns(s, 2 * devices, WorkerPool.Turn(0, 0));
    if devices > 0 {
      PoolTakes(s.task.value.pool, devices, 0);
    }
    TaskDrains(Run(s, turns), devices);
  }

  lemma BothStart(ranges: seq<CursorRange>, cursor: Cursor, hosts: nat, devices: nat)
    requires TotalDeclaredIps(ranges) - Position(ranges, cursor) >= ScanService.CHUNK_MAX_IPS
    ensures Step(Step(Load(BACKPRESSURE_LIMIT, None, None), StartScan(ranges, cursor, hosts, 1)), StartTask(devices))
         == Load(BACKPRESSURE_LIMIT,
                 Some(Scan(hosts, 0, WorkerPool.Start(ScanService.CHUNK_MAX_IPS, Some(1)), 0)),
                 Some(Task(WorkerPool.Start(devices, None), 0)))
  {
    hide TotalDeclaredIps, Position, WorkerPool.Start;
  }

  /**
   * Wherever the sweep stands with a whole chunk ahead: a scan and a task that start together at the limit and
   * both enqueue all they can meet the bound.
   */
  lemma BoundIsReached(ranges: seq<CursorRange>, cursor: Cursor, hosts: nat, devices: nat)
    requires TotalDeclaredIps(ranges) - Position(ranges, cursor) >= ScanService.CHUNK_MAX_IPS
    ensures var events := [StartScan(ranges, cursor, hosts, 1), StartTask(devices)] + (WholeScan(hosts) + WholeTask(devices));
            Run(Load(BACKPRESSURE_LIMIT, None, None), events).pending
            == 10_000 + 400 + hosts + devices
  {
    hide WholeScan, WholeTask, Run, Step, TotalDeclaredIps, Position, WorkerPool.Start;
    var s := Load(BACKPRESSURE_LIMIT, None, None);
    BothStart(ranges, cursor, hosts, devices);
    RunTwo(s, StartScan(ranges, cursor, hosts, 1), StartTask(devices));
    RunJoin(s, [StartScan(ranges, cursor, hosts, 1), StartTask(devices)], WholeScan(hosts) + WholeTask(devices));
    var a := Run(s, [StartScan(ranges, cursor, hosts, 1), StartTask(devices)]);
    RunJoin(a, WholeScan(hosts), WholeTask(devices));
    WholeScanEnqueues(a, hosts);
    WholeTaskEnqueues(Run(a, WholeScan(hosts)), devices);
  }
}
