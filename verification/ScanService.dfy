/**
 * Continuous discovery: one `scan_state` row, one chunk at a time
 * (agent/src/core/ScanService.ts, agent/src/sync/database.ts).
 *
 * `scan()` awaits the network twice, so here it is split where it can be interrupted: `Begin` runs to
 * the first probe, `TakeIp` is one address taken by the worker pool, `EndChunk` persists. Between
 * them the configuration may change, a restart may be asked for, the heartbeat may look, and the
 * process may die. `Step` says what each event does to the whole agent; the class does it field by
 * field and is proved equal to it; the theorems are about every run of `Step`.
 *
 * A fingerprint is modelled as the list of bounds it is the hash of.
 */
module ScanService {
  import opened Wrappers
  import opened DiscoveryCursor

  const CHUNK_MAX_IPS := 400

  datatype ScanState = ScanState(
    fingerprint: Option<seq<CursorRange>>,
    rangeIdx: int,
    offsetInRange: int,
    scannedThisLap: int,
    lapStartedAt: Option<int>,
    lastLapAt: Option<int>,
    lastLapMs: Option<int>,
    lapsCompleted: nat)
  {
    function Cursor(): Cursor {
      DiscoveryCursor.Cursor.Cursor(rangeIdx, offsetInRange)
    }
  }

  const EMPTY_SCAN_STATE := ScanState(None, 0, 0, 0, None, None, None, 0)

  // ---- the statements on the single row ----

  function GetScanState(row: Option<ScanState>): ScanState {
    if row.Some? then row.value else EMPTY_SCAN_STATE
  }

  function SaveScanCursor(row: Option<ScanState>, fingerprint: seq<CursorRange>, c: Cursor, scanned: int, now: int): ScanState {
    var st := GetScanState(row);
    st.(fingerprint := Some(fingerprint), rangeIdx := c.rangeIdx, offsetInRange := c.offset, scannedThisLap := scanned,
        lapStartedAt := if st.lapStartedAt.Some? then st.lapStartedAt else Some(now))
  }

  function RecordLapComplete(row: Option<ScanState>, fingerprint: seq<CursorRange>, lapMs: int, now: int): ScanState {
    var st := GetScanState(row);
    ScanState(Some(fingerprint), 0, 0, 0, None, Some(now), Some(lapMs), st.lapsCompleted + 1)
  }

  function ResetScanCursor(row: Option<ScanState>, fingerprint: seq<CursorRange>, now: int): ScanState {
    GetScanState(row).(fingerprint := Some(fingerprint), rangeIdx := 0, offsetInRange := 0, scannedThisLap := 0,
                       lapStartedAt := Some(now))
  }

  predicate IsAtLapStart(st: ScanState) {
    st.rangeIdx == 0 && st.offsetInRange == 0 && st.scannedThisLap == 0
  }

  // ---- the agent as a whole ----

  /** The locals of a `scan()` in flight, and how many addresses of its plan were taken. */
  datatype Chunk = Chunk(ranges: seq<CursorRange>, state: ScanState, startedAt: int, taken: nat)

  /** What was really probed since a lap opened, and how often the process died inside a chunk of it. */
  datatype Trace = Trace(ranges: seq<CursorRange>, probed: seq<Probe>, crashes: nat)

  datatype Agent = Agent(
    row: Option<ScanState>,
    ranges: seq<CursorRange>,
    chunk: Option<Chunk>,
    restartPending: bool,
    lap: Trace,
    closed: seq<Trace>)

  datatype Event =
    | Begin(backpressure: bool, now: int)
    | TakeIp
    | EndChunk(now: int)
    | EditRanges(ranges: seq<CursorRange>)
    | RestartDiscovery(now: int)
    | Crash

  ghost function Plan(c: Chunk): seq<Probe> {
    Planned(c.ranges, c.state.Cursor(), CHUNK_MAX_IPS)
  }

  ghost function ApplyRestart(s: Agent, now: int): Agent {
    s.(row := Some(ResetScanCursor(s.row, s.ranges, now)), lap := Trace(s.ranges, [], 0))
  }

  /** The row a chunk works from: reset if the declared space changed, and with its lap open. */
  function OpenRow(row: Option<ScanState>, ranges: seq<CursorRange>, now: int): Option<ScanState> {
    var current := if GetScanState(row).fingerprint != Some(ranges) then Some(ResetScanCursor(row, ranges, now)) else row;
    var st := GetScanState(current);
    if IsAtLapStart(st) && st.lapStartedAt.None? then Some(SaveScanCursor(current, ranges, CURSOR_START, 0, now))
    else current
  }

  ghost function StepBegin(s: Agent, backpressure: bool, now: int): Agent {
    if s.chunk.Some? || backpressure then s
    else
      var row := OpenRow(s.row, s.ranges, now);
      s.(row := row,
         chunk := Some(Chunk(s.ranges, GetScanState(row), now, 0)),
         lap := if GetScanState(s.row).fingerprint != Some(s.ranges) then Trace(s.ranges, [], 0) else s.lap)
  }

  ghost function StepEnd(s: Agent, now: int): Agent
    requires s.chunk.Some?
  {
    var c := s.chunk.value;
    var moved := Advance(c.ranges, c.state.Cursor(), c.taken);
    var since := if c.state.lapStartedAt.Some? then c.state.lapStartedAt.value else c.startedAt;
    var saved :=
      if moved.lapComplete then
        s.(row := Some(RecordLapComplete(s.row, c.ranges, Max(0, now - since), now)), chunk := None,
           lap := Trace(c.ranges, [], 0), closed := s.closed + [s.lap])
      else
        s.(row := Some(SaveScanCursor(s.row, c.ranges, moved.next, c.state.scannedThisLap + c.taken, now)), chunk := None);
    if s.restartPending then ApplyRestart(saved.(restartPending := false), now) else saved
  }

  ghost function Step(s: Agent, e: Event): Agent {
    match e
    case Begin(backpressure, now) => StepBegin(s, backpressure, now)
    case TakeIp =>
      if s.chunk.Some? && s.chunk.value.taken < |Plan(s.chunk.value)| then
        var c := s.chunk.value;
        s.(chunk := Some(c.(taken := c.taken + 1)), lap := s.lap.(probed := s.lap.probed + [Plan(c)[c.taken]]))
      else s
    case EndChunk(now) => if s.chunk.Some? then StepEnd(s, now) else s
    case EditRanges(ranges) => s.(ranges := ranges)
    case RestartDiscovery(now) => if s.chunk.Some? then s.(restartPending := true) else ApplyRestart(s, now)
    case Crash =>
      s.(chunk := None, restartPending := false,
         lap := if s.chunk.Some? then s.lap.(crashes := s.lap.crashes + 1) else s.lap)
  }

  ghost function Run(s: Agent, events: seq<Event>): Agent
    decreases |events|
  {
    if events == [] then s else Run(Step(s, events[0]), events[1..])
  }

  ghost function Installed(ranges: seq<CursorRange>): Agent {
    Agent(None, ranges, None, false, Trace([], [], 0), [])
  }

  // ---- what every state keeps ----

  /** The probes cover the first `k` addresses of `space`, stay inside it, and waste at most a chunk per crash. */
  ghost predicate Covers(space: seq<Probe>, k: nat, t: Trace) {
    && k <= |space|
    && (forall p | 0 <= p < k :: space[p] in t.probed)
    && (forall x | x in t.probed :: x in space)
    && |t.probed| <= k + CHUNK_MAX_IPS * t.crashes
    && (t.crashes == 0 ==> t.probed == space[..k])
  }

  /** The row: its counter is the linear position of its cursor, and an open lap has something left. */
  ghost predicate RowOk(st: ScanState, lap: Trace) {
    st.fingerprint.Some? ==>
      var ranges := st.fingerprint.value;
      && st.scannedThisLap == Position(ranges, st.Cursor())
      && (IsAtLapStart(st) || st.scannedThisLap < TotalDeclaredIps(ranges))
      && (st.lapStartedAt.None? ==> IsAtLapStart(st))
      && lap.ranges == ranges
  }

  ghost predicate ChunkOk(s: Agent) {
    s.chunk.Some? ==>
      var c := s.chunk.value;
      && s.row == Some(c.state) && c.state.fingerprint == Some(c.ranges) && c.state.lapStartedAt.Some?
      && c.taken <= |Plan(c)|
  }

  ghost function Progress(s: Agent): int {
    GetScanState(s.row).scannedThisLap + if s.chunk.Some? then s.chunk.value.taken else 0
  }

  ghost predicate Invariant(s: Agent) {
    && RowOk(GetScanState(s.row), s.lap)
    && (s.row.Some? ==> s.row.value.fingerprint.Some?)
    && ChunkOk(s)
    && (s.restartPending ==> s.chunk.Some?)
    && GetScanState(s.row).lapsCompleted == |s.closed|
    && (s.row.Some? ==> 0 <= Progress(s) && Covers(Space(s.lap.ranges), Progress(s), s.lap))
    && (forall t | t in s.closed :: Covers(Space(t.ranges), TotalDeclaredIps(t.ranges), t))
  }

  lemma FreshTrace(ranges: seq<CursorRange>)
    ensures Position(ranges, CURSOR_START) == 0
    ensures Covers(Space(ranges), 0, Trace(ranges, [], 0))
  {
    StartIsZero(ranges);
  }

  lemma RestartKeeps(s: Agent, now: int)
    requires Invariant(s) && s.chunk.None? && !s.restartPending
    ensures Invariant(ApplyRestart(s, now))
  {
    FreshTrace(s.ranges);
  }

  /** The row a chunk works from belongs to its ranges, keeps progress made in them and no other. */
  lemma OpenRowIsOpen(row: Option<ScanState>, ranges: seq<CursorRange>, now: int)
    requires GetScanState(row).lapStartedAt.None? ==> IsAtLapStart(GetScanState(row))
    ensures var st, open := GetScanState(row), OpenRow(row, ranges, now);
            && open.Some? && open.value.fingerprint == Some(ranges)
            && open.value.lapStartedAt.Some?
            && open.value.lapsCompleted == st.lapsCompleted
            && if st.fingerprint == Some(ranges)
               then open.value.Cursor() == st.Cursor() && open.value.scannedThisLap == st.scannedThisLap
               else open.value.Cursor() == CURSOR_START && open.value.scannedThisLap == 0
  {
  }

  lemma OpenRowKeeps(s: Agent, st: ScanState, now: int)
    requires Invariant(s) && s.chunk.None? && st.fingerprint == Some(s.ranges) && st.lapStartedAt.Some?
    requires st.lapsCompleted == GetScanState(s.row).lapsCompleted
    requires GetScanState(s.row).fingerprint == Some(s.ranges)
    requires st.Cursor() == GetScanState(s.row).Cursor() && st.scannedThisLap == GetScanState(s.row).scannedThisLap
    ensures Invariant(s.(row := Some(st), chunk := Some(Chunk(s.ranges, st, now, 0))))
  {
    hide Position, TotalDeclaredIps, Space, Covers;
  }

  lemma FreshRowKeeps(s: Agent, st: ScanState, now: int)
    requires Invariant(s) && s.chunk.None? && st.fingerprint == Some(s.ranges) && st.lapStartedAt.Some?
    requires st.lapsCompleted == GetScanState(s.row).lapsCompleted
    requires st.Cursor() == CURSOR_START && st.scannedThisLap == 0
    ensures Invariant(s.(row := Some(st), chunk := Some(Chunk(s.ranges, st, now, 0)), lap := Trace(s.ranges, [], 0)))
  {
    hide Position, TotalDeclaredIps, Space, Covers;
    FreshTrace(s.ranges);
  }

  lemma BeginKeeps(s: Agent, backpressure: bool, now: int)
    requires Invariant(s)
    ensures Invariant(StepBegin(s, backpressure, now))
  {
    if s.chunk.None? && !backpressure {
      OpenRowIsOpen(s.row, s.ranges, now);
      var st := OpenRow(s.row, s.ranges, now).value;
      if GetScanState(s.row).fingerprint == Some(s.ranges) {
        OpenRowKeeps(s, st, now);
      } else {
        FreshRowKeeps(s, st, now);
      }
    }
  }

  lemma PlanAt(c: Chunk, j: nat)
    requires j < |Plan(c)|
    ensures var k := Position(c.ranges, c.state.Cursor()) + j;
            k < |Space(c.ranges)| && Plan(c)[j] == Space(c.ranges)[k]
  {
    PositionInSpace(c.ranges, c.state.Cursor());
  }

  lemma TakeKeeps(s: Agent)
    requires Invariant(s)
    ensures Invariant(Step(s, TakeIp))
  {
    hide Position, TotalDeclaredIps, Space, Covers;
    if s.chunk.Some? && s.chunk.value.taken < |Plan(s.chunk.value)| {
      var c := s.chunk.value;
      PlanAt(c, c.taken);
      CoversOneMore(Space(c.ranges), Progress(s), s.lap);
    }
  }

  lemma CoversOneMore(space: seq<Probe>, k: nat, t: Trace)
    requires Covers(space, k, t) && k < |space|
    ensures Covers(space, k + 1, t.(probed := t.probed + [space[k]]))
  {
    assert space[..k + 1] == space[..k] + [space[k]];
  }

  lemma EndKeeps(s: Agent, now: int)
    requires Invariant(s) && s.chunk.Some? && !s.restartPending
    ensures Invariant(StepEnd(s, now))
  {
    hide Position, TotalDeclaredIps, Space, Covers;
    var c := s.chunk.value;
    var moved := Advance(c.ranges, c.state.Cursor(), c.taken);
    FreshTrace(c.ranges);
    PositionInSpace(c.ranges, c.state.Cursor());
    if moved.lapComplete {
      assert Progress(s) == TotalDeclaredIps(c.ranges);
    } else {
      PositionInSpace(c.ranges, moved.next);
    }
  }

  lemma EndAndRestartKeep(s: Agent, now: int)
    requires Invariant(s) && s.chunk.Some?
    ensures Invariant(StepEnd(s, now))
  {
    var calm := s.(restartPending := false);
    EndKeeps(calm, now);
    if s.restartPending {
      RestartKeeps(StepEnd(calm, now), now);
    }
  }

  lemma CrashKeeps(s: Agent)
    requires Invariant(s)
    ensures Invariant(Step(s, Crash))
  {
    if s.chunk.Some? {
      var space := Space(s.lap.ranges);
      var k := GetScanState(s.row).scannedThisLap;
      assert |s.lap.probed| <= k + CHUNK_MAX_IPS * (s.lap.crashes + 1);
    }
  }

  lemma StepKeeps(s: Agent, e: Event)
    requires Invariant(s)
    ensures Invariant(Step(s, e))
  {
    match e
    case Begin(backpressure, now) => BeginKeeps(s, backpressure, now);
    case TakeIp => TakeKeeps(s);
    case EndChunk(now) =>
      if s.chunk.Some? {
        EndAndRestartKeep(s, now);
      }
    case EditRanges(ranges) =>
    case RestartDiscovery(now) =>
      if s.chunk.None? {
        RestartKeeps(s, now);
      }
    case Crash => CrashKeeps(s);
  }

  lemma {:induction false} RunKeeps(s: Agent, events: seq<Event>)
    requires Invariant(s)
    ensures Invariant(Run(s, events))
    decreases |events|
  {
    if events != [] {
      StepKeeps(s, events[0]);
      RunKeeps(Step(s, events[0]), events[1..]);
    }
  }

  // ---- what that means, over every run of an installed agent ----

  ghost function After(ranges: seq<CursorRange>, events: seq<Event>): (s: Agent)
    ensures Invariant(s)
  {
    RunKeeps(Installed(ranges), events);
    Run(Installed(ranges), events)
  }

  /**
   * Every lap ever closed probed all of the space it was opened for; without crashes it probed each
   * address once and in order, and each crash cost at most one chunk of repeated probes.
   */
  lemma EveryClosedLapIsWhole(ranges: seq<CursorRange>, events: seq<Event>)
    ensures forall t | t in After(ranges, events).closed :: Whole(Space(t.ranges), t)
  {
    var s := After(ranges, events);
    forall t | t in s.closed ensures Whole(Space(t.ranges), t) {
      ClosedIsCovered(s, t);
      CoveredIsWhole(Space(t.ranges), t);
    }
  }

  /** In the addresses themselves: a closed lap probed exactly those between the ends of some range. */
  lemma EveryDeclaredAddressWasProbed(ranges: seq<CursorRange>, events: seq<Event>, t: Trace, ip: Address, k: nat)
    ensures t in After(ranges, events).closed ==>
              (Probe(ip, k) in t.probed
               <==> k < |t.ranges| && AtMost(t.ranges[k].start, ip) && AtMost(ip, t.ranges[k].end))
  {
    hide AtMost, After, Space;
    EveryClosedLapIsWhole(ranges, events);
    SpaceHolds(t.ranges, ip, k);
    if t in After(ranges, events).closed && Probe(ip, k) in Space(t.ranges) {
      var p :| 0 <= p < |Space(t.ranges)| && Space(t.ranges)[p] == Probe(ip, k);
      assert Space(t.ranges)[p] in t.probed;
    }
  }

  ghost predicate Whole(space: seq<Probe>, t: Trace) {
    && (forall p | 0 <= p < |space| :: space[p] in t.probed)
    && (forall x | x in t.probed :: x in space)
    && |t.probed| <= |space| + CHUNK_MAX_IPS * t.crashes
    && (t.crashes == 0 ==> t.probed == space)
  }

  lemma ClosedIsCovered(s: Agent, t: Trace)
    requires Invariant(s) && t in s.closed
    ensures Covers(Space(t.ranges), |Space(t.ranges)|, t)
  {
  }

  lemma CoveredIsWhole(space: seq<Probe>, t: Trace)
    requires Covers(space, |space|, t)
    ensures Whole(space, t)
  {
    assert space[..|space|] == space;
  }

  /** The saved counter is the linear position of the saved cursor, and everything before it was probed. */
  lemma SavedProgressIsReal(ranges: seq<CursorRange>, events: seq<Event>)
    ensures var s := After(ranges, events);
            s.row.Some? ==>
              var space := Space(s.row.value.fingerprint.value);
              && s.row.value.scannedThisLap == Position(s.row.value.fingerprint.value, s.row.value.Cursor())
              && s.row.value.scannedThisLap <= |space|
              && (forall p | 0 <= p < s.row.value.scannedThisLap :: space[p] in s.lap.probed)
  {
  }

  datatype DiscoveryState = DiscoveryState(
    inProgress: bool,
    scanned: int,
    total: int,
    lapStartedAt: Option<int>,
    lastLapAt: Option<int>,
    lastLapMs: Option<int>,
    lapsCompleted: nat)

  function BuildDiscoveryState(state: ScanState, ranges: seq<CursorRange>): DiscoveryState {
    var stale := state.fingerprint != Some(ranges);
    DiscoveryState(!stale && state.lapStartedAt.Some?,
                   if stale then 0 else state.scannedThisLap,
                   TotalDeclaredIps(ranges),
                   if stale then None else state.lapStartedAt,
                   state.lastLapAt, state.lastLapMs, state.lapsCompleted)
  }

  /** Whenever the heartbeat looks, it reports 0 <= scanned <= total; an open lap has something left, a closed one reports 0. */
  lemma HeartbeatIsSane(ranges: seq<CursorRange>, events: seq<Event>)
    ensures var s := After(ranges, events);
            var d := BuildDiscoveryState(GetScanState(s.row), s.ranges);
            && 0 <= d.scanned <= d.total
            && (!d.inProgress ==> d.scanned == 0)
            && (d.inProgress && d.total > 0 ==> d.scanned < d.total)
            && d.lapsCompleted == |s.closed|
  {
    var s := After(ranges, events);
    PositionInSpace(s.ranges, GetScanState(s.row).Cursor());
  }

  /** What it reports: how many addresses are declared, and how many of them the lap in that space is past. */
  lemma HeartbeatIsExact(ranges: seq<CursorRange>, events: seq<Event>)
    ensures var s := After(ranges, events);
            var d := BuildDiscoveryState(GetScanState(s.row), s.ranges);
            && d.total == |Space(s.ranges)|
            && (s.row.Some? && s.row.value.fingerprint == Some(s.ranges) ==>
                  && d.scanned == Position(s.ranges, s.row.value.Cursor())
                  && d.scanned <= |Space(s.ranges)|
                  && (forall p | 0 <= p < d.scanned :: Space(s.ranges)[p] in s.lap.probed)
                  && d.inProgress == s.row.value.lapStartedAt.Some? && d.lapStartedAt == s.row.value.lapStartedAt)
            && (s.row.None? || s.row.value.fingerprint != Some(s.ranges) ==> !d.inProgress && d.scanned == 0 && d.lapStartedAt == None)
  {
    SavedProgressIsReal(ranges, events);
    var s := After(ranges, events);
    hide After, Position;
  }

  /** How much of the lap is done before a chunk begins: progress made in another space does not count. */
  ghost function Kept(s: Agent): int {
    if GetScanState(s.row).fingerprint == Some(s.ranges) then GetScanState(s.row).scannedThisLap else 0
  }

  lemma BegunChunk(s: Agent, now: int)
    requires Invariant(s) && s.chunk.None?
    ensures var begun := StepBegin(s, false, now);
            && begun.chunk.Some? && begun.chunk.value.ranges == s.ranges && begun.chunk.value.taken == 0
            && begun.chunk.value.state.scannedThisLap == Kept(s)
            && Kept(s) == Position(s.ranges, begun.chunk.value.state.Cursor())
  {
    OpenRowIsOpen(s.row, s.ranges, now);
    StartIsZero(s.ranges);
  }

  lemma PlanFrom(c: Chunk, kept: int)
    requires kept == Position(c.ranges, c.state.Cursor())
    ensures 0 <= kept <= |Space(c.ranges)|
    ensures Plan(c) == Space(c.ranges)[kept..Min(kept + CHUNK_MAX_IPS, |Space(c.ranges)|)]
  {
    PositionInSpace(c.ranges, c.state.Cursor());
  }

  /** A chunk never starts from progress made in another space; with the same space it starts where it was. */
  lemma ChunkStartsWhereSaved(ranges: seq<CursorRange>, events: seq<Event>, now: int)
    ensures var s := After(ranges, events);
            var begun := Step(s, Begin(false, now));
            s.chunk.None? ==>
              && begun.chunk.Some? && begun.chunk.value.ranges == s.ranges
              && begun.chunk.value.state.scannedThisLap == Kept(s)
              && 0 <= Kept(s) <= |Space(s.ranges)|
              && Plan(begun.chunk.value) == Space(s.ranges)[Kept(s)..Min(Kept(s) + CHUNK_MAX_IPS, |Space(s.ranges)|)]
  {
    var s := After(ranges, events);
    if s.chunk.None? {
      BegunChunk(s, now);
      PlanFrom(StepBegin(s, false, now).chunk.value, Kept(s));
    }
  }

  /** A chunk that ends with a restart pending leaves the row at the start of the configured space. */
  lemma EndRestarts(s: Agent, now: int)
    requires s.chunk.Some? && s.restartPending
    ensures var end := Step(s, EndChunk(now));
            && end.chunk.None? && !end.restartPending
            && end.row.Some? && IsAtLapStart(end.row.value) && end.row.value.fingerprint == Some(s.ranges)
            && end.row.value.lapStartedAt == Some(now)
            && end.lap == Trace(s.ranges, [], 0)
  {
    hide Advance, Plan, RecordLapComplete, SaveScanCursor;
  }

  /**
   * A restart asked for during a chunk survives that chunk's own save: whatever happens until the chunk ends,
   * the row is then at the start of the space configured by then. (A crash loses the request.)
   */
  lemma DeferredRestartIsNotLost(s: Agent, asked: int, events: seq<Event>, now: int)
    requires Invariant(s) && s.chunk.Some?
    requires forall k | 0 <= k < |events| :: !events[k].EndChunk? && !events[k].Crash?
    ensures var before := Run(Step(s, RestartDiscovery(asked)), events);
            var end := Step(before, EndChunk(now));
            && end.chunk.None? && !end.restartPending
            && end.row.Some? && IsAtLapStart(end.row.value) && end.row.value.fingerprint == Some(before.ranges)
            && end.row.value.lapStartedAt == Some(now)
            && end.lap == Trace(before.ranges, [], 0)
  {
    var pending := Step(s, RestartDiscovery(asked));
    assert pending.chunk.Some? && pending.restartPending;
    hide Invariant, Run, Step;
    RestartStaysPending(pending, events);
    EndRestarts(Run(pending, events), now);
  }

  /** With no chunk running a restart takes effect at once. */
  lemma RestartIsImmediate(s: Agent, now: int)
    requires Invariant(s) && s.chunk.None?
    ensures var t := Step(s, RestartDiscovery(now));
            && t.row.Some? && t.row.value.rangeIdx == 0 && t.row.value.offsetInRange == 0 && t.row.value.scannedThisLap == 0
            && t.row.value.fingerprint == Some(s.ranges) && t.row.value.lapStartedAt == Some(now)
            && t.chunk.None? && !t.restartPending && t.closed == s.closed && t.row.value.lapsCompleted == |s.closed|
  {
    hide RowOk, Covers;
  }

  /** Neither a full queue nor a scan under way lets another scan begin. */
  lemma NothingBegins(s: Agent, backpressure: bool, now: int)
    requires s.chunk.Some? || backpressure
    ensures Step(s, Begin(backpressure, now)) == s
  {
  }

  /** How long a lap took: from when its row was opened to the end of its last chunk, and never less than nothing. */
  lemma LapIsTimed(s: Agent, now: int)
    requires Invariant(s) && s.chunk.Some? && !s.restartPending
    ensures var t := Step(s, EndChunk(now));
            |t.closed| > |s.closed| ==>
              && s.row.value.lapStartedAt.Some? && t.row.Some? && t.row.value.lapStartedAt == None
              && t.row.value.lastLapAt == Some(now) && t.row.value.lapsCompleted == s.row.value.lapsCompleted + 1
              && t.row.value.lastLapMs == Some(if now >= s.row.value.lapStartedAt.value then now - s.row.value.lapStartedAt.value else 0)
    ensures var t := Step(s, EndChunk(now));
            |t.closed| == |s.closed| ==>
              && t.row.Some? && t.row.value.lapStartedAt == s.row.value.lapStartedAt
              && t.row.value.lastLapMs == s.row.value.lastLapMs && t.row.value.lapsCompleted == s.row.value.lapsCompleted
  {
    hide RowOk, Covers, Advance, Plan;
  }

  lemma {:induction false} RestartStaysPending(s: Agent, events: seq<Event>)
    requires s.chunk.Some? && s.restartPending
    requires forall k | 0 <= k < |events| :: !events[k].EndChunk? && !events[k].Crash?
    ensures Run(s, events).chunk.Some? && Run(s, events).restartPending
    decreases |events|
  {
    hide StepEnd;
    if events != [] {
      assert !events[0].EndChunk? && !events[0].Crash?;
      RestartStaysPending(Step(s, events[0]), events[1..]);
    }
  }

  /** A crash leaves the row alone, so the next chunk plans again every address the dead one had taken. */
  lemma CrashRepeatsTheChunk(s: Agent, now: int)
    requires Invariant(s) && s.chunk.Some? && s.chunk.value.ranges == s.ranges
    ensures var again := Step(Step(s, Crash), Begin(false, now));
            && again.row == s.row && again.chunk.Some?
            && Plan(again.chunk.value) == Plan(s.chunk.value)
            && s.chunk.value.taken <= |Plan(again.chunk.value)| <= 400
  {
  }

  // ---- the service, field by field ----

  class ScanService {
    var row: Option<ScanState>
    var ipRanges: seq<CursorRange>
    var isScanning: bool
    var restartPending: bool
    // the locals of the scan() in flight
    var ranges: seq<CursorRange>
    var state: ScanState
    var startedAt: int
    var plan: ChunkPlan
    var taken: nat
    // history
    ghost var lap: Trace
    ghost var closed: seq<Trace>

    ghost predicate Valid()
      reads this
    {
      isScanning ==>
        && |plan.ips| == |plan.rangeIdxOf|
        && Probes(plan) == Planned(ranges, state.Cursor(), CHUNK_MAX_IPS)
    }

    ghost function View(): Agent
      reads this
    {
      Agent(row, ipRanges, if isScanning then Some(Chunk(ranges, state, startedAt, taken)) else None, restartPending, lap, closed)
    }

    constructor (ipRanges: seq<CursorRange>)
      ensures Valid() && View() == Installed(ipRanges)
    {
      row, this.ipRanges, isScanning, restartPending := None, ipRanges, false, false;
      ranges, state, startedAt, taken := [], EMPTY_SCAN_STATE, 0, 0;
      plan := ChunkPlan([], [], CURSOR_START, true);
      lap, closed := Trace([], [], 0), [];
    }

    /** scan(), from its guard to the plan of the chunk. */
    method BeginScan(backpressure: bool, now: int)
      requires Valid()
      modifies this
      ensures Valid() && View() == Step(old(View()), Begin(backpressure, now))
    {
      if isScanning {
        return;
      }
      isScanning := true;
      if backpressure {
        isScanning := false;
        return;
      }
      StartChunk(now);
    }

    /** The part of scan() between the backpressure check and the first probe. */
    method StartChunk(now: int)
      requires isScanning
      modifies this
      ensures Valid()
      ensures View() == old(View()).(
                row := OpenRow(old(row), old(ipRanges), now),
                chunk := Some(Chunk(old(ipRanges), GetScanState(OpenRow(old(row), old(ipRanges), now)), now, 0)),
                lap := if GetScanState(old(row)).fingerprint != Some(old(ipRanges)) then Trace(old(ipRanges), [], 0) else old(lap))
    {
      hide OpenRow, Planned, Position, ReachesEnd, Canonical;
      ranges := ipRanges;
      OpenLap(now);
      startedAt, taken := now, 0;
      plan := PlanChunk(ranges, state.Cursor(), CHUNK_MAX_IPS);
    }

    /** The part of scan() that reads, resets and opens the row. */
    method OpenLap(now: int)
      modifies this`row, this`state, this`lap
      ensures row == OpenRow(old(row), ranges, now) && state == GetScanState(row)
      ensures lap == if GetScanState(old(row)).fingerprint != Some(ranges) then Trace(ranges, [], 0) else old(lap)
    {
      state := GetScanState(row);
      if state.fingerprint != Some(ranges) {
        row := Some(ResetScanCursor(row, ranges, now));
        lap := Trace(ranges, [], 0);
        state := GetScanState(row);
      }
      if IsAtLapStart(state) {
        if state.lapStartedAt.None? {
          row := Some(SaveScanCursor(row, ranges, CURSOR_START, 0, now));
          state := GetScanState(row);
        }
      }
    }

    /** One turn of a worker: it takes the next address of the plan, if there is one. */
    method TakeOne() returns (ip: Option<Address>)
      requires Valid()
      modifies this
      ensures Valid() && View() == Step(old(View()), TakeIp)
      ensures ip == if old(isScanning) && old(taken) < |plan.ips| then Some(plan.ips[old(taken)]) else None
      ensures plan == old(plan)
    {
      ip := None;
      if isScanning && taken < |plan.ips| {
        ip := Some(plan.ips[taken]);
        lap := lap.(probed := lap.probed + [Probes(plan)[taken]]);
        taken := taken + 1;
      }
    }

    /** scan(), from the end of its chunk through its `finally`. */
    method EndScan(now: int)
      requires Valid()
      modifies this
      ensures Valid() && View() == Step(old(View()), EndChunk(now))
    {
      if !isScanning {
        return;
      }
      var scannedThisLap := state.scannedThisLap + taken;
      var next, lapComplete := AdvanceCursor(ranges, state.Cursor(), taken);
      if lapComplete {
        var since := if state.lapStartedAt.Some? then state.lapStartedAt.value else startedAt;
        row := Some(RecordLapComplete(row, ranges, Max(0, now - since), now));
        closed := closed + [lap];
        lap := Trace(ranges, [], 0);
      } else {
        row := Some(SaveScanCursor(row, ranges, next, scannedThisLap, now));
      }
      isScanning := false;
      if restartPending {
        restartPending := false;
        DoRestart(now);
      }
    }

    method RequestRestart(now: int)
      requires Valid()
      modifies this
      ensures Valid() && View() == Step(old(View()), RestartDiscovery(now))
    {
      if isScanning {
        restartPending := true;
        return;
      }
      DoRestart(now);
    }

    method DoRestart(now: int)
      requires Valid()
      modifies this`row, this`lap
      ensures Valid() && View() == ApplyRestart(old(View()), now)
    {
      row := Some(ResetScanCursor(row, ipRanges, now));
      lap := Trace(ipRanges, [], 0);
    }

    method SetRanges(edited: seq<CursorRange>)
      requires Valid()
      modifies this`ipRanges
      ensures Valid() && View() == Step(old(View()), EditRanges(edited))
    {
      ipRanges := edited;
    }

    /** The process dies and starts again: the row and the configuration are on disk, the rest is gone. */
    method Reboot()
      requires Valid()
      modifies this
      ensures Valid() && View() == Step(old(View()), Crash)
    {
      if isScanning {
        lap := lap.(crashes := lap.crashes + 1);
      }
      isScanning, restartPending := false, false;
    }
  }
}
