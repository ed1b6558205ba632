/**
 * The offline delivery queue (agent/src/sync/database.ts, agent/src/sync/uploader.ts,
 * agent/src/core/SyncService.ts) against the ingesting server
 * (cloud/src/modules/agents/application/use-cases/sync-readings.ts).
 *
 * The network may lose an answer, deliver a request late, or deliver it again; the agent may die at
 * any point between sending a batch and marking it. A body that was sent once stays in `network` for
 * ever, so the server may process it at any later moment, any number of times.
 */
module DeliveryQueue {
  import opened Wrappers

  const BATCH := 500

  /** A row of `readings_queue`: what identifies the reading, and whether it was delivered. */
  datatype Row = Row(id: nat, readingId: nat, time: int, synced: bool)

  // ---- the local half ----

  /** `inFlight` is the batch an `uploadPending` is waiting on; it is also what `_isSyncing` guards. */
  datatype Local = Local(rows: seq<Row>, nextId: nat, inFlight: Option<seq<Row>>)

  /** The rows of `WHERE synced = 0 ORDER BY id`; deleting the others leaves exactly these. */
  function Unsynced(rows: seq<Row>): seq<Row> {
    if rows == [] then []
    else (if rows[0].synced then [] else [rows[0]]) + Unsynced(rows[1..])
  }

  function Mark(rows: seq<Row>, ids: set<nat>): (marked: seq<Row>)
    ensures |marked| == |rows|
    ensures forall i | 0 <= i < |rows| :: marked[i] == if rows[i].id in ids then rows[i].(synced := true) else rows[i]
  {
    seq(|rows|, i requires 0 <= i < |rows| => if rows[i].id in ids then rows[i].(synced := true) else rows[i])
  }

  function Ids(rows: seq<Row>): set<nat> {
    set r | r in rows :: r.id
  }

  function Take(rows: seq<Row>, limit: nat): seq<Row> {
    if |rows| <= limit then rows else rows[..limit]
  }

  function Enqueued(l: Local, readingId: nat, time: int): Local {
    l.(rows := l.rows + [Row(l.nextId, readingId, time, false)], nextId := l.nextId + 1)
  }

  /** syncLoop up to its request: purge, then the oldest 500 pending rows. */
  function SyncStarted(l: Local): Local {
    if l.inFlight.Some? then l
    else
      var kept := Unsynced(l.rows);
      l.(rows := kept, inFlight := if kept == [] then None else Some(Take(kept, BATCH)))
  }

  /** The request came back ok: its rows are marked. */
  function Confirmed(l: Local): Local {
    if l.inFlight.None? then l
    else l.(rows := Mark(l.rows, Ids(l.inFlight.value)), inFlight := None)
  }

  /** It failed, timed out, or the process died: the rows stay as they are. */
  function GivenUp(l: Local): Local {
    l.(inFlight := None)
  }

  // ---- the server ----

  /**
   * Why a reading of an accepted body is not inserted: its device is disabled or ignored, its processing
   * threw, or its device was gone by the time of the INSERT. None of them changes the answer.
   */
  datatype Loss = Suppressed | Failed | DeviceGone

  /** `UNIQUE (reading_id, time)`; `tried` is history, what each processing of a reading came to, None for an INSERT. */
  datatype Server = Server(stored: seq<(nat, int)>, tried: set<(nat, Option<Loss>)>)

  function Insert(stored: seq<(nat, int)>, key: (nat, int)): seq<(nat, int)> {
    if key in stored then stored else stored + [key]
  }

  function IngestOne(server: Server, r: Row, lost: map<nat, Loss>): Server {
    if r.readingId in lost then server.(tried := server.tried + {(r.readingId, Some(lost[r.readingId]))})
    else Server(Insert(server.stored, (r.readingId, r.time)), server.tried + {(r.readingId, None)})
  }

  function Ingest(server: Server, body: seq<Row>, lost: map<nat, Loss>): Server
    decreases |body|
  {
    if body == [] then server else Ingest(IngestOne(server, body[0], lost), body[1..], lost)
  }

  ghost predicate Tried(server: Server, readingId: nat) {
    exists o :: (readingId, o) in server.tried
  }

  // ---- the two together ----

  /**
   * `times` records every reading ever enqueued with its own time, `answered` the bodies that were answered
   * with success, `confirmed` the readings whose rows were marked on such an answer.
   */
  datatype System = System(
    local: Local,
    network: set<seq<Row>>,
    answered: set<seq<Row>>,
    server: Server,
    times: map<nat, int>,
    confirmed: set<nat>)

  datatype Event =
    | Enqueue(readingId: nat, time: int)
    | StartSync
    | Serve(body: seq<Row>, lost: map<nat, Loss>, answers: bool)
    | AnswerOk
    | AnswerLost
    | Crash

  function ReadingIds(rows: seq<Row>): set<nat> {
    set r | r in rows :: r.readingId
  }

  /** A reading id is a fresh UUID, so enqueueing a known one is not an event of the system. */
  function Step(s: System, e: Event): System {
    match e
    case Enqueue(readingId, time) =>
      if readingId in s.times then s
      else s.(local := Enqueued(s.local, readingId, time), times := s.times[readingId := time])
    case StartSync =>
      var l := SyncStarted(s.local);
      s.(local := l, network := if l.inFlight.Some? then s.network + {l.inFlight.value} else s.network)
    case Serve(body, lost, answers) =>
      if body !in s.network then s
      else s.(server := Ingest(s.server, body, lost), answered := if answers then s.answered + {body} else s.answered)
    case AnswerOk =>
      if s.local.inFlight.Some? && s.local.inFlight.value in s.answered then
        s.(local := Confirmed(s.local), confirmed := s.confirmed + ReadingIds(s.local.inFlight.value))
      else s
    case AnswerLost => s.(local := GivenUp(s.local))
    case Crash => s.(local := GivenUp(s.local))
  }

  function Run(s: System, events: seq<Event>): System
    decreases |events|
  {
    if events == [] then s else Run(Step(s, events[0]), events[1..])
  }

  const Fresh := System(Local([], 0, None), {}, {}, Server([], {}), map[], {})

  // ---- invariants ----

  ghost predicate Ordered(l: Local) {
    && (forall i, j | 0 <= i < j < |l.rows| :: l.rows[i].id < l.rows[j].id)
    && (forall i | 0 <= i < |l.rows| :: l.rows[i].id < l.nextId)
  }

  /** The delivered rows are the first `k`; while a batch is out there are none and the batch leads the queue. */
  ghost predicate SyncedPrefix(l: Local, k: nat) {
    && k <= |l.rows|
    && (forall i | 0 <= i < |l.rows| :: l.rows[i].synced <==> i < k)
    && (l.inFlight.Some? ==> k == 0 && l.inFlight.value <= l.rows)
  }

  ghost predicate Known(times: map<nat, int>, r: Row) {
    r.readingId in times && times[r.readingId] == r.time
  }

  ghost predicate Stored(server: Server, times: map<nat, int>, readingId: nat) {
    readingId in times && (readingId, times[readingId]) in server.stored
  }

  ghost predicate ServerOk(server: Server, times: map<nat, int>) {
    && (forall i | 0 <= i < |server.stored| ::
          && server.stored[i].0 in times && times[server.stored[i].0] == server.stored[i].1
          && (server.stored[i].0, None) in server.tried)
    && (forall i, j | 0 <= i < j < |server.stored| :: server.stored[i].0 != server.stored[j].0)
    && (forall r | (r, None) in server.tried :: Stored(server, times, r))
  }

  ghost predicate Queued(l: Local, readingId: nat) {
    exists i | 0 <= i < |l.rows| :: l.rows[i].readingId == readingId && !l.rows[i].synced
  }

  /** Each row is a reading of its own, marked if and only if it was confirmed. */
  ghost predicate RowsOk(l: Local, times: map<nat, int>, confirmed: set<nat>) {
    && (forall i | 0 <= i < |l.rows| :: Known(times, l.rows[i]) && (l.rows[i].synced <==> l.rows[i].readingId in confirmed))
    && (forall i, j | 0 <= i < j < |l.rows| :: l.rows[i].readingId != l.rows[j].readingId)
  }

  ghost predicate BodiesOk(s: System) {
    && (forall b | b in s.network :: forall i | 0 <= i < |b| :: Known(s.times, b[i]))
    && s.answered <= s.network
    && (forall b: seq<Row> | b in s.answered :: forall i | 0 <= i < |b| :: Tried(s.server, b[i].readingId))
  }

  ghost predicate Invariant(s: System) {
    && Ordered(s.local)
    && (exists k :: SyncedPrefix(s.local, k))
    && RowsOk(s.local, s.times, s.confirmed)
    && BodiesOk(s)
    && ServerOk(s.server, s.times)
    && (forall r | r in s.confirmed :: r in s.times && Tried(s.server, r))
    && (forall r | r in s.times && r !in s.confirmed :: Queued(s.local, r))
  }

  // ---- lemmas on the pieces ----

  lemma {:induction false} UnsyncedOfPrefix(rows: seq<Row>, k: nat)
    requires k <= |rows| && forall i | 0 <= i < |rows| :: rows[i].synced <==> i < k
    ensures Unsynced(rows) == rows[k..]
    decreases |rows|
  {
    if rows != [] {
      if k > 0 {
        UnsyncedOfPrefix(rows[1..], k - 1);
        assert rows[1..][k - 1..] == rows[k..];
      } else {
        UnsyncedOfPrefix(rows[1..], 0);
        assert rows == [rows[0]] + rows[1..];
      }
    }
  }

  lemma IngestOneKeeps(server: Server, r: Row, lost: map<nat, Loss>, times: map<nat, int>)
    requires ServerOk(server, times) && Known(times, r)
    ensures var next := IngestOne(server, r, lost);
            && ServerOk(next, times) && Tried(next, r.readingId)
            && server.stored <= next.stored && server.tried <= next.tried
  {
    var next := IngestOne(server, r, lost);
    if r.readingId in lost {
      assert (r.readingId, Some(lost[r.readingId])) in next.tried;
    } else {
      assert (r.readingId, None) in next.tried;
      forall x | (x, None) in next.tried ensures Stored(next, times, x) {
        if x == r.readingId && (r.readingId, r.time) !in server.stored {
          assert next.stored[|server.stored|] == (r.readingId, r.time);
        } else if x != r.readingId {
          assert Stored(server, times, x);
        }
      }
    }
  }

  /** Ingesting keeps what was stored, tries the whole body, and never stores a reading id twice. */
  lemma {:induction false} IngestHandles(server: Server, body: seq<Row>, lost: map<nat, Loss>, times: map<nat, int>)
    requires ServerOk(server, times) && forall i | 0 <= i < |body| :: Known(times, body[i])
    ensures var after := Ingest(server, body, lost);
            && ServerOk(after, times)
            && (forall i | 0 <= i < |body| :: Tried(after, body[i].readingId))
            && server.stored <= after.stored && server.tried <= after.tried
    decreases |body|
  {
    hide ServerOk, IngestOne;
    if body != [] {
      var next := IngestOne(server, body[0], lost);
      IngestOneKeeps(server, body[0], lost, times);
      IngestHandles(next, body[1..], lost, times);
      var after := Ingest(next, body[1..], lost);
      forall i | 0 <= i < |body|
        ensures Tried(after, body[i].readingId)
      {
        if i == 0 { TriedStays(next, after, body[0].readingId); } else { assert body[i] == body[1..][i - 1]; }
      }
    }
  }

  lemma TriedStays(before: Server, after: Server, readingId: nat)
    requires before.tried <= after.tried && Tried(before, readingId)
    ensures Tried(after, readingId)
  {
    var o :| (readingId, o) in before.tried;
    assert (readingId, o) in after.tried;
  }

  // ---- each event keeps the invariant ----

  lemma TimesGrow(s: System, readingId: nat, time: int)
    requires Invariant(s) && readingId !in s.times
    ensures BodiesOk(s.(times := s.times[readingId := time])) && ServerOk(s.server, s.times[readingId := time])
  {
    hide Ordered, SyncedPrefix, RowsOk, Queued, Tried;
  }

  lemma EnqueueKeeps(s: System, readingId: nat, time: int)
    requires Invariant(s) && readingId !in s.times
    ensures Invariant(Step(s, Enqueue(readingId, time)))
  {
    TimesGrow(s, readingId, time);
    hide ServerOk, Tried;
    var t := Step(s, Enqueue(readingId, time));
    var k :| SyncedPrefix(s.local, k);
    assert SyncedPrefix(t.local, k);
    assert t.local.rows[|s.local.rows|].readingId == readingId;
    forall r | r in t.times && r !in t.confirmed
      ensures Queued(t.local, r)
    {
      if r != readingId {
        var i :| 0 <= i < |s.local.rows| && s.local.rows[i].readingId == r && !s.local.rows[i].synced;
        assert t.local.rows[i] == s.local.rows[i];
      }
    }
  }

  /** What a purge leaves, given how many rows were delivered. */
  lemma PurgeLocal(l: Local, k: nat)
    requires Ordered(l) && l.inFlight.None? && SyncedPrefix(l, k)
    ensures var kept := l.(rows := Unsynced(l.rows));
            && kept.rows == l.rows[k..]
            && Ordered(kept) && SyncedPrefix(kept, 0)
            && (forall r | Queued(l, r) :: Queued(kept, r))
  {
    UnsyncedOfPrefix(l.rows, k);
    var kept := l.(rows := Unsynced(l.rows));
    assert forall i | 0 <= i < |kept.rows| :: kept.rows[i] == l.rows[i + k];
    forall r | Queued(l, r)
      ensures Queued(kept, r)
    {
      var i :| 0 <= i < |l.rows| && l.rows[i].readingId == r && !l.rows[i].synced;
      assert kept.rows[i - k] == l.rows[i];
    }
  }

  lemma SuffixRowsOk(l: Local, times: map<nat, int>, confirmed: set<nat>, k: nat)
    requires RowsOk(l, times, confirmed) && k <= |l.rows|
    ensures RowsOk(l.(rows := l.rows[k..]), times, confirmed)
  {
    var rows := l.rows[k..];
    assert forall i | 0 <= i < |rows| :: rows[i] == l.rows[i + k];
  }

  lemma PurgeKeeps(s: System, k: nat)
    requires Invariant(s) && s.local.inFlight.None? && SyncedPrefix(s.local, k)
    ensures Invariant(s.(local := s.local.(rows := Unsynced(s.local.rows))))
    ensures SyncedPrefix(s.local.(rows := Unsynced(s.local.rows)), 0)
  {
    hide RowsOk, ServerOk, Ordered, Queued, Tried, Known;
    PurgeLocal(s.local, k);
    SuffixRowsOk(s.local, s.times, s.confirmed, k);
  }

  lemma SendKeeps(s: System, batch: seq<Row>)
    requires Invariant(s) && s.local.inFlight.None? && SyncedPrefix(s.local, 0) && batch <= s.local.rows
    ensures Invariant(s.(local := s.local.(inFlight := Some(batch)), network := s.network + {batch}))
  {
    hide ServerOk, Tried;
    var t := s.(local := s.local.(inFlight := Some(batch)), network := s.network + {batch});
    assert SyncedPrefix(t.local, 0);
    assert forall r | Queued(s.local, r) :: Queued(t.local, r);
  }

  lemma StartKeeps(s: System)
    requires Invariant(s)
    ensures Invariant(Step(s, StartSync))
  {
    if s.local.inFlight.None? {
      var k :| SyncedPrefix(s.local, k);
      PurgeKeeps(s, k);
      hide Invariant, SyncedPrefix, Unsynced;
      var kept := Unsynced(s.local.rows);
      if kept != [] {
        SendKeeps(s.(local := s.local.(rows := kept)), Take(kept, BATCH));
      }
    }
  }

  lemma ServeKeeps(s: System, body: seq<Row>, lost: map<nat, Loss>, answers: bool)
    requires Invariant(s) && body in s.network
    ensures Invariant(Step(s, Serve(body, lost, answers)))
  {
    var t := Step(s, Serve(body, lost, answers));
    IngestHandles(s.server, body, lost, s.times);
    hide ServerOk, Ingest, RowsOk, Ordered, Queued;
    forall r: nat | Tried(s.server, r)
      ensures Tried(t.server, r)
    {
      TriedStays(s.server, t.server, r);
    }
  }

  /** A batch that leads the queue owns exactly the ids of the first |batch| rows. */
  lemma IdsOfPrefix(l: Local, batch: seq<Row>)
    requires Ordered(l) && batch <= l.rows
    ensures forall i | 0 <= i < |l.rows| :: l.rows[i].id in Ids(batch) <==> i < |batch|
  {
    forall i | 0 <= i < |batch|
      ensures l.rows[i].id in Ids(batch)
    {
      assert batch[i] in batch;
    }
  }

  lemma OkMarksBatch(s: System)
    requires Invariant(s) && s.local.inFlight.Some? && s.local.inFlight.value in s.answered
    ensures var rows := Step(s, AnswerOk).local.rows;
            var n := |s.local.inFlight.value|;
            && n <= |rows| == |s.local.rows|
            && (forall i | 0 <= i < |rows| :: rows[i] == s.local.rows[i].(synced := i < n))
            && rows[n..] == s.local.rows[n..]
  {
    IdsOfPrefix(s.local, s.local.inFlight.value);
  }

  lemma OkConfirms(s: System, i: nat)
    requires Invariant(s) && s.local.inFlight.Some? && s.local.inFlight.value <= s.local.rows && i < |s.local.rows|
    ensures s.local.rows[i].readingId in ReadingIds(s.local.inFlight.value) <==> i < |s.local.inFlight.value|
  {
    hide ServerOk, Ordered, BodiesOk, Queued;
    var batch := s.local.inFlight.value;
    if i < |batch| {
      assert batch[i] in batch;
    }
  }

  lemma OkKeepsRows(s: System)
    requires Invariant(s) && s.local.inFlight.Some? && s.local.inFlight.value in s.answered
    ensures var t := Step(s, AnswerOk);
            Ordered(t.local) && SyncedPrefix(t.local, |s.local.inFlight.value|) && RowsOk(t.local, t.times, t.confirmed)
  {
    hide ServerOk, BodiesOk, Queued;
    OkMarksBatch(s);
    forall i | 0 <= i < |s.local.rows|
      ensures s.local.rows[i].readingId in ReadingIds(s.local.inFlight.value) <==> i < |s.local.inFlight.value|
    {
      OkConfirms(s, i);
    }
  }

  lemma OkKeeps(s: System)
    requires Invariant(s) && s.local.inFlight.Some? && s.local.inFlight.value in s.answered
    ensures Invariant(Step(s, AnswerOk))
  {
    var t := Step(s, AnswerOk);
    var batch := s.local.inFlight.value;
    OkMarksBatch(s);
    OkKeepsRows(s);
    hide ServerOk, Ordered, SyncedPrefix;
    forall r | r in ReadingIds(batch)
      ensures r in s.times && Tried(s.server, r)
    {
      var i :| 0 <= i < |batch| && batch[i].readingId == r;
      assert Known(s.times, batch[i]);
    }
    forall r | r in t.times && r !in t.confirmed
      ensures Queued(t.local, r)
    {
      var i :| 0 <= i < |s.local.rows| && s.local.rows[i].readingId == r && !s.local.rows[i].synced;
      assert t.local.rows[i].readingId == r;
      assert Known(t.times, t.local.rows[i]);
    }
  }

  lemma GiveUpKeeps(s: System)
    requires Invariant(s)
    ensures Invariant(s.(local := GivenUp(s.local)))
  {
    hide ServerOk, Tried;
    var k :| SyncedPrefix(s.local, k);
    assert SyncedPrefix(GivenUp(s.local), k);
    assert forall r | Queued(s.local, r) :: Queued(GivenUp(s.local), r);
  }

  lemma StepKeeps(s: System, e: Event)
    requires Invariant(s)
    ensures Invariant(Step(s, e))
  {
    hide Invariant;
    match e
    case Enqueue(readingId, time) => if readingId !in s.times { EnqueueKeeps(s, readingId, time); }
    case StartSync => StartKeeps(s);
    case Serve(body, lost, answers) => if body in s.network { ServeKeeps(s, body, lost, answers); }
    case AnswerOk => if s.local.inFlight.Some? && s.local.inFlight.value in s.answered { OkKeeps(s); }
    case AnswerLost => GiveUpKeeps(s);
    case Crash => GiveUpKeeps(s);
  }

  lemma {:induction false} RunKeeps(s: System, events: seq<Event>)
    requires Invariant(s)
    ensures Invariant(Run(s, events))
    decreases |events|
  {
    if events != [] {
      StepKeeps(s, events[0]);
      RunKeeps(Step(s, events[0]), events[1..]);
    }
  }

  // ---- the promises, over every run ----

  lemma FreshIsOk()
    ensures Invariant(Fresh)
  {
    assert SyncedPrefix(Fresh.local, 0);
  }

  lemma ConfirmedIsNotQueued(s: System, readingId: nat)
    requires Invariant(s) && readingId in s.times
    ensures Queued(s.local, readingId) <==> readingId !in s.confirmed
  {
    hide ServerOk, BodiesOk, Ordered;
    if Queued(s.local, readingId) {
      var i :| 0 <= i < |s.local.rows| && s.local.rows[i].readingId == readingId && !s.local.rows[i].synced;
      assert Known(s.times, s.local.rows[i]);
    }
  }

  lemma StoredMeansInserted(s: System, readingId: nat)
    requires Invariant(s) && readingId in s.times
    ensures Stored(s.server, s.times, readingId) <==> (readingId, None) in s.server.tried
  {
    hide BodiesOk, Ordered, RowsOk;
  }

  /**
   * In every run an enqueued reading is neither pending nor stored if and only if its row was marked on an
   * answer and every processing of it by the server ended in a loss.
   */
  lemma LostIff(events: seq<Event>, readingId: nat)
    requires readingId in Run(Fresh, events).times
    ensures var s := Run(Fresh, events);
            !Queued(s.local, readingId) && !Stored(s.server, s.times, readingId)
            <==> readingId in s.confirmed && forall o | (readingId, o) in s.server.tried :: o.Some?
    ensures var s := Run(Fresh, events);
            readingId in s.confirmed ==> Tried(s.server, readingId)
  {
    FreshIsOk();
    RunKeeps(Fresh, events);
    var s := Run(Fresh, events);
    ConfirmedIsNotQueued(s, readingId);
    StoredMeansInserted(s, readingId);
  }

  /** No service of the run lost the reading in one of these ways. */
  ghost predicate NeverLost(events: seq<Event>, readingId: nat, ways: set<Loss>) {
    forall k | 0 <= k < |events| && events[k].Serve? && readingId in events[k].lost :: events[k].lost[readingId] !in ways
  }

  lemma {:induction false} IngestTries(server: Server, body: seq<Row>, lost: map<nat, Loss>, readingId: nat)
    ensures forall o | (readingId, o) in Ingest(server, body, lost).tried && (readingId, o) !in server.tried ::
              o == if readingId in lost then Some(lost[readingId]) else None
    decreases |body|
  {
    if body != [] {
      IngestTries(IngestOne(server, body[0], lost), body[1..], lost, readingId);
    }
  }

  lemma {:induction false} LossesHaveACause(s: System, events: seq<Event>, readingId: nat, ways: set<Loss>)
    requires NeverLost(events, readingId, ways)
    requires forall o | (readingId, o) in s.server.tried && o.Some? :: o.value !in ways
    ensures forall o | (readingId, o) in Run(s, events).server.tried && o.Some? :: o.value !in ways
    decreases |events|
  {
    if events != [] {
      var t := Step(s, events[0]);
      match events[0] {
        case Serve(body, lost, answers) => IngestTries(s.server, body, lost, readingId);
        case _ =>
      }
      assert forall k | 0 <= k < |events| - 1 :: events[1..][k] == events[k + 1];
      LossesHaveACause(t, events[1..], readingId, ways);
    }
  }

  lemma AllLosses(l: Loss)
    ensures l in {Suppressed, Failed, DeviceGone}
  {
    match l
    case Suppressed =>
    case Failed =>
    case DeviceGone =>
  }

  /** Where the server never loses the reading it is pending or stored, however often bodies are sent or answers lost. */
  lemma NothingIsLost(events: seq<Event>, readingId: nat)
    requires readingId in Run(Fresh, events).times && NeverLost(events, readingId, {Suppressed, Failed, DeviceGone})
    ensures var s := Run(Fresh, events); Queued(s.local, readingId) || Stored(s.server, s.times, readingId)
  {
    hide Run;
    LostIff(events, readingId);
    LossesHaveACause(Fresh, events, readingId, {Suppressed, Failed, DeviceGone});
    var s := Run(Fresh, events);
    if readingId in s.confirmed {
      var o :| (readingId, o) in s.server.tried;
      if o.Some? { AllLosses(o.value); }
    }
  }

  /** And where processing never throws and no device goes, a reading is missing only because its device is suppressed. */
  lemma OnlySuppressedAreMissing(events: seq<Event>, readingId: nat)
    requires readingId in Run(Fresh, events).times && NeverLost(events, readingId, {Failed, DeviceGone})
    ensures var s := Run(Fresh, events);
            Queued(s.local, readingId) || Stored(s.server, s.times, readingId) || (readingId, Some(Suppressed)) in s.server.tried
  {
    hide Run;
    LostIff(events, readingId);
    LossesHaveACause(Fresh, events, readingId, {Failed, DeviceGone});
    var s := Run(Fresh, events);
    if readingId in s.confirmed {
      var o :| (readingId, o) in s.server.tried;
      if o.Some? { AllLosses(o.value); }
    }
  }

  lemma {:induction false} RunJoin(s: System, p: seq<Event>, q: seq<Event>)
    ensures Run(s, p + q) == Run(Run(s, p), q)
    decreases |p|
  {
    if p == [] {
      assert p + q == q;
    } else {
      assert (p + q)[1..] == p[1..] + q;
      RunJoin(Step(s, p[0]), p[1..], q);
    }
  }

  lemma RunOne(s: System, e: Event)
    ensures Run(s, [e]) == Step(s, e)
  {
    assert [e][1..] == [];
  }

  lemma RunTwo(s: System, d: Event, e: Event)
    ensures Run(s, [d, e]) == Step(Step(s, d), e)
  {
    assert [d, e][1..] == [e];
    RunOne(Step(s, d), e);
  }

  /** The state of an agent with one reading that it has just sent. */
  function OneSent(id: nat, time: int): System {
    var body := [Row(0, id, time, false)];
    System(Local(body, 1, Some(body)), {body}, {}, Server([], {}), map[id := time], {})
  }

  lemma OneIsSent(id: nat, time: int)
    ensures Run(Fresh, [Enqueue(id, time), StartSync]) == OneSent(id, time)
  {
    RunTwo(Fresh, Enqueue(id, time), StartSync);
    var body := [Row(0, id, time, false)];
    assert Step(Fresh, Enqueue(id, time)).local.rows == body;
    assert body[1..] == [] && Unsynced(body) == body;
  }

  lemma OneIsLost(id: nat, time: int)
    ensures var body := [Row(0, id, time, false)];
            var s := Step(Step(OneSent(id, time), Serve(body, map[id := Failed], true)), AnswerOk);
            s.local == Local([Row(0, id, time, true)], 1, None) && s.server.stored == [] && id in s.times
  {
    var body := [Row(0, id, time, false)];
    var c := Step(OneSent(id, time), Serve(body, map[id := Failed], true));
    assert body[1..] == [];
    var one := IngestOne(Server([], {}), body[0], map[id := Failed]);
    assert Ingest(one, body[1..], map[id := Failed]) == one;
    assert c.server == one;
    assert body[0] in body;
  }

  /** A processing that throws is answered with success all the same: the agent marks and purges, and the reading is gone. */
  lemma FailedProcessingLosesTheReading(id: nat, time: int)
    ensures var body := [Row(0, id, time, false)];
            var s := Run(Fresh, [Enqueue(id, time), StartSync] + ([Serve(body, map[id := Failed], true), AnswerOk] + [StartSync]));
            id in s.times && s.local.rows == [] && s.server.stored == []
  {
    hide Run;
    var body := [Row(0, id, time, false)];
    var middle := [Serve(body, map[id := Failed], true), AnswerOk];
    OneIsSent(id, time);
    RunJoin(Fresh, [Enqueue(id, time), StartSync], middle + [StartSync]);
    RunJoin(OneSent(id, time), middle, [StartSync]);
    RunTwo(OneSent(id, time), middle[0], middle[1]);
    OneIsLost(id, time);
    var s := Run(OneSent(id, time), middle);
    RunOne(s, StartSync);
    assert s.local.rows[1..] == [] && Unsynced(s.local.rows) == [];
  }

  /** However often bodies are delivered, the server holds a reading id at most once, and only enqueued ones. */
  lemma StoredOnce(events: seq<Event>, i: nat, j: nat)
    requires i < j < |Run(Fresh, events).server.stored|
    ensures var s := Run(Fresh, events);
            s.server.stored[i].0 != s.server.stored[j].0 && s.server.stored[i].0 in s.times
  {
    FreshIsOk();
    RunKeeps(Fresh, events);
  }

  /** The first `k` rows are the delivered ones, the server has processed each, and a purge leaves the rest. */
  ghost predicate PurgesOnlyDelivered(s: System, k: nat) {
    && SyncedPrefix(s.local, k)
    && Unsynced(s.local.rows) == s.local.rows[k..]
    && (forall i | 0 <= i < k :: Tried(s.server, s.local.rows[i].readingId))
  }

  /** The delivered rows always come before all others, and purging removes none that the server did not process. */
  lemma PurgeIsSafe(events: seq<Event>)
    ensures exists k :: PurgesOnlyDelivered(Run(Fresh, events), k)
  {
    FreshIsOk();
    RunKeeps(Fresh, events);
    var s := Run(Fresh, events);
    hide Run, ServerOk, BodiesOk;
    var k :| SyncedPrefix(s.local, k);
    UnsyncedOfPrefix(s.local.rows, k);
    forall i | 0 <= i < k ensures Tried(s.server, s.local.rows[i].readingId) {
      assert Known(s.times, s.local.rows[i]);
    }
    assert PurgesOnlyDelivered(s, k);
  }

  /**
   * When nothing is in flight, one undisturbed exchange moves the oldest 500 off the queue and leaves the rest
   * in order; of those moved the server stores all that it does not lose.
   */
  lemma OneExchangeDelivers(s: System, lost: map<nat, Loss>)
    requires Invariant(s) && s.local.inFlight.None?
    ensures var batch := Take(Unsynced(s.local.rows), BATCH);
            var t := Step(Step(Step(s, StartSync), Serve(batch, lost, true)), AnswerOk);
            && Unsynced(t.local.rows) == Unsynced(s.local.rows)[|batch|..]
            && (forall i | 0 <= i < |batch| && batch[i].readingId !in lost :: Stored(t.server, t.times, batch[i].readingId))
  {
    var batch := Take(Unsynced(s.local.rows), BATCH);
    var a := Step(s, StartSync);
    StepKeeps(s, StartSync);
    assert a.local.rows == Unsynced(s.local.rows);
    if batch == [] {
      assert a.local.rows == [];
    } else {
      ExchangeDelivers(a, batch, lost);
    }
  }

  lemma ExchangeDelivers(a: System, batch: seq<Row>, lost: map<nat, Loss>)
    requires Invariant(a) && a.local.inFlight == Some(batch) && batch in a.network
    ensures var t := Step(Step(a, Serve(batch, lost, true)), AnswerOk);
            && |batch| <= |a.local.rows| && Unsynced(t.local.rows) == a.local.rows[|batch|..]
            && (forall i | 0 <= i < |batch| && batch[i].readingId !in lost :: Stored(t.server, t.times, batch[i].readingId))
  {
    var b := Step(a, Serve(batch, lost, true));
    StepKeeps(a, Serve(batch, lost, true));
    OkMarksBatch(b);
    var t := Step(b, AnswerOk);
    hide Ordered, RowsOk;
    UnsyncedOfPrefix(t.local.rows, |batch|);
    forall i | 0 <= i < |batch| && batch[i].readingId !in lost ensures Stored(t.server, t.times, batch[i].readingId) {
      IngestInserts(a.server, batch, lost, i);
      assert Known(b.times, batch[i]);
    }
  }

  lemma {:induction false} IngestInserts(server: Server, body: seq<Row>, lost: map<nat, Loss>, i: nat)
    requires i < |body| && body[i].readingId !in lost
    ensures (body[i].readingId, None) in Ingest(server, body, lost).tried
    decreases |body|
  {
    var next := IngestOne(server, body[0], lost);
    if i > 0 {
      IngestInserts(next, body[1..], lost, i - 1);
    } else {
      IngestOnlyAdds(next, body[1..], lost);
    }
  }

  lemma {:induction false} IngestOnlyAdds(server: Server, body: seq<Row>, lost: map<nat, Loss>)
    ensures server.tried <= Ingest(server, body, lost).tried
    decreases |body|
  {
    if body != [] {
      IngestOnlyAdds(IngestOne(server, body[0], lost), body[1..], lost);
    }
  }

  // ---- the agent's side, field by field ----

  datatype Response = Ok | Unauthorized | OtherStatus | Threw

  class Agent {
    var rows: seq<Row>
    var nextId: nat
    var isSyncing: bool
    var pending: seq<Row>

    function View(): Local
      reads this
    {
      Local(rows, nextId, if isSyncing then Some(pending) else None)
    }

    constructor ()
      ensures View() == Fresh.local
    {
      rows, nextId, isSyncing, pending := [], 0, false, [];
    }

    method EnqueueReading(readingId: nat, time: int)
      modifies this
      ensures View() == Enqueued(old(View()), readingId, time)
    {
      rows := rows + [Row(nextId, readingId, time, false)];
      nextId := nextId + 1;
    }

    /** The DELETE: nothing that is still pending goes. */
    method PurgeOld()
      modifies this`rows
      ensures rows == Unsynced(old(rows))
    {
      rows := Unsynced(rows);
    }

    /** syncLoop, up to the request `uploadPending` sends. */
    method SyncStart() returns (body: Option<seq<Row>>)
      modifies this
      ensures View() == SyncStarted(old(View()))
      ensures !old(isSyncing) ==> body == View().inFlight
      ensures body.Some? ==> body.value == if |rows| <= 500 then rows else rows[..500]
      ensures old(isSyncing) ==> body == None
    {
      if isSyncing {
        return None;
      }
      PurgeOld();
      AllUnsynced(rows, old(rows));
      pending := Take(Unsynced(rows), BATCH);
      isSyncing := pending != [];
      body := if isSyncing then Some(pending) else None;
    }

    /**
     * The rest of syncLoop, once the request and its possible retry are over. The rows are marked exactly if the
     * last request sent came back ok; a second one is sent only after a 401 whose refresh succeeded. An ok means
     * that the server answered the batch with success, so nothing is marked that it did not.
     */
    method SyncFinish(first: Response, refreshed: bool, second: Response, ghost answered: set<seq<Row>>)
      requires isSyncing && first.Ok? ==> pending in answered
      requires isSyncing && first.Unauthorized? && refreshed && second.Ok? ==> pending in answered
      modifies this
      ensures View() == if first.Ok? || (first.Unauthorized? && refreshed && second.Ok?) then Confirmed(old(View()))
                        else GivenUp(old(View()))
      ensures View() == GivenUp(old(View())) || (old(isSyncing) && old(pending) in answered)
    {
      if !isSyncing {
        return;
      }
      var res := first;
      if res.Unauthorized? {
        if refreshed {
          res := second;
        }
      }
      if res.Ok? {
        rows := Mark(rows, Ids(pending));
      }
      isSyncing := false;
    }

    /** The table survives a crash; a batch being waited for does not. */
    method Reboot()
      modifies this
      ensures View() == GivenUp(old(View()))
    {
      isSyncing, pending := false, [];
    }
  }

  /** What a purge leaves is all pending, so the next SELECT sees exactly it. */
  lemma {:induction false} AllUnsynced(kept: seq<Row>, rows: seq<Row>)
    requires kept == Unsynced(rows)
    ensures Unsynced(kept) == kept
    decreases |rows|
  {
    if rows != [] {
      AllUnsynced(Unsynced(rows[1..]), rows[1..]);
      var rest := Unsynced(rows[1..]);
      assert kept == if rows[0].synced then rest else [rows[0]] + rest;
      if !rows[0].synced {
        assert kept[1..] == rest;
      }
    }
  }
}
