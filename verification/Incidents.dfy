/**
 * Automatic incidents (cloud/src/jobs/incidentWorker.ts, with the operations that people apply to
 * incidents in cloud/src/modules/incidents/infrastructure/database/incident-mutations.ts).
 *
 * First the tables and the worker as a state machine: one event per SQL statement of the worker, and
 * between any two of them whatever else the system does. Then the worker's own loops, on a database
 * that nobody else touches, with what one tick achieves.
 */
module Incidents {
  import opened Wrappers

  type Id = nat

  const MINUTE := 60_000

  datatype Severity = Warning | Critical

  datatype Alert = Alert(device: Id, cls: string, severity: Severity, createdAt: int, resolved: bool)

  datatype Rule = Rule(
    client: Option<Id>, cls: string, minCritical: bool, delayMinutes: nat, autoClose: bool, enabled: bool)

  datatype Incident = Incident(client: Id, device: Option<Id>, cls: string, auto: bool, closed: bool)

  /** `clients` gives each device its client, if it has one; a link is an (incident, alert) pair. */
  datatype Database = Database(
    clients: map<Id, Option<Id>>,
    rules: set<Rule>,
    alerts: map<Id, Alert>,
    incidents: map<Id, Incident>,
    links: set<(Id, Id)>,
    next: Id)

  // ---- the queries ----

  predicate InOpenIncident(db: Database, a: Id) {
    exists i | i in db.incidents :: (i, a) in db.links && !db.incidents[i].closed
  }

  /** `client NOT IN (owners)`, where a missing client is outside the empty list only. */
  predicate NotIn(client: Option<Id>, owners: set<Id>) {
    owners == {} || (client.Some? && client.value !in owners)
  }

  /** The clients with a rule of their own for the class, enabled or not. */
  function Owners(rules: set<Rule>, cls: string): set<Id> {
    set r | r in rules && r.cls == cls && r.client.Some? :: r.client.value
  }

  predicate Covers(rules: set<Rule>, r: Rule, client: Option<Id>) {
    if r.client.Some? then client == r.client else NotIn(client, Owners(rules, r.cls))
  }

  predicate SeverityFits(r: Rule, s: Severity) {
    r.minCritical ==> s == Critical
  }

  predicate Eligible(db: Database, r: Rule, now: int, a: Id) {
    && a in db.alerts
    && var al := db.alerts[a];
    && !al.resolved && al.cls == r.cls && al.createdAt <= now - r.delayMinutes * MINUTE && SeverityFits(r, al.severity)
    && al.device in db.clients && Covers(db.rules, r, db.clients[al.device])
    && !InOpenIncident(db, a)
  }

  predicate OpenAuto(db: Database, i: Id, device: Id, cls: string) {
    i in db.incidents && var inc := db.incidents[i];
    inc.auto && !inc.closed && inc.device == Some(device) && inc.cls == cls
  }

  predicate HasOpenAlert(db: Database, i: Id) {
    exists a | a in db.alerts :: (i, a) in db.links && !db.alerts[a].resolved
  }

  /** The incidents that `autoCloseResolved` looks at: a global rule looks at those of every client. */
  predicate UnderRule(r: Rule, inc: Incident) {
    inc.auto && !inc.closed && inc.cls == r.cls && (r.client.Some? ==> inc.client == r.client.value)
  }

  function UnderRuleIds(db: Database, r: Rule): set<Id> {
    set i | i in db.incidents && UnderRule(r, db.incidents[i])
  }

  // ---- the statements that write ----

  function Inserted(db: Database, client: Id, device: Id, cls: string): Database {
    db.(incidents := db.incidents[db.next := Incident(client, Some(device), cls, true, false)], next := db.next + 1)
  }

  function Linked(db: Database, i: Id, a: Id): Database {
    db.(links := db.links + {(i, a)})
  }

  function SetClosed(db: Database, i: Id, closed: bool): Database
    requires i in db.incidents
  {
    db.(incidents := db.incidents[i := db.incidents[i].(closed := closed)])
  }

  // ---- what the tables always satisfy ----

  /** The unique index on open automatic incidents. */
  ghost predicate OneOpenPerClass(db: Database) {
    forall i, j, d, c | OpenAuto(db, i, d, c) && OpenAuto(db, j, d, c) :: i == j
  }

  /** What the schema enforces: fresh ids, the unique index, and links that point at rows. */
  ghost predicate Consistent(db: Database) {
    && (forall i | i in db.incidents :: i < db.next)
    && OneOpenPerClass(db)
    && (forall i, a | (i, a) in db.links :: i in db.incidents && a in db.alerts)
  }

  predicate InOpenAuto(db: Database, i: Id, a: Id) {
    (i, a) in db.links && i in db.incidents && db.incidents[i].auto && !db.incidents[i].closed
  }

  ghost predicate OneIncidentPerAlert(db: Database) {
    forall i, j, a | InOpenAuto(db, i, a) && InOpenAuto(db, j, a) :: i == j
  }

  // ---- the worker between its statements ----

  /** What the SELECT read of an alert's device. */
  datatype Snapshot = Snapshot(device: Id, client: Option<Id>)

  /** `late` is history: the alerts that a person linked to the incident since it was vetted. */
  datatype Worker =
    | Resting
    | Processing(rule: Rule, todo: map<Id, Snapshot>)
    | Refused(rule: Rule, todo: map<Id, Snapshot>, alert: Id, device: Id)
    | Opened(rule: Rule, todo: map<Id, Snapshot>, alert: Id, incident: Id)
    | Closing(rule: Rule, left: set<Id>)
    | Vetted(rule: Rule, left: set<Id>, incident: Id, late: set<Id>)

  /** The links people made, the incidents they gave another class, the alerts that a device merge moved. */
  datatype History = History(linked: set<(Id, Id)>, reclassified: set<Id>, moved: set<Id>)

  const NOTHING_YET := History({}, {}, {})

  datatype State = State(db: Database, worker: Worker, past: History)

  datatype Event =
    // the worker
    | Select(rule: Rule, now: int)
    | InsertFor(alert: Id)
    | FindExisting(incident: Id)
    | LinkIt
    | SelectOpen
    | Vet(incident: Id)
    | CloseIt
    | Finish
    | StatementFails
    | Crash
    // everyone else
    | AlertOpens(alert: Id, row: Alert)
    | AlertResolves(alert: Id)
    | DevicesMerge(target: Id, source: Id, collided: set<Id>)
    | PersonCreates(client: Id, device: Option<Id>, cls: string, linked: set<Id>)
    | PersonCloses(incident: Id)
    | PersonReopens(incident: Id)
    | PersonReclassifies(incident: Id, cls: string)
    | PersonLinks(incident: Id, alert: Id)
    | PersonUnlinks(incident: Id, alert: Id)
    | RulesChange(rules: set<Rule>)
    | ClientChanges(of: Id, owner: Option<Id>)

  predicate Taken(db: Database, device: Id, cls: string) {
    exists i | i in db.incidents :: OpenAuto(db, i, device, cls)
  }

  function Selected(db: Database, r: Rule, now: int): map<Id, Snapshot> {
    map a | a in db.alerts && Eligible(db, r, now, a) ::
      Snapshot(db.alerts[a].device, db.clients[db.alerts[a].device])
  }

  /** The INSERT ... ON CONFLICT DO NOTHING for one alert; a device without client violates NOT NULL. */
  function InsertStep(s: State, r: Rule, todo: map<Id, Snapshot>, a: Id, read: Snapshot): State {
    if read.client.None? then s.(worker := Processing(r, todo))
    else if Taken(s.db, read.device, r.cls) then s.(worker := Refused(r, todo, a, read.device))
    else s.(db := Inserted(s.db, read.client.value, read.device, r.cls), worker := Opened(r, todo, a, s.db.next))
  }

  /** Whether another open automatic incident than `i` has the device and class. */
  predicate TakenByOther(db: Database, i: Id, device: Id, cls: string) {
    exists j | j in db.incidents :: j != i && OpenAuto(db, j, device, cls)
  }

  /** A row that comes back must find the index free. */
  predicate MayReopen(db: Database, i: Id) {
    && i in db.incidents && db.incidents[i].closed
    && var inc := db.incidents[i];
    inc.auto && inc.device.Some? ==> !Taken(db, inc.device.value, inc.cls)
  }

  /** So must an open row that gets another class. */
  predicate MayReclassify(db: Database, i: Id, cls: string) {
    && i in db.incidents
    && var inc := db.incidents[i];
    inc.auto && !inc.closed && inc.device.Some? ==> !TakenByOther(db, i, inc.device.value, cls)
  }

  function WorkerStep(s: State, e: Event): State {
    var db := s.db;
    match (s.worker, e)
    case (_, Crash) => s.(worker := Resting)
    case (Resting, Select(r, now)) => s.(worker := Processing(r, Selected(db, r, now)))
    case (Processing(r, todo), InsertFor(a)) =>
      if a in todo then InsertStep(s, r, todo - {a}, a, todo[a]) else s
    case (Processing(r, todo), SelectOpen) =>
      if todo.Keys != {} then s
      else if !r.autoClose then s.(worker := Resting)
      else s.(worker := Closing(r, UnderRuleIds(db, r)))
    case (Refused(r, todo, a, d), FindExisting(i)) =>
      if OpenAuto(db, i, d, r.cls) then s.(worker := Opened(r, todo, a, i))
      else s.(worker := Processing(r, todo))
    case (Refused(r, todo, a, d), StatementFails) => s.(worker := Processing(r, todo))
    case (Opened(r, todo, a, i), LinkIt) => s.(db := Linked(db, i, a), worker := Processing(r, todo))
    case (Opened(r, todo, a, i), StatementFails) => s.(worker := Processing(r, todo))
    case (Closing(r, left), Vet(i)) =>
      if i !in left then s
      else if HasOpenAlert(db, i) then s.(worker := Closing(r, left - {i}))
      else s.(worker := Vetted(r, left - {i}, i, {}))
    case (Closing(r, left), Finish) => if left == {} then s.(worker := Resting) else s
    case (Vetted(r, left, i, late), CloseIt) =>
      s.(db := if i in db.incidents then SetClosed(db, i, true) else db, worker := Closing(r, left))
    case _ => s
  }

  predicate IsWorkers(e: Event) {
    e.Select? || e.InsertFor? || e.FindExisting? || e.LinkIt? || e.SelectOpen? || e.Vet? || e.CloseIt? || e.Finish?
    || e.StatementFails? || e.Crash?
  }

  /** The transaction of a merge: it resolves some alerts of the two devices and moves those of the source. */
  function MergedAlerts(alerts: map<Id, Alert>, target: Id, source: Id, collided: set<Id>): map<Id, Alert> {
    map a | a in alerts ::
      var al := alerts[a];
      al.(device := if al.device == source then target else al.device,
          resolved := al.resolved || (a in collided && (al.device == target || al.device == source)))
  }

  function OthersStep(db: Database, e: Event): Database {
    match e
    case AlertOpens(a, row) => if a in db.alerts then db else db.(alerts := db.alerts[a := row])
    case AlertResolves(a) => if a in db.alerts then db.(alerts := db.alerts[a := db.alerts[a].(resolved := true)]) else db
    case DevicesMerge(target, source, collided) => db.(alerts := MergedAlerts(db.alerts, target, source, collided))
    case PersonCreates(client, device, cls, linked) =>
      db.(incidents := db.incidents[db.next := Incident(client, device, cls, false, false)],
          links := db.links + set a | a in linked && a in db.alerts :: (db.next, a),
          next := db.next + 1)
    case PersonCloses(i) => if i in db.incidents then SetClosed(db, i, true) else db
    case PersonReopens(i) => if MayReopen(db, i) then SetClosed(db, i, false) else db
    case PersonReclassifies(i, cls) =>
      if MayReclassify(db, i, cls) then db.(incidents := db.incidents[i := db.incidents[i].(cls := cls)]) else db
    case PersonLinks(i, a) => if i in db.incidents && a in db.alerts then Linked(db, i, a) else db
    case PersonUnlinks(i, a) => db.(links := db.links - {(i, a)})
    case RulesChange(rules) => db.(rules := rules)
    case ClientChanges(d, client) => db.(clients := db.clients[d := client])
    case _ => db
  }

  function Remembered(s: State, e: Event): History {
    match e
    case PersonLinks(i, a) =>
      if i in s.db.incidents && a in s.db.alerts then s.past.(linked := s.past.linked + {(i, a)}) else s.past
    case PersonReclassifies(i, cls) =>
      if MayReclassify(s.db, i, cls) then s.past.(reclassified := s.past.reclassified + {i}) else s.past
    case DevicesMerge(_, source, _) =>
      s.past.(moved := s.past.moved + set a | a in s.db.alerts && s.db.alerts[a].device == source)
    case _ => s.past
  }

  function Noticed(s: State, e: Event): Worker {
    match (s.worker, e)
    case (Vetted(r, left, i, late), PersonLinks(j, a)) =>
      if j == i && a in s.db.alerts then Vetted(r, left, i, late + {a}) else s.worker
    case _ => s.worker
  }

  function Step(s: State, e: Event): State {
    if IsWorkers(e) then WorkerStep(s, e) else State(OthersStep(s.db, e), Noticed(s, e), Remembered(s, e))
  }

  function Run(s: State, events: seq<Event>): State
    decreases |events|
  {
    if events == [] then s else Run(Step(s, events[0]), events[1..])
  }

  // ---- what every run keeps ----

  /** People, or a merge of devices, had a hand in it. */
  predicate Excused(past: History, i: Id, a: Id) {
    (i, a) in past.linked || i in past.reclassified || a in past.moved
  }

  /** The incident is about the alert's device and class. */
  predicate Matches(db: Database, i: Id, a: Id)
    requires i in db.incidents && a in db.alerts
  {
    db.incidents[i].device == Some(db.alerts[a].device) && db.incidents[i].cls == db.alerts[a].cls
  }

  ghost predicate LinkOk(s: State, i: Id, a: Id) {
    && i in s.db.incidents && a in s.db.alerts
    && (s.db.incidents[i].auto ==> Matches(s.db, i, a) || Excused(s.past, i, a))
  }

  /** What the worker read of an alert still holds, unless a merge moved the alert. */
  predicate ReadOk(s: State, r: Rule, a: Id, device: Id) {
    && a in s.db.alerts && s.db.alerts[a].cls == r.cls
    && (s.db.alerts[a].device == device || a in s.past.moved)
  }

  ghost predicate TodoOk(s: State, r: Rule, todo: map<Id, Snapshot>) {
    forall a | a in todo :: ReadOk(s, r, a, todo[a].device)
  }

  ghost predicate WorkerKnows(s: State) {
    match s.worker
    case Resting => true
    case Processing(r, todo) => TodoOk(s, r, todo)
    case Refused(r, todo, a, d) => TodoOk(s, r, todo) && ReadOk(s, r, a, d)
    case Opened(r, todo, a, i) => TodoOk(s, r, todo) && LinkOk(s, i, a)
    case Closing(r, left) => left <= s.db.incidents.Keys
    case Vetted(r, left, i, late) =>
      && left + {i} <= s.db.incidents.Keys
      && forall a | (i, a) in s.db.links && a in s.db.alerts && !s.db.alerts[a].resolved :: a in late
  }

  ghost predicate Invariant(s: State) {
    Consistent(s.db) && (forall i, a | (i, a) in s.db.links :: LinkOk(s, i, a)) && WorkerKnows(s)
  }

  lemma InsertKeeps(db: Database, client: Id, d: Id, cls: string)
    requires Consistent(db) && !Taken(db, d, cls)
    ensures Consistent(Inserted(db, client, d, cls))
  {
    var after := Inserted(db, client, d, cls);
    forall i, j, d', c | OpenAuto(after, i, d', c) && OpenAuto(after, j, d', c) ensures i == j {
      assert i != db.next ==> OpenAuto(db, i, d', c);
      assert j != db.next ==> OpenAuto(db, j, d', c);
    }
  }

  lemma CloseKeeps(db: Database, k: Id)
    requires Consistent(db) && k in db.incidents
    ensures Consistent(SetClosed(db, k, true))
  {
    var after := SetClosed(db, k, true);
    forall i, j, d, c | OpenAuto(after, i, d, c) && OpenAuto(after, j, d, c) ensures i == j {
      assert OpenAuto(db, i, d, c) && OpenAuto(db, j, d, c);
    }
  }

  /** A reopening is refused exactly when it would break the index. */
  lemma ReopenKeeps(db: Database, k: Id)
    requires Consistent(db) && k in db.incidents && db.incidents[k].closed
    ensures MayReopen(db, k) <==> Consistent(SetClosed(db, k, false))
  {
    var after := SetClosed(db, k, false);
    if MayReopen(db, k) {
      forall i, j, d, c | OpenAuto(after, i, d, c) && OpenAuto(after, j, d, c) ensures i == j {
        assert i != k ==> OpenAuto(db, i, d, c);
        assert j != k ==> OpenAuto(db, j, d, c);
      }
    } else {
      var inc := db.incidents[k];
      var j :| j in db.incidents && OpenAuto(db, j, inc.device.value, inc.cls);
      assert OpenAuto(after, j, inc.device.value, inc.cls) && OpenAuto(after, k, inc.device.value, inc.cls);
    }
  }

  function Reclassified(db: Database, k: Id, cls: string): Database
    requires k in db.incidents
  {
    db.(incidents := db.incidents[k := db.incidents[k].(cls := cls)])
  }

  /** And so is another class. */
  lemma ReclassifyKeeps(db: Database, k: Id, cls: string)
    requires Consistent(db) && k in db.incidents
    ensures MayReclassify(db, k, cls) <==> Consistent(Reclassified(db, k, cls))
  {
    var after := Reclassified(db, k, cls);
    if MayReclassify(db, k, cls) {
      forall i, j, d, c | OpenAuto(after, i, d, c) && OpenAuto(after, j, d, c) ensures i == j {
        assert i != k ==> OpenAuto(db, i, d, c);
        assert j != k ==> OpenAuto(db, j, d, c);
      }
    } else {
      var d := db.incidents[k].device.value;
      var j :| j in db.incidents && j != k && OpenAuto(db, j, d, cls);
      assert OpenAuto(after, j, d, cls) && OpenAuto(after, k, d, cls);
    }
  }

  lemma SameIncidentsKeep(db: Database, after: Database)
    requires Consistent(db) && after.incidents == db.incidents && after.next == db.next
    requires forall i, a | (i, a) in after.links :: i in after.incidents && a in after.alerts
    ensures Consistent(after)
  {
    forall i, j, d, c | OpenAuto(after, i, d, c) && OpenAuto(after, j, d, c) ensures i == j {
      assert OpenAuto(db, i, d, c) && OpenAuto(db, j, d, c);
    }
  }

  lemma CreateKeeps(db: Database, e: Event)
    requires Consistent(db) && e.PersonCreates?
    ensures Consistent(OthersStep(db, e))
  {
    var after := OthersStep(db, e);
    forall i, j, d, c | OpenAuto(after, i, d, c) && OpenAuto(after, j, d, c) ensures i == j {
      assert OpenAuto(db, i, d, c) && OpenAuto(db, j, d, c);
    }
  }

  lemma OthersKeep(db: Database, e: Event)
    requires Consistent(db)
    ensures Consistent(OthersStep(db, e))
  {
    match e
    case PersonCreates(_, _, _, _) => CreateKeeps(db, e);
    case PersonCloses(i) => if i in db.incidents { CloseKeeps(db, i); }
    case PersonReopens(i) => if MayReopen(db, i) { ReopenKeeps(db, i); }
    case PersonReclassifies(i, cls) => if MayReclassify(db, i, cls) { ReclassifyKeeps(db, i, cls); }
    case _ => SameIncidentsKeep(db, OthersStep(db, e));
  }

  /** Only a merge changes an alert's device, only a person an incident's class, and history is not forgotten. */
  lemma OthersKeepRows(s: State, e: Event)
    requires Consistent(s.db) && !IsWorkers(e)
    ensures var t := Step(s, e);
            && (forall a | a in s.db.alerts ::
                  && a in t.db.alerts && t.db.alerts[a].cls == s.db.alerts[a].cls
                  && (t.db.alerts[a].device == s.db.alerts[a].device || a in t.past.moved))
            && (forall i | i in s.db.incidents ::
                  && i in t.db.incidents && t.db.incidents[i].device == s.db.incidents[i].device
                  && t.db.incidents[i].auto == s.db.incidents[i].auto
                  && (t.db.incidents[i].cls == s.db.incidents[i].cls || i in t.past.reclassified))
            && s.past.linked <= t.past.linked && s.past.reclassified <= t.past.reclassified && s.past.moved <= t.past.moved
  {
  }

  lemma LinkStaysOk(s: State, e: Event, i: Id, a: Id)
    requires Consistent(s.db) && !IsWorkers(e) && LinkOk(s, i, a)
    ensures LinkOk(Step(s, e), i, a)
  {
    hide Step, Consistent;
    OthersKeepRows(s, e);
  }

  lemma ReadStaysOk(s: State, e: Event)
    requires Consistent(s.db) && !IsWorkers(e)
    ensures forall r, a, d | ReadOk(s, r, a, d) :: ReadOk(Step(s, e), r, a, d)
  {
    hide Step, Consistent;
    OthersKeepRows(s, e);
  }

  /** A link that was not there is a person's, or belongs to a manual incident. */
  lemma NewLinksAreOk(s: State, e: Event, i: Id, a: Id)
    requires Consistent(s.db) && !IsWorkers(e) && (i, a) in Step(s, e).db.links && (i, a) !in s.db.links
    ensures LinkOk(Step(s, e), i, a)
  {
  }

  /** Only a person's link gives an incident an open alert. */
  lemma OpenAlertWasThere(s: State, e: Event, i: Id, a: Id)
    requires Consistent(s.db) && !IsWorkers(e) && i in s.db.incidents
    requires (i, a) in Step(s, e).db.links && a in Step(s, e).db.alerts && !Step(s, e).db.alerts[a].resolved
    ensures ((i, a) in s.db.links && !s.db.alerts[a].resolved) || (e == PersonLinks(i, a) && a in s.db.alerts)
  {
  }

  lemma VettedStaysKnown(s: State, e: Event)
    requires Invariant(s) && !IsWorkers(e) && s.worker.Vetted? && Consistent(Step(s, e).db)
    ensures WorkerKnows(Step(s, e))
  {
    OthersKeepRows(s, e);
    var t := Step(s, e);
    var i := s.worker.incident;
    forall a | (i, a) in t.db.links && !t.db.alerts[a].resolved ensures a in t.worker.late {
      OpenAlertWasThere(s, e, i, a);
    }
  }

  lemma OthersDoNotDisturb(s: State, e: Event)
    requires Invariant(s) && !IsWorkers(e)
    ensures Invariant(Step(s, e))
  {
    OthersKeep(s.db, e);
    var t := Step(s, e);
    hide Consistent, OthersStep, Remembered, ReadOk, LinkOk;
    forall i, a | (i, a) in t.db.links ensures LinkOk(t, i, a) {
      if (i, a) in s.db.links {
        LinkStaysOk(s, e, i, a);
      } else {
        NewLinksAreOk(s, e, i, a);
      }
    }
    ReadStaysOk(s, e);
    OthersKeepRows(s, e);
    match s.worker
    case Opened(_, _, a, i) => LinkStaysOk(s, e, i, a);
    case Vetted(_, _, _, _) => VettedStaysKnown(s, e);
    case _ =>
  }

  lemma WorkerKeeps(s: State, e: Event)
    requires Invariant(s) && IsWorkers(e)
    ensures Invariant(Step(s, e))
  {
    var db := s.db;
    match (s.worker, e)
    case (Processing(r, todo), InsertFor(a)) =>
      if a in todo && todo[a].client.Some? && !Taken(db, todo[a].device, r.cls) {
        InsertKeeps(db, todo[a].client.value, todo[a].device, r.cls);
      }
    case (Opened(r, todo, a, i), LinkIt) => SameIncidentsKeep(db, Linked(db, i, a));
    case (Vetted(r, left, i, late), CloseIt) => CloseKeeps(db, i);
    case _ =>
  }

  lemma StepKeeps(s: State, e: Event)
    requires Invariant(s)
    ensures Invariant(Step(s, e))
  {
    if IsWorkers(e) {
      WorkerKeeps(s, e);
    } else {
      OthersDoNotDisturb(s, e);
    }
  }

  /** Whatever happens in whatever order, no device has two open automatic incidents of a class. */
  lemma {:induction false} RunKeeps(s: State, events: seq<Event>)
    requires Invariant(s)
    ensures Invariant(Run(s, events))
    ensures OneOpenPerClass(Run(s, events).db)
    decreases |events|
  {
    if events != [] {
      StepKeeps(s, events[0]);
      RunKeeps(Step(s, events[0]), events[1..]);
    }
  }

  /** The worker's own statements, all of which go through. */
  ghost predicate Undisturbed(events: seq<Event>) {
    forall i | 0 <= i < |events| :: IsWorkers(events[i]) && !events[i].StatementFails? && !events[i].Crash?
  }

  lemma {:induction false} RunJoin(s: State, p: seq<Event>, q: seq<Event>)
    ensures Run(s, p + q) == Run(Run(s, p), q)
    decreases |p|
  {
    if p == [] {
      assert p + q == q;
    } else {
      assert (p + q)[1..] == p[1..] + q;
      RunJoin(Step(s, p[0]), p[1..], q);
    }
  }

  lemma RunNothing(s: State)
    ensures Run(s, []) == s
  {
  }

  lemma RunOne(s: State, e: Event)
    ensures Run(s, [e]) == Step(s, e)
  {
    assert [e][1..] == [];
  }

  lemma RunAndStep(s: State, p: seq<Event>, e: Event)
    ensures Run(s, p + [e]) == Step(Run(s, p), e)
  {
    RunJoin(s, p, [e]);
    RunOne(Run(s, p), e);
  }

  lemma SelectRuns(db: Database, past: History, r: Rule, now: int)
    ensures Run(State(db, Resting, past), [Select(r, now)]) == State(db, Processing(r, Selected(db, r, now)), past)
  {
    hide Selected;
    RunOne(State(db, Resting, past), Select(r, now));
  }

  // ---- an alert in two open automatic incidents ----

  /** Of two links that put an alert in two open automatic incidents, people or a merge had a hand in one. */
  lemma AlertInTwoIsExcused(s: State, events: seq<Event>, i: Id, j: Id, a: Id)
    requires Invariant(s) && i != j
    requires InOpenAuto(Run(s, events).db, i, a) && InOpenAuto(Run(s, events).db, j, a)
    ensures Excused(Run(s, events).past, i, a) || Excused(Run(s, events).past, j, a)
  {
    hide Run;
    RunKeeps(s, events);
    var t := Run(s, events);
    assert LinkOk(t, i, a) && LinkOk(t, j, a);
    var al := t.db.alerts[a];
    assert Matches(t.db, i, a) ==> OpenAuto(t.db, i, al.device, al.cls);
    assert Matches(t.db, j, a) ==> OpenAuto(t.db, j, al.device, al.cls);
  }

  predicate HandsOff(e: Event) {
    !e.PersonLinks? && !e.PersonReclassifies? && !e.DevicesMerge?
  }

  lemma {:induction false} HandsOffLeavesNoHistory(s: State, events: seq<Event>)
    requires forall k | 0 <= k < |events| :: HandsOff(events[k])
    ensures Run(s, events).past == s.past
    decreases |events|
  {
    if events != [] {
      HandsOffLeavesNoHistory(Step(s, events[0]), events[1..]);
    }
  }

  /** Without such a hand, and however everything else interleaves, no alert is in two open automatic incidents. */
  lemma OneIncidentIfHandsOff(s: State, events: seq<Event>)
    requires Invariant(s) && s.past == NOTHING_YET && forall k | 0 <= k < |events| :: HandsOff(events[k])
    ensures OneIncidentPerAlert(Run(s, events).db)
  {
    hide Run;
    HandsOffLeavesNoHistory(s, events);
    var db := Run(s, events).db;
    forall i, j, a | InOpenAuto(db, i, a) && InOpenAuto(db, j, a) ensures i == j {
      if i != j {
        AlertInTwoIsExcused(s, events, i, j, a);
      }
    }
  }

  predicate ElsewhereOpen(db: Database, i: Id, a: Id) {
    exists j | j in db.incidents :: j != i && InOpenAuto(db, j, a)
  }

  /** The step that puts an alert in a second open automatic incident, told before it is taken. */
  predicate PutsInTwo(s: State, e: Event) {
    var db := s.db;
    match e
    case PersonLinks(i, a) =>
      i in db.incidents && a in db.alerts && db.incidents[i].auto && !db.incidents[i].closed && ElsewhereOpen(db, i, a)
    case PersonReopens(i) =>
      MayReopen(db, i) && db.incidents[i].auto && exists a | a in db.alerts :: (i, a) in db.links && ElsewhereOpen(db, i, a)
    case LinkIt =>
      && s.worker.Opened? && s.worker.incident in db.incidents
      && var inc := db.incidents[s.worker.incident];
      inc.auto && !inc.closed && ElsewhereOpen(db, s.worker.incident, s.worker.alert)
    case _ => false
  }

  lemma LinkPutsInTwo(db: Database, i: Id, a: Id)
    requires Consistent(db) && OneIncidentPerAlert(db) && i in db.incidents
    ensures OneIncidentPerAlert(Linked(db, i, a))
       <==> !(db.incidents[i].auto && !db.incidents[i].closed && ElsewhereOpen(db, i, a))
  {
    var after := Linked(db, i, a);
    if db.incidents[i].auto && !db.incidents[i].closed && ElsewhereOpen(db, i, a) {
      var j :| j in db.incidents && j != i && InOpenAuto(db, j, a);
      assert InOpenAuto(after, i, a) && InOpenAuto(after, j, a);
    } else {
      forall x, y, b | InOpenAuto(after, x, b) && InOpenAuto(after, y, b) ensures x == y {
        assert !(x == i && b == a) ==> InOpenAuto(db, x, b);
        assert !(y == i && b == a) ==> InOpenAuto(db, y, b);
      }
    }
  }

  lemma ReopeningPutsInTwo(db: Database, i: Id)
    requires Consistent(db) && OneIncidentPerAlert(db) && MayReopen(db, i)
    ensures OneIncidentPerAlert(SetClosed(db, i, false))
       <==> !(db.incidents[i].auto && exists a | a in db.alerts :: (i, a) in db.links && ElsewhereOpen(db, i, a))
  {
    var after := SetClosed(db, i, false);
    if a :| a in db.alerts && db.incidents[i].auto && (i, a) in db.links && ElsewhereOpen(db, i, a) {
      var j :| j in db.incidents && j != i && InOpenAuto(db, j, a);
      assert InOpenAuto(after, i, a) && InOpenAuto(after, j, a);
    } else {
      forall x, y, b | InOpenAuto(after, x, b) && InOpenAuto(after, y, b) ensures x == y {
        assert x != i ==> InOpenAuto(db, x, b);
        assert y != i ==> InOpenAuto(db, y, b);
      }
    }
  }

  lemma OthersPutNoneInTwo(s: State, e: Event)
    requires Consistent(s.db) && OneIncidentPerAlert(s.db)
    requires !e.PersonLinks? && !e.PersonReopens? && !e.LinkIt?
    ensures OneIncidentPerAlert(Step(s, e).db)
  {
    var after := Step(s, e).db;
    forall i, j, a | InOpenAuto(after, i, a) && InOpenAuto(after, j, a) ensures i == j {
      assert InOpenAuto(s.db, i, a) && InOpenAuto(s.db, j, a);
    }
  }

  /** Exactly when a step puts an alert in two open automatic incidents. */
  lemma PutsInTwoIsExact(s: State, e: Event)
    requires Consistent(s.db) && OneIncidentPerAlert(s.db) && (s.worker.Opened? ==> s.worker.incident in s.db.incidents)
    ensures OneIncidentPerAlert(Step(s, e).db) <==> !PutsInTwo(s, e)
  {
    hide OneIncidentPerAlert, Consistent, ElsewhereOpen;
    match e
    case PersonLinks(i, a) => if i in s.db.incidents && a in s.db.alerts { LinkPutsInTwo(s.db, i, a); }
    case PersonReopens(i) => if MayReopen(s.db, i) { ReopeningPutsInTwo(s.db, i); }
    case LinkIt =>
      if s.worker.Opened? { LinkPutsInTwo(s.db, s.worker.incident, s.worker.alert); }
    case _ => OthersPutNoneInTwo(s, e);
  }

  // ---- an incident closed over an open alert ----

  /** While an incident waits to be closed, the alerts it got late are those that people linked to it meanwhile. */
  lemma {:induction false} LateAreLinkedMeanwhile(s: State, events: seq<Event>)
    requires s.worker.Vetted? && forall k | 0 <= k < |events| :: !IsWorkers(events[k])
    ensures var t := Run(s, events).worker;
            && t.Vetted? && t.incident == s.worker.incident && t.rule == s.worker.rule && t.left == s.worker.left
            && forall a | a in t.late && a !in s.worker.late :: PersonLinks(s.worker.incident, a) in events
    decreases |events|
  {
    if events != [] {
      LateAreLinkedMeanwhile(Step(s, events[0]), events[1..]);
      assert events == [events[0]] + events[1..];
    }
  }

  /**
   * In every run: the worker closes an incident over an open alert if and only if a person linked the alert
   * between the worker's look and its UPDATE, and it is still linked and open then.
   */
  lemma ClosesOverLateLinksOnly(s: State, events: seq<Event>, e: Event, i: Id)
    requires Invariant(s) && IsWorkers(e)
    requires i in Run(s, events).db.incidents && !Run(s, events).db.incidents[i].closed
    requires i in Step(Run(s, events), e).db.incidents && Step(Run(s, events), e).db.incidents[i].closed
    ensures var t := Run(s, events);
            && t.worker.Vetted? && t.worker.incident == i
            && (HasOpenAlert(Step(t, e).db, i) <==>
                  exists a | a in t.worker.late :: (i, a) in t.db.links && a in t.db.alerts && !t.db.alerts[a].resolved)
  {
    hide Run;
    RunKeeps(s, events);
    var t := Run(s, events);
    assert t.worker.Vetted? && t.worker.incident == i;
    var after := Step(t, e).db;
    assert after.links == t.db.links && after.alerts == t.db.alerts;
    if HasOpenAlert(after, i) {
      var a :| a in after.alerts && (i, a) in after.links && !after.alerts[a].resolved;
      assert a in t.worker.late;
    }
    if a :| a in t.worker.late && (i, a) in t.db.links && a in t.db.alerts && !t.db.alerts[a].resolved {
      assert HasOpenAlert(after, i);
    }
  }

  // ---- the hands at work ----

  lemma RunTwo(s: State, d: Event, e: Event)
    ensures Run(s, [d, e]) == Step(Step(s, d), e)
  {
    assert [d, e][1..] == [e];
    RunOne(Step(s, d), e);
  }

  lemma RunThree(s: State, d: Event, e: Event, f: Event)
    ensures Run(s, [d, e, f]) == Step(Step(Step(s, d), e), f)
  {
    assert [d, e, f][1..] == [e, f] && [e, f][1..] == [f];
    RunOne(Step(Step(s, d), e), f);
  }

  const JAM := "jam"

  /** Two devices of one client, each with an open alert in an open automatic incident of its own. */
  const TwoCases := Database(
    map[1 := Some(7), 2 := Some(7)],
    {},
    map[10 := Alert(1, JAM, Critical, 0, false), 20 := Alert(2, JAM, Critical, 0, false)],
    map[100 := Incident(7, Some(1), JAM, true, false), 200 := Incident(7, Some(2), JAM, true, false)],
    {(100, 10), (200, 20)},
    201)

  const JamRule := Rule(None, JAM, true, 0, true, true)

  lemma TwoCasesIsOk()
    ensures Invariant(State(TwoCases, Resting, NOTHING_YET)) && OneIncidentPerAlert(TwoCases)
  {
  }

  /** A person links one incident's alert to the other. */
  lemma LinkByHandPutsInTwo()
    ensures Invariant(State(TwoCases, Resting, NOTHING_YET)) && OneIncidentPerAlert(TwoCases)
    ensures !OneIncidentPerAlert(Run(State(TwoCases, Resting, NOTHING_YET), [PersonLinks(200, 10)]).db)
  {
    hide Run;
    TwoCasesIsOk();
    RunOne(State(TwoCases, Resting, NOTHING_YET), PersonLinks(200, 10));
    var db := OthersStep(TwoCases, PersonLinks(200, 10));
    assert InOpenAuto(db, 100, 10) && InOpenAuto(db, 200, 10);
  }

  /** Device 1's case is closed, so of the two alerts its own is all that the rule selects. */
  predicate FirstClosed(db: Database, device: Id) {
    && db.clients == TwoCases.clients && db.rules == {} && db.links == TwoCases.links && db.next == 201
    && db.alerts.Keys == {10, 20} && db.incidents.Keys == {100, 200}
    && db.alerts[10] == Alert(device, JAM, Critical, 0, false)
    && db.alerts[20] == Alert(2, JAM, Critical, 0, false)
    && db.incidents[100].closed && db.incidents[100].auto && db.incidents[100].device == Some(1)
    && db.incidents[200] == Incident(7, Some(2), JAM, true, false)
  }

  lemma JamSelected(db: Database, device: Id)
    requires device in {1, 2} && FirstClosed(db, device)
    ensures var todo := Selected(db, JamRule, 0); todo.Keys == {10} && todo[10] == Snapshot(device, Some(7))
  {
    assert Owners(db.rules, JAM) == {};
    assert (200, 20) in db.links;
    assert Eligible(db, JamRule, 0, 10) && !Eligible(db, JamRule, 0, 20);
  }

  /** The alert gets a new incident and its old one, which has another class by now, is reopened. */
  lemma NewIncidentThenReopen(s: State)
    requires s.worker.Resting? && FirstClosed(s.db, 1) && s.db.incidents[100].cls != JAM
    ensures var select, rest := [Select(JamRule, 0)], [InsertFor(10), LinkIt, PersonReopens(100)];
            !OneIncidentPerAlert(Run(s, select + rest).db)
  {
    hide Run, Selected;
    var db := s.db;
    JamSelected(db, 1);
    RunOne(s, Select(JamRule, 0));
    var mid := Step(s, Select(JamRule, 0));
    RunJoin(s, [Select(JamRule, 0)], [InsertFor(10), LinkIt, PersonReopens(100)]);
    RunThree(mid, InsertFor(10), LinkIt, PersonReopens(100));
    var linked := Step(Step(mid, InsertFor(10)), LinkIt).db;
    assert !Taken(db, 1, JAM);
    assert linked == Linked(Inserted(db, 7, 1, JAM), 201, 10);
    assert MayReopen(linked, 100);
    var after := SetClosed(linked, 100, false);
    assert InOpenAuto(after, 100, 10) && InOpenAuto(after, 201, 10);
  }

  /** An incident gets another class, its alert another incident, and both are open in the end. */
  lemma ReclassifyingPutsInTwo()
    ensures var events := [PersonReclassifies(100, "other"), PersonCloses(100)]
                        + ([Select(JamRule, 0)] + [InsertFor(10), LinkIt, PersonReopens(100)]);
            !OneIncidentPerAlert(Run(State(TwoCases, Resting, NOTHING_YET), events).db)
  {
    hide Run;
    var start := State(TwoCases, Resting, NOTHING_YET);
    RunTwo(start, PersonReclassifies(100, "other"), PersonCloses(100));
    var s := Step(Step(start, PersonReclassifies(100, "other")), PersonCloses(100));
    assert s.db.incidents[100] == Incident(7, Some(1), "other", true, true);
    RunJoin(start, [PersonReclassifies(100, "other"), PersonCloses(100)],
            [Select(JamRule, 0)] + [InsertFor(10), LinkIt, PersonReopens(100)]);
    NewIncidentThenReopen(s);
  }

  lemma JoinsOther(s: State)
    requires s.worker.Resting? && FirstClosed(s.db, 2)
    ensures var t := Step(Step(Step(s, Select(JamRule, 0)), InsertFor(10)), FindExisting(200));
            t.db == s.db && t.worker.Opened? && t.worker.incident == 200 && t.worker.alert == 10
  {
    hide Selected;
    JamSelected(s.db, 2);
    assert OpenAuto(s.db, 200, 2, JAM);
  }

  /** The alert, by now another device's, joins that device's incident, and its old one is reopened. */
  lemma OtherIncidentThenReopen(s: State)
    requires s.worker.Resting? && FirstClosed(s.db, 2) && s.db.incidents[100].cls == JAM
    ensures var join, rest := [Select(JamRule, 0), InsertFor(10), FindExisting(200)], [LinkIt, PersonReopens(100)];
            !OneIncidentPerAlert(Run(s, join + rest).db)
  {
    hide Run, Selected;
    JoinsOther(s);
    RunThree(s, Select(JamRule, 0), InsertFor(10), FindExisting(200));
    var mid := Step(Step(Step(s, Select(JamRule, 0)), InsertFor(10)), FindExisting(200));
    RunJoin(s, [Select(JamRule, 0), InsertFor(10), FindExisting(200)], [LinkIt, PersonReopens(100)]);
    RunTwo(mid, LinkIt, PersonReopens(100));
    var linked := Linked(s.db, 200, 10);
    assert !Taken(linked, 1, JAM);
    var after := SetClosed(linked, 100, false);
    assert InOpenAuto(after, 100, 10) && InOpenAuto(after, 200, 10);
  }

  /** A merge moves the alert to a device with an incident, and its old incident is open again in the end. */
  lemma MergingPutsInTwo()
    ensures var events := [PersonCloses(100), DevicesMerge(2, 1, {})]
                        + ([Select(JamRule, 0), InsertFor(10), FindExisting(200)] + [LinkIt, PersonReopens(100)]);
            !OneIncidentPerAlert(Run(State(TwoCases, Resting, NOTHING_YET), events).db)
  {
    hide Run;
    var start := State(TwoCases, Resting, NOTHING_YET);
    RunTwo(start, PersonCloses(100), DevicesMerge(2, 1, {}));
    var s := Step(Step(start, PersonCloses(100)), DevicesMerge(2, 1, {}));
    assert s.db.incidents[100] == Incident(7, Some(1), JAM, true, true);
    RunJoin(start, [PersonCloses(100), DevicesMerge(2, 1, {})],
            [Select(JamRule, 0), InsertFor(10), FindExisting(200)] + [LinkIt, PersonReopens(100)]);
    OtherIncidentThenReopen(s);
  }

  /** A person links an open alert while the worker is about to close the incident. */
  lemma LateLink(s: State)
    requires s.worker.Closing? && 100 in s.worker.left && !HasOpenAlert(s.db, 100)
    requires 100 in s.db.incidents && 20 in s.db.alerts && !s.db.alerts[20].resolved
    ensures var db := Run(s, [Vet(100), PersonLinks(100, 20), CloseIt]).db;
            100 in db.incidents && db.incidents[100].closed && HasOpenAlert(db, 100)
  {
    hide Run;
    RunThree(s, Vet(100), PersonLinks(100, 20), CloseIt);
    var db := SetClosed(Linked(s.db, 100, 20), 100, true);
    assert (100, 20) in db.links && 20 in db.alerts && !db.alerts[20].resolved;
  }

  lemma TurnsToClosing(s: State)
    requires s.worker.Resting? && Selected(s.db, JamRule, 0).Keys == {} && 100 in UnderRuleIds(s.db, JamRule)
    ensures var t := Step(Step(s, Select(JamRule, 0)), SelectOpen);
            t.db == s.db && t.worker.Closing? && 100 in t.worker.left
  {
    hide Selected, UnderRuleIds;
  }

  /** Alert 10 is over and alert 20 in its own incident, so the rule selects none, and finds incident 100 stale. */
  lemma NothingButStale(db: Database)
    requires db.incidents == TwoCases.incidents && db.links == TwoCases.links && db.alerts.Keys == {10, 20}
    requires db.alerts[10].resolved
    ensures Selected(db, JamRule, 0).Keys == {} && 100 in UnderRuleIds(db, JamRule) && !HasOpenAlert(db, 100)
  {
    assert (200, 20) in db.links && !db.incidents[200].closed;
    assert InOpenIncident(db, 20);
  }

  /** So the worker does close an incident over an open alert. */
  lemma LateLinkIsClosedOver()
    ensures var events := [AlertResolves(10), Select(JamRule, 0), SelectOpen] + [Vet(100), PersonLinks(100, 20), CloseIt];
            var db := Run(State(TwoCases, Resting, NOTHING_YET), events).db;
            100 in db.incidents && db.incidents[100].closed && HasOpenAlert(db, 100)
  {
    var start := State(TwoCases, Resting, NOTHING_YET);
    var first := [AlertResolves(10), Select(JamRule, 0), SelectOpen];
    var calm := Step(start, AlertResolves(10));
    assert calm.worker.Resting? && calm.db.alerts[10].resolved && !calm.db.alerts[20].resolved;
    hide Run, Selected, UnderRuleIds, HasOpenAlert;
    NothingButStale(calm.db);
    TurnsToClosing(calm);
    RunThree(start, AlertResolves(10), Select(JamRule, 0), SelectOpen);
    RunJoin(start, first, [Vet(100), PersonLinks(100, 20), CloseIt]);
    LateLink(Run(start, first));
  }

  // ---- one tick, on a database that nobody else touches ----

  /** Without a client there can be no incident row. */
  predicate NoClient(db: Database, a: Id) {
    a in db.alerts && db.alerts[a].device in db.clients && db.clients[db.alerts[a].device].None?
  }

  /** An open automatic incident that has lost its reason. */
  predicate Stale(db: Database, i: Id) {
    i in db.incidents && db.incidents[i].auto && !db.incidents[i].closed && !HasOpenAlert(db, i)
  }

  ghost predicate NothingToOpen(db: Database, r: Rule, now: int) {
    forall a | Eligible(db, r, now, a) :: NoClient(db, a)
  }

  ghost predicate NothingToClose(db: Database, r: Rule) {
    r.autoClose ==> forall i | Stale(db, i) :: !UnderRule(r, db.incidents[i])
  }

  /** The rule has nothing left to do. */
  ghost predicate Settled(db: Database, r: Rule, now: int) {
    NothingToOpen(db, r, now) && NothingToClose(db, r)
  }

  /**
   * A part of a tick: it unlinks nothing, changes a row only to close a stale incident, takes no open alert
   * out of its incident, gives none to an alert without client, and makes nothing stale.
   */
  ghost predicate Advances(b: Database, c: Database) {
    && c.clients == b.clients && c.rules == b.rules && c.alerts == b.alerts && b.links <= c.links
    && (forall i | i in b.incidents :: i in c.incidents && (c.incidents[i] == b.incidents[i]
          || (Stale(b, i) && c.incidents[i] == b.incidents[i].(closed := true))))
    && (forall a | a in b.alerts && !b.alerts[a].resolved && InOpenIncident(b, a) :: InOpenIncident(c, a))
    && (forall a | NoClient(b, a) && InOpenIncident(c, a) :: InOpenIncident(b, a))
    && (forall i | Stale(c, i) :: Stale(b, i) && c.incidents[i] == b.incidents[i])
  }

  /** What `Selected` gives while nothing has changed. */
  ghost predicate IsSelection(db: Database, r: Rule, selected: map<Id, Snapshot>) {
    forall a | a in selected ::
      && a in db.alerts && db.alerts[a].cls == r.cls && !db.alerts[a].resolved && db.alerts[a].device in db.clients
      && selected[a] == Snapshot(db.alerts[a].device, db.clients[db.alerts[a].device])
  }

  ghost predicate Served(db: Database, ids: set<Id>) {
    forall a | a in ids :: a in db.alerts && !db.alerts[a].resolved && (NoClient(db, a) || InOpenIncident(db, a))
  }

  /** The alerts a rule selects that can get an incident. */
  ghost function Openable(db: Database, r: Rule, now: int): set<Id> {
    set a | a in db.alerts && Eligible(db, r, now, a) && !NoClient(db, a)
  }

  ghost function WithClient(db: Database, ids: set<Id>): set<Id> {
    set a | a in ids && !NoClient(db, a)
  }

  /** An open incident about the open alert's device and class. */
  predicate LinkedRight(db: Database, i: Id, a: Id) {
    && i in db.incidents && a in db.alerts && !db.alerts[a].resolved
    && db.incidents[i].auto && !db.incidents[i].closed
    && db.incidents[i].device == Some(db.alerts[a].device) && db.incidents[i].cls == db.alerts[a].cls
  }

  predicate MadeFor(db: Database, i: Id, a: Id)
    requires i in db.incidents
  {
    && (i, a) in db.links && a in db.alerts && db.alerts[a].device in db.clients
    && db.clients[db.alerts[a].device] == Some(db.incidents[i].client)
  }

  /** What is new is there for these alerts, and as it should be. */
  ghost predicate OpenedFor(b: Database, c: Database, wanted: set<Id>) {
    && (forall i, a | (i, a) in c.links && (i, a) !in b.links :: a in wanted && LinkedRight(c, i, a))
    && (forall i | i in c.incidents && i !in b.incidents ::
          c.incidents[i].auto && exists a | a in wanted :: MadeFor(c, i, a))
  }

  /** What is newly closed is so under one of these rules, and has no open alert. */
  ghost predicate ClosedFor(b: Database, c: Database, rules: set<Rule>) {
    forall i | i in b.incidents && i in c.incidents && !b.incidents[i].closed && c.incidents[i].closed ::
      !HasOpenAlert(c, i) && exists r | r in rules :: r.autoClose && UnderRule(r, b.incidents[i])
  }

  /** The alerts that some enabled rule selects and that can get an incident. */
  ghost function Wanted(db: Database, now: int): set<Id> {
    set a | a in db.alerts && !NoClient(db, a) && exists r | r in db.rules :: r.enabled && Eligible(db, r, now, a)
  }

  lemma OpenedForMore(b: Database, c: Database, a: Id, wanted: set<Id>)
    ensures OpenedFor(b, b, wanted)
    ensures OpenedFor(b, c, {a}) && (a in wanted || b == c) ==> OpenedFor(b, c, wanted)
  {
  }

  lemma LinkStaysRight(b: Database, c: Database, i: Id, a: Id)
    requires Advances(b, c) && (i, a) in b.links && LinkedRight(b, i, a)
    ensures LinkedRight(c, i, a)
  {
    assert HasOpenAlert(b, i);
  }

  lemma OpenedForTrans(a: Database, b: Database, c: Database, wanted: set<Id>)
    requires OpenedFor(a, b, wanted) && OpenedFor(b, c, wanted) && Advances(b, c)
    ensures OpenedFor(a, c, wanted)
  {
    forall i, x | (i, x) in c.links && (i, x) !in a.links ensures x in wanted && LinkedRight(c, i, x) {
      if (i, x) in b.links {
        LinkStaysRight(b, c, i, x);
      }
    }
    forall i | i in c.incidents && i !in a.incidents
      ensures c.incidents[i].auto && exists x | x in wanted :: MadeFor(c, i, x)
    {
      if i in b.incidents {
        var x :| x in wanted && MadeFor(b, i, x);
        assert MadeFor(c, i, x);
      }
    }
  }

  lemma ClosedGetsNoLink(b: Database, c: Database, wanted: set<Id>, i: Id)
    requires OpenedFor(b, c, wanted) && i in c.incidents && c.incidents[i].closed
    ensures forall x | (i, x) in c.links :: (i, x) in b.links
  {
  }

  lemma ClosedForTrans(a: Database, b: Database, c: Database, rules: set<Rule>, wanted: set<Id>)
    requires ClosedFor(a, b, rules) && ClosedFor(b, c, rules) && Advances(a, b) && Advances(b, c) && OpenedFor(b, c, wanted)
    ensures ClosedFor(a, c, rules)
  {
    forall i | i in a.incidents && i in c.incidents && !a.incidents[i].closed && c.incidents[i].closed
      ensures !HasOpenAlert(c, i) && exists r | r in rules :: r.autoClose && UnderRule(r, a.incidents[i])
    {
      if b.incidents[i].closed {
        ClosedGetsNoLink(b, c, wanted, i);
      }
    }
  }

  lemma AdvancesKeepsSettled(b: Database, c: Database, r: Rule, now: int)
    requires Advances(b, c)
    ensures NothingToOpen(b, r, now) ==> NothingToOpen(c, r, now)
    ensures NothingToClose(b, r) ==> NothingToClose(c, r)
  {
    if NothingToOpen(b, r, now) {
      forall a | Eligible(c, r, now, a) ensures NoClient(c, a) {
        assert Eligible(b, r, now, a);
      }
    }
  }

  lemma StillWanted(b: Database, c: Database, r: Rule, now: int)
    requires Advances(b, c) && r in b.rules && r.enabled
    ensures Openable(c, r, now) <= Wanted(b, now)
  {
    forall a | a in Openable(c, r, now) ensures a in Wanted(b, now) {
      assert Eligible(b, r, now, a);
    }
  }

  lemma AdvancesTrans(a: Database, b: Database, c: Database)
    requires Advances(a, b) && Advances(b, c)
    ensures Advances(a, c)
  {
    forall x: Id | NoClient(a, x) && InOpenIncident(c, x) ensures InOpenIncident(a, x) {
      assert NoClient(b, x);
    }
  }

  /** What a tick leaves to do: exactly the alerts of devices without client. */
  lemma LeftToOpen(b: Database, c: Database, r: Rule, now: int, a: Id)
    requires Advances(b, c) && NothingToOpen(c, r, now)
    ensures Eligible(c, r, now, a) <==> Eligible(b, r, now, a) && NoClient(b, a)
  {
  }

  /** Those come from a global rule for a class that no client has a rule for; others yield to the client's own. */
  lemma OwnRuleComesFirst(db: Database, r: Rule, now: int, a: Id)
    requires Eligible(db, r, now, a)
    ensures NoClient(db, a) ==> r.client.None? && Owners(db.rules, r.cls) == {}
    ensures forall own | own in db.rules && own.cls == r.cls && own.client.Some?
              && own.client == db.clients[db.alerts[a].device] :: r.client == own.client
  {
    forall own | own in db.rules && own.cls == r.cls && own.client.Some? ensures own.client.value in Owners(db.rules, r.cls) {
    }
  }

  lemma NothingServed(db: Database)
    ensures Served(db, {}) && Advances(db, db)
  {
  }

  lemma SameClients(b: Database, c: Database)
    requires Advances(b, c)
    ensures forall a :: NoClient(c, a) == NoClient(b, a)
  {
  }

  lemma ServedGrows(b: Database, c: Database, r: Rule, selected: map<Id, Snapshot>, served: set<Id>, a: Id)
    requires Advances(b, c) && IsSelection(b, r, selected) && Served(b, served)
    requires a in selected && (NoClient(c, a) || InOpenIncident(c, a))
    ensures IsSelection(c, r, selected) && Served(c, served + {a})
  {
    hide InOpenIncident;
  }

  lemma OpenAlertStays(b: Database, c: Database, i: Id)
    requires c.alerts == b.alerts && b.links <= c.links
    ensures HasOpenAlert(b, i) ==> HasOpenAlert(c, i)
  {
    if HasOpenAlert(b, i) {
      var a :| a in b.alerts && (i, a) in b.links && !b.alerts[a].resolved;
      assert (i, a) in c.links;
    }
  }

  lemma InsertLinkAdvances(db: Database, client: Id, a: Id)
    requires Consistent(db) && a in db.alerts && !db.alerts[a].resolved
    requires db.alerts[a].device in db.clients && db.clients[db.alerts[a].device] == Some(client)
    ensures Advances(db, Linked(Inserted(db, client, db.alerts[a].device, db.alerts[a].cls), db.next, a))
    ensures InOpenIncident(Linked(Inserted(db, client, db.alerts[a].device, db.alerts[a].cls), db.next, a), a)
  {
    var c := Linked(Inserted(db, client, db.alerts[a].device, db.alerts[a].cls), db.next, a);
    assert (db.next, a) in c.links && !c.incidents[db.next].closed;
    forall x | x in db.alerts && InOpenIncident(db, x) ensures InOpenIncident(c, x) {
      var i :| i in db.incidents && (i, x) in db.links && !db.incidents[i].closed;
      assert (i, x) in c.links && !c.incidents[i].closed;
    }
    forall x: Id | NoClient(db, x) && InOpenIncident(c, x) ensures InOpenIncident(db, x) {
      var i :| i in c.incidents && (i, x) in c.links && !c.incidents[i].closed;
      assert (i, x) in db.links;
    }
    assert HasOpenAlert(c, db.next);
    forall i | Stale(c, i) ensures Stale(db, i) && c.incidents[i] == db.incidents[i] {
      OpenAlertStays(db, c, i);
    }
  }

  lemma LinkAdvances(db: Database, i: Id, a: Id)
    requires Consistent(db) && a in db.alerts && !db.alerts[a].resolved && !NoClient(db, a)
    requires i in db.incidents && !db.incidents[i].closed
    ensures Advances(db, Linked(db, i, a)) && InOpenIncident(Linked(db, i, a), a)
  {
    var c := Linked(db, i, a);
    assert (i, a) in c.links && !c.incidents[i].closed;
    forall x | x in db.alerts && InOpenIncident(db, x) ensures InOpenIncident(c, x) {
      var j :| j in db.incidents && (j, x) in db.links && !db.incidents[j].closed;
      assert (j, x) in c.links && !c.incidents[j].closed;
    }
    forall x: Id | NoClient(db, x) && InOpenIncident(c, x) ensures InOpenIncident(db, x) {
      var j :| j in c.incidents && (j, x) in c.links && !c.incidents[j].closed;
      assert (j, x) in db.links;
    }
    forall j | Stale(c, j) ensures Stale(db, j) && c.incidents[j] == db.incidents[j] {
      OpenAlertStays(db, c, j);
    }
  }

  /** The stale incidents among `picked` closed, all else as it was. */
  function CloseAmong(db: Database, picked: set<Id>): Database {
    db.(incidents := map i | i in db.incidents ::
      if i in picked && Stale(db, i) then db.incidents[i].(closed := true) else db.incidents[i])
  }

  lemma SameOpenAlerts(b: Database, c: Database)
    requires c.alerts == b.alerts && c.links == b.links
    ensures forall i :: HasOpenAlert(c, i) <==> HasOpenAlert(b, i)
  {
    forall i: Id ensures HasOpenAlert(c, i) <==> HasOpenAlert(b, i) {
      OpenAlertStays(b, c, i);
      OpenAlertStays(c, b, i);
    }
  }

  lemma CloseAmongAdvances(db: Database, picked: set<Id>)
    requires Consistent(db)
    ensures Consistent(CloseAmong(db, picked)) && Advances(db, CloseAmong(db, picked))
  {
    var c := CloseAmong(db, picked);
    SameOpenAlerts(db, c);
    forall i, j, d, k | OpenAuto(c, i, d, k) && OpenAuto(c, j, d, k) ensures i == j {
      assert OpenAuto(db, i, d, k) && OpenAuto(db, j, d, k);
    }
    forall x | x in db.alerts && !db.alerts[x].resolved && InOpenIncident(db, x) ensures InOpenIncident(c, x) {
      var j :| j in db.incidents && (j, x) in db.links && !db.incidents[j].closed;
      assert HasOpenAlert(db, j);
      assert (j, x) in c.links && !c.incidents[j].closed;
    }
    forall x: Id | NoClient(db, x) && InOpenIncident(c, x) ensures InOpenIncident(db, x) {
      var j :| j in c.incidents && (j, x) in c.links && !c.incidents[j].closed;
      assert (j, x) in db.links && !db.incidents[j].closed;
    }
  }

  lemma CloseAmongNone(db: Database)
    ensures CloseAmong(db, {}) == db
  {
  }

  lemma CloseAmongStep(db: Database, picked: set<Id>, i: Id)
    requires i in db.incidents && i !in picked && !db.incidents[i].closed && db.incidents[i].auto
    ensures var c := CloseAmong(db, picked);
            CloseAmong(db, picked + {i}) == if HasOpenAlert(c, i) then c else SetClosed(c, i, true)
  {
    SameOpenAlerts(db, CloseAmong(db, picked));
  }

  lemma NothingStaleLeft(b: Database, r: Rule)
    requires r.autoClose
    ensures NothingToClose(CloseAmong(b, UnderRuleIds(b, r)), r)
    ensures NothingToClose(b, r) ==> CloseAmong(b, UnderRuleIds(b, r)) == b
  {
    SameOpenAlerts(b, CloseAmong(b, UnderRuleIds(b, r)));
  }

  lemma NothingClosed(b: Database, c: Database)
    requires forall i | i in b.incidents && i in c.incidents :: c.incidents[i] == b.incidents[i]
    ensures ClosedFor(b, c, {})
  {
  }

  lemma ClosedForMany(b: Database, c: Database, rules: set<Rule>, more: set<Rule>)
    requires ClosedFor(b, c, rules) && rules <= more
    ensures ClosedFor(b, c, more)
  {
  }

  lemma OpenedForMany(b: Database, c: Database, wanted: set<Id>, more: set<Id>)
    requires OpenedFor(b, c, wanted) && wanted <= more
    ensures OpenedFor(b, c, more)
  {
    forall i | i in c.incidents && i !in b.incidents ensures exists a | a in more :: MadeFor(c, i, a) {
      var a :| a in wanted && MadeFor(c, i, a);
      assert a in more;
    }
  }

  lemma ClosingOpensNothing(db: Database, r: Rule, wanted: set<Id>)
    ensures var c := if r.autoClose then CloseAmong(db, UnderRuleIds(db, r)) else db;
            OpenedFor(db, c, wanted) && ClosedFor(db, c, {r})
  {
    SameOpenAlerts(db, CloseAmong(db, UnderRuleIds(db, r)));
  }

  // ---- what a tick comes to, told from the columns ----

  /**
   * The rule takes the alert: it is enabled and for its class, the alert is open, old enough and severe enough, and
   * its device has a client, whose own rule it is, or who has none for the class while this one is everybody's.
   */
  ghost predicate RuleTakes(db: Database, r: Rule, now: int, a: Id)
    requires a in db.alerts
  {
    var al := db.alerts[a];
    && r in db.rules && r.enabled && r.cls == al.cls
    && !al.resolved && now - al.createdAt >= r.delayMinutes * 60_000
    && (r.minCritical ==> al.severity == Critical)
    && al.device in db.clients && db.clients[al.device].Some?
    && (r.client == db.clients[al.device]
        || (r.client == None && forall own | own in db.rules && own.cls == al.cls :: own.client != db.clients[al.device]))
  }

  /** The incident is one that the rule closes when its alerts are over. */
  ghost predicate RuleCloses(db: Database, r: Rule, i: Id)
    requires i in db.incidents
  {
    var inc := db.incidents[i];
    && r in db.rules && r.enabled && r.autoClose && r.cls == inc.cls && inc.auto
    && (r.client == None || r.client == Some(inc.client))
  }

  ghost predicate TickLaw(b: Database, c: Database, now: int) {
    // a new link puts an alert that some rule takes into an open incident of its device and class
    && (forall i, a | (i, a) in c.links && (i, a) !in b.links ::
          && i in c.incidents && a in c.alerts && a in b.alerts
          && c.incidents[i].auto && !c.incidents[i].closed
          && c.incidents[i].device == Some(c.alerts[a].device) && c.incidents[i].cls == c.alerts[a].cls
          && exists r :: RuleTakes(b, r, now, a))
    // every alert that some rule takes is in an open incident
    && (forall a, r | a in b.alerts && RuleTakes(b, r, now, a) ::
          exists i :: (i, a) in c.links && i in c.incidents && !c.incidents[i].closed)
    // a new incident is that of a linked alert's client
    && (forall i | i in c.incidents && i !in b.incidents ::
          exists a | (i, a) in c.links && a in c.alerts && c.alerts[a].device in c.clients ::
            c.clients[c.alerts[a].device] == Some(c.incidents[i].client))
    // an old one changes only by being closed, under some rule, when all its alerts are over
    && (forall i | i in b.incidents ::
          && i in c.incidents
          && (c.incidents[i] == b.incidents[i]
              || (!b.incidents[i].closed && c.incidents[i] == b.incidents[i].(closed := true)
                  && (forall a | (i, a) in c.links && a in c.alerts :: c.alerts[a].resolved)
                  && exists r :: RuleCloses(b, r, i))))
    // and none is left open that some rule closes and whose alerts are all over
    && (forall i, r | i in c.incidents && !c.incidents[i].closed && RuleCloses(c, r, i) ::
          exists a | a in c.alerts :: (i, a) in c.links && !c.alerts[a].resolved)
  }

  lemma EligibleIfTaken(db: Database, r: Rule, now: int, a: Id)
    requires a in db.alerts
    ensures r in db.rules && r.enabled && Eligible(db, r, now, a) && !NoClient(db, a) ==> RuleTakes(db, r, now, a)
    ensures RuleTakes(db, r, now, a) && !InOpenIncident(db, a) ==> Eligible(db, r, now, a) && !NoClient(db, a)
  {
    var owners := Owners(db.rules, r.cls);
    forall own | own in db.rules && own.cls == r.cls && own.client.Some? ensures own.client.value in owners {
    }
    forall x | x in owners ensures exists own | own in db.rules :: own.cls == r.cls && own.client == Some(x) {
    }
  }

  lemma NewLinksByColumns(b: Database, c: Database, now: int, i: Id, a: Id)
    requires Advances(b, c) && OpenedFor(b, c, Wanted(b, now)) && (i, a) in c.links && (i, a) !in b.links
    ensures a in b.alerts && LinkedRight(c, i, a) && exists r :: RuleTakes(b, r, now, a)
  {
    hide Eligible, RuleTakes;
    assert a in Wanted(b, now);
    var r :| r in b.rules && r.enabled && Eligible(b, r, now, a);
    EligibleIfTaken(b, r, now, a);
  }

  lemma TakenAreServed(b: Database, c: Database, now: int, a: Id, r: Rule)
    requires Advances(b, c) && a in b.alerts && RuleTakes(b, r, now, a)
    requires forall x | x in b.rules && x.enabled :: NothingToOpen(c, x, now)
    ensures InOpenIncident(c, a)
  {
    EligibleIfTaken(c, r, now, a);
    assert RuleTakes(c, r, now, a) && NothingToOpen(c, r, now);
  }

  lemma TickByColumns(b: Database, c: Database, now: int)
    requires Advances(b, c) && OpenedFor(b, c, Wanted(b, now)) && Consistent(c)
    requires ClosedFor(b, c, set r | r in b.rules && r.enabled)
    requires forall r | r in b.rules && r.enabled :: Settled(c, r, now)
    ensures TickLaw(b, c, now)
  {
    forall i, a | (i, a) in c.links && (i, a) !in b.links
      ensures a in b.alerts && LinkedRight(c, i, a) && exists r :: RuleTakes(b, r, now, a)
    {
      NewLinksByColumns(b, c, now, i, a);
    }
    hide RuleTakes, Eligible, Consistent;
    forall a, r | a in b.alerts && RuleTakes(b, r, now, a)
      ensures exists i :: (i, a) in c.links && i in c.incidents && !c.incidents[i].closed
    {
      TakenAreServed(b, c, now, a, r);
    }
    forall i | i in b.incidents && c.incidents[i] != b.incidents[i]
      ensures (forall a | (i, a) in c.links && a in c.alerts :: c.alerts[a].resolved) && exists r :: RuleCloses(b, r, i)
    {
      var r :| r in b.rules && r.enabled && r.autoClose && UnderRule(r, b.incidents[i]);
      assert RuleCloses(b, r, i);
    }
    forall i, r | i in c.incidents && !c.incidents[i].closed && RuleCloses(c, r, i)
      ensures exists a | a in c.alerts :: (i, a) in c.links && !c.alerts[a].resolved
    {
      assert Settled(c, r, now);
      assert UnderRule(r, c.incidents[i]);
      assert Stale(c, i) <==> !HasOpenAlert(c, i);
    }
    forall i | i in c.incidents && i !in b.incidents
      ensures exists a | (i, a) in c.links && a in c.alerts && c.alerts[a].device in c.clients ::
                c.clients[c.alerts[a].device] == Some(c.incidents[i].client)
    {
      var a :| a in Wanted(b, now) && MadeFor(c, i, a);
    }
  }

  class IncidentWorker {
    var clients: map<Id, Option<Id>>
    var rules: set<Rule>
    var alerts: map<Id, Alert>
    var incidents: map<Id, Incident>
    var links: set<(Id, Id)>
    var next: Id
    ghost var past: History

    function Db(): Database
      reads this
    {
      Database(clients, rules, alerts, incidents, links, next)
    }

    ghost function View(worker: Worker): State
      reads this
    {
      State(Db(), worker, past)
    }

    method FindOpen(device: Id, cls: string) returns (i: Option<Id>)
      ensures i.Some? ==> OpenAuto(Db(), i.value, device, cls)
      ensures i.None? ==> !Taken(Db(), device, cls)
    {
      if k :| k in incidents && OpenAuto(Db(), k, device, cls) {
        i := Some(k);
      } else {
        i := None;
      }
    }

    /** The incident of an alert, new or not; none if the insertion fails. */
    method OpenOrLinkIncident(r: Rule, a: Id, read: Snapshot, ghost todo: map<Id, Snapshot>)
      returns (i: Option<Id>, ghost events: seq<Event>)
      requires a in todo && todo[a] == read
      modifies this`incidents, this`next
      ensures i.None? <==> read.client.None?
      ensures Db() == old(
        if read.client.Some? && !Taken(Db(), read.device, r.cls)
        then Inserted(Db(), read.client.value, read.device, r.cls) else Db())
      ensures i.Some? ==> OpenAuto(Db(), i.value, read.device, r.cls)
      ensures Undisturbed(events) && Run(old(View(Processing(r, todo))), events)
           == View(if i.Some? then Opened(r, todo - {a}, a, i.value) else Processing(r, todo - {a}))
    {
      ghost var start := View(Processing(r, todo));
      hide Run;
      RunOne(start, InsertFor(a));
      events := [InsertFor(a)];
      if read.client.None? {
        return None, events;
      }
      var existing := FindOpen(read.device, r.cls);
      if existing.Some? {
        RunAndStep(start, events, FindExisting(existing.value));
        return existing, events + [FindExisting(existing.value)];
      }
      incidents := incidents[next := Incident(read.client.value, Some(read.device), r.cls, true, false)];
      next := next + 1;
      i := Some(next - 1);
    }

    method ProcessAlert(r: Rule, a: Id, read: Snapshot, ghost todo: map<Id, Snapshot>) returns (ghost events: seq<Event>)
      requires Consistent(Db()) && a in alerts && alerts[a].cls == r.cls && !alerts[a].resolved
      requires alerts[a].device in clients && read == Snapshot(alerts[a].device, clients[alerts[a].device])
      requires a in todo && todo[a] == read
      modifies this`incidents, this`next, this`links
      ensures Consistent(Db()) && Advances(old(Db()), Db())
      ensures NoClient(Db(), a) ==> Db() == old(Db())
      ensures !NoClient(Db(), a) ==> InOpenIncident(Db(), a)
      ensures OpenedFor(old(Db()), Db(), {a}) && ClosedFor(old(Db()), Db(), {})
      ensures Undisturbed(events) && Run(old(View(Processing(r, todo))), events) == View(Processing(r, todo - {a}))
    {
      hide Run;
      ghost var start := Db();
      var i: Option<Id>;
      i, events := OpenOrLinkIncident(r, a, read, todo);
      if i.None? {
        return;
      }
      RunAndStep(old(View(Processing(r, todo))), events, LinkIt);
      events := events + [LinkIt];
      links := links + {(i.value, a)};
      assert Db() == Linked(Db().(links := start.links), i.value, a);
      if Taken(start, read.device, r.cls) {
        LinkAdvances(start, i.value, a);
        SameIncidentsKeep(start, Db());
      } else {
        InsertKeeps(start, read.client.value, read.device, r.cls);
        InsertLinkAdvances(start, read.client.value, a);
        SameIncidentsKeep(Inserted(start, read.client.value, read.device, r.cls), Db());
      }
    }

    method ProcessSelected(r: Rule, selected: map<Id, Snapshot>) returns (ghost events: seq<Event>)
      requires Consistent(Db()) && IsSelection(Db(), r, selected)
      modifies this`incidents, this`next, this`links
      ensures Consistent(Db()) && Advances(old(Db()), Db())
      ensures Served(Db(), selected.Keys) && OpenedFor(old(Db()), Db(), old(WithClient(Db(), selected.Keys)))
      ensures ClosedFor(old(Db()), Db(), {})
      ensures (forall a | a in selected :: old(NoClient(Db(), a))) ==> Db() == old(Db())
      ensures Undisturbed(events) && Run(old(View(Processing(r, selected))), events) == View(Processing(r, map[]))
    {
      hide Consistent, OpenedFor, ClosedFor, Advances, Run, Step, InOpenIncident, Served, NoClient;
      ghost var start := Db();
      ghost var begin := View(Processing(r, selected));
      ghost var served: set<Id> := {};
      var todo := selected;
      events := [];
      RunNothing(begin);
      ghost var wanted := WithClient(start, selected.Keys);
      OpenedForMore(start, start, 0, wanted);
      NothingClosed(start, start);
      NothingServed(start);
      while todo.Keys != {}
        invariant served + todo.Keys == selected.Keys && forall a | a in todo :: todo[a] == selected[a]
        invariant Consistent(Db()) && Advances(start, Db()) && IsSelection(Db(), r, selected)
        invariant Served(Db(), served) && OpenedFor(start, Db(), wanted) && ClosedFor(start, Db(), {})
        invariant Undisturbed(events) && Run(begin, events) == View(Processing(r, todo))
        invariant (forall a | a in selected :: NoClient(start, a)) ==> Db() == start
      {
        var a :| a in todo.Keys;
        ghost var before := Db();
        ghost var more := ProcessAlert(r, a, todo[a], todo);
        RunJoin(begin, events, more);
        events := events + more;
        AdvancesTrans(start, before, Db());
        SameClients(start, Db());
        ServedGrows(before, Db(), r, selected, served, a);
        OpenedForMore(before, Db(), a, wanted);
        OpenedForTrans(start, before, Db(), wanted);
        ClosedForTrans(start, before, Db(), {}, wanted);
        todo, served := todo - {a}, served + {a};
      }
      assert served == selected.Keys && todo == map[];
    }

    /** After it, every alert the rule selected is in an open incident, but for those of devices without client. */
    method ProcessRule(r: Rule, now: int) returns (ghost events: seq<Event>)
      requires Consistent(Db())
      modifies this`incidents, this`next, this`links
      ensures Consistent(Db()) && Advances(old(Db()), Db())
      ensures forall a :: Eligible(Db(), r, now, a) <==> old(Eligible(Db(), r, now, a)) && NoClient(Db(), a)
      ensures (forall a | old(Eligible(Db(), r, now, a)) :: NoClient(Db(), a)) ==> Db() == old(Db())
      ensures OpenedFor(old(Db()), Db(), old(Openable(Db(), r, now))) && ClosedFor(old(Db()), Db(), {})
      ensures Undisturbed(events) && Run(old(View(Resting)), events) == View(Processing(r, map[]))
    {
      hide Consistent, OpenedFor, ClosedFor, Covers, SeverityFits, Run, Step;
      ghost var start := Db();
      ghost var begin := View(Resting);
      var selected := Selected(Db(), r, now);
      assert WithClient(start, selected.Keys) == Openable(start, r, now);
      SelectRuns(start, past, r, now);
      events := ProcessSelected(r, selected);
      RunJoin(begin, [Select(r, now)], events);
      events := [Select(r, now)] + events;
    }

    method CloseIfStale(r: Rule, i: Id, ghost start: Database, ghost picked: set<Id>, ghost todo: set<Id>)
      returns (ghost events: seq<Event>)
      requires i in todo
      requires i in start.incidents && i !in picked && !start.incidents[i].closed && start.incidents[i].auto
      requires Db() == CloseAmong(start, picked)
      modifies this`incidents, this`next, this`links
      ensures Db() == CloseAmong(start, picked + {i})
      ensures Undisturbed(events) && Run(old(View(Closing(r, todo))), events) == View(Closing(r, todo - {i}))
    {
      hide Run;
      CloseAmongStep(start, picked, i);
      ghost var before := View(Closing(r, todo));
      events := [Vet(i)];
      RunOne(before, Vet(i));
      if !HasOpenAlert(Db(), i) {
        RunAndStep(before, events, CloseIt);
        events := events + [CloseIt];
        incidents := incidents[i := incidents[i].(closed := true)];
      }
    }

    /** It closes the stale incidents under the rule, whatever client a global rule finds them with. */
    method AutoCloseResolved(r: Rule) returns (ghost events: seq<Event>)
      modifies this`incidents, this`next, this`links
      ensures Undisturbed(events) && Run(old(View(Processing(r, map[]))), events) == View(Resting)
      ensures Db() == old(if r.autoClose then CloseAmong(Db(), UnderRuleIds(Db(), r)) else Db())
    {
      hide Run, CloseAmong;
      ghost var start := Db();
      ghost var before := View(Processing(r, map[]));
      events := [SelectOpen];
      RunOne(before, SelectOpen);
      if !r.autoClose {
        return;
      }
      var open := UnderRuleIds(Db(), r);
      var todo := open;
      ghost var done: set<Id> := {};
      CloseAmongNone(start);
      while todo != {}
        invariant done + todo == open && done !! todo
        invariant Db() == CloseAmong(start, done)
        invariant Undisturbed(events) && Run(before, events) == View(Closing(r, todo))
      {
        var i :| i in todo;
        ghost var more := CloseIfStale(r, i, start, done, todo);
        RunJoin(before, events, more);
        events := events + more;
        todo, done := todo - {i}, done + {i};
      }
      assert done == open;
      RunAndStep(before, events, Finish);
      events := events + [Finish];
    }

    method ApplyRule(r: Rule, now: int) returns (ghost events: seq<Event>)
      requires Consistent(Db())
      modifies this`incidents, this`next, this`links
      ensures Consistent(Db()) && Advances(old(Db()), Db()) && Settled(Db(), r, now)
      ensures OpenedFor(old(Db()), Db(), old(Openable(Db(), r, now))) && ClosedFor(old(Db()), Db(), {r})
      ensures old(Settled(Db(), r, now)) ==> Db() == old(Db())
      ensures Undisturbed(events) && Run(old(View(Resting)), events) == View(Resting)
    {
      hide Run, Eligible, HasOpenAlert, InOpenIncident, OneOpenPerClass, OpenedFor, ClosedFor;
      ghost var start := Db();
      ghost var begin := View(Resting);
      events := ProcessRule(r, now);
      ghost var middle := Db();
      assert NothingToOpen(middle, r, now);
      ghost var more := AutoCloseResolved(r);
      RunJoin(begin, events, more);
      events := events + more;
      CloseAmongAdvances(middle, UnderRuleIds(middle, r));
      AdvancesKeepsSettled(middle, Db(), r, now);
      AdvancesTrans(start, middle, Db());
      ClosingOpensNothing(middle, r, Openable(start, r, now));
      OpenedForTrans(start, middle, Db(), Openable(start, r, now));
      ClosedForMany(start, middle, {}, {r});
      ClosedForTrans(start, middle, Db(), {r}, Openable(start, r, now));
      if r.autoClose {
        NothingStaleLeft(middle, r);
      }
    }

    /** A tick settles every enabled rule, and a tick after that does nothing; it is a run of the worker's statements. */
    method Tick(now: int) returns (ghost events: seq<Event>)
      requires Consistent(Db())
      modifies this`incidents, this`next, this`links
      ensures Consistent(Db()) && Advances(old(Db()), Db())
      ensures forall r | r in old(rules) && r.enabled :: Settled(Db(), r, now)
      ensures forall r, a | r in old(rules) && r.enabled ::
        Eligible(Db(), r, now, a) <==> old(Eligible(Db(), r, now, a)) && NoClient(Db(), a)
      ensures OpenedFor(old(Db()), Db(), old(Wanted(Db(), now)))
      ensures TickLaw(old(Db()), Db(), now)
      ensures (forall r | r in old(rules) && r.enabled :: old(Settled(Db(), r, now))) ==> Db() == old(Db())
      ensures Undisturbed(events) && Run(old(View(Resting)), events) == View(Resting)
    {
      hide Eligible, Consistent, Run, OpenedFor, ClosedFor, TickLaw;
      ghost var start := Db();
      events := [];
      ghost var begin := View(Resting);
      RunNothing(begin);
      var enabled := set r | r in rules && r.enabled;
      var todo := enabled;
      OpenedForMore(start, start, 0, Wanted(start, now));
      NothingClosed(start, start);
      ClosedForMany(start, start, {}, enabled);
      while todo != {}
        invariant todo <= enabled && ClosedFor(start, Db(), enabled)
        invariant Consistent(Db()) && Advances(start, Db()) && OpenedFor(start, Db(), Wanted(start, now))
        invariant forall r | r in enabled - todo :: Settled(Db(), r, now)
        invariant (forall r | r in enabled :: Settled(start, r, now)) ==> Db() == start
        invariant Undisturbed(events) && Run(begin, events) == View(Resting)
      {
        var r :| r in todo;
        ghost var before := Db();
        ghost var more := ApplyRule(r, now);
        RunJoin(begin, events, more);
        events := events + more;
        AdvancesTrans(start, before, Db());
        StillWanted(start, before, r, now);
        OpenedForMany(before, Db(), Openable(before, r, now), Wanted(start, now));
        OpenedForTrans(start, before, Db(), Wanted(start, now));
        ClosedForMany(before, Db(), {r}, enabled);
        ClosedForTrans(start, before, Db(), enabled, Wanted(start, now));
        forall r' | r' in enabled - todo ensures Settled(Db(), r', now) {
          AdvancesKeepsSettled(before, Db(), r', now);
        }
        todo := todo - {r};
      }
      forall r, a | r in enabled ensures Eligible(Db(), r, now, a) <==> Eligible(start, r, now, a) && NoClient(Db(), a) {
        assert Settled(Db(), r, now);
        LeftToOpen(start, Db(), r, now, a);
      }
      TickByColumns(start, Db(), now);
    }
  }
}
