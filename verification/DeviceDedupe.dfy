/**
 * Devices that share a serial within a client are merged, once, before the pair becomes unique
 * (cloud/src/db/migrations/20260822040000_devices_client_serial_identity.ts).
 *
 * The rows of each table are a map from their id. Every method of `Migration` below is one SQL
 * statement or one loop of the source; the functions above it say what the statement does.
 */
module DeviceDedupe {
  import opened Wrappers

  type Id = nat

  /**
   * `key` is the trimmed, upper-case serial if it identifies the device, `modelKey` the lower-case model.
   * A device with `merged` set is a tombstone.
   */
  datatype Device = Device(
    agent: Id, client: Option<Id>, key: Option<string>, modelKey: string, createdAt: int,
    merged: Option<Id>, active: bool,
    mac: Option<string>, hostname: Option<string>, location: Option<string>, firmware: Option<string>,
    sku: Option<string>,
    total: Option<nat>, mono: Option<nat>, color: Option<nat>, lastSeen: Option<nat>)

  datatype Alert = Alert(device: Id, kind: string, createdAt: int, resolved: bool)

  /** `readings` and `lines` give each row the device it belongs to. */
  datatype Tables = Tables(
    devices: map<Id, Device>, alerts: map<Id, Alert>, readings: map<Id, Id>, lines: map<Id, Id>)

  // ---- age ----

  predicate Older(t: int, i: Id, u: int, j: Id) {
    t < u || (t == u && i < j)
  }

  /** Of finitely many rows one is the oldest. */
  lemma {:induction false} Oldest(age: map<Id, int>, s: set<Id>) returns (m: Id)
    requires s != {} && s <= age.Keys
    ensures m in s && forall j | j in s && j != m :: Older(age[m], m, age[j], j)
    decreases |s|
  {
    var x :| x in s;
    m := x;
    assert forall j | j in s :: j == x || j in s - {x};
    if s - {x} != {} {
      var y := Oldest(age, s - {x});
      if Older(age[y], y, age[x], x) {
        m := y;
      }
    }
  }

  // ---- groups ----

  /** The backfill of missing clients from the agent. */
  function Backfilled(devices: map<Id, Device>, agents: map<Id, Option<Id>>): map<Id, Device> {
    map i | i in devices ::
      var d := devices[i];
      if d.client.None? && d.agent in agents then d.(client := agents[d.agent]) else d
  }

  predicate Identified(d: Device) {
    d.client.Some? && d.merged.None? && d.key.Some?
  }

  predicate SameGroup(a: Device, b: Device) {
    Identified(a) && Identified(b) && a.client == b.client && a.key == b.key
  }

  function Group(devices: map<Id, Device>, d: Device): set<Id> {
    set i | i in devices && SameGroup(d, devices[i])
  }

  /** At most one known MAC and one model. */
  predicate Clean(devices: map<Id, Device>, group: set<Id>)
    requires group <= devices.Keys
  {
    forall i, j | i in group && j in group ::
      && (devices[i].mac.Some? && devices[j].mac.Some? ==> devices[i].mac == devices[j].mac)
      && devices[i].modelKey == devices[j].modelKey
  }

  predicate IsOldest(devices: map<Id, Device>, group: set<Id>, k: Id)
    requires group <= devices.Keys
  {
    && k in group
    && forall j | j in group && j != k :: Older(devices[k].createdAt, k, devices[j].createdAt, j)
  }

  /** `k` survives and `d` is merged into it. */
  predicate IsPair(devices: map<Id, Device>, k: Id, d: Id) {
    && k != d && k in devices && d in devices && SameGroup(devices[k], devices[d])
    && var group := Group(devices, devices[d]);
    Clean(devices, group) && IsOldest(devices, group, k)
  }

  predicate HasConflict(devices: map<Id, Device>) {
    exists i, j | i in devices && j in devices :: InConflict(devices, i, j)
  }

  predicate InConflict(devices: map<Id, Device>, i: Id, j: Id)
    requires i in devices && j in devices
  {
    i != j && SameGroup(devices[i], devices[j]) && !Clean(devices, Group(devices, devices[i]))
  }

  /** What the new unique index asks. */
  predicate UniqueIndex(devices: map<Id, Device>) {
    forall i, j | i in devices && j in devices :: SameGroup(devices[i], devices[j]) ==> i == j
  }

  // ---- the statements of one merge ----

  function Coalesce<T>(a: Option<T>, b: Option<T>): Option<T> {
    if a.Some? then a else b
  }

  function OrZero(n: Option<nat>): nat {
    if n.Some? then n.value else 0
  }

  function Greatest(a: Option<nat>, b: Option<nat>): Option<nat> {
    Some(if OrZero(a) >= OrZero(b) then OrZero(a) else OrZero(b))
  }

  function Promoted(k: Device, d: Device): Device {
    k.(mac := Coalesce(k.mac, d.mac),
       hostname := Coalesce(k.hostname, d.hostname),
       location := Coalesce(k.location, d.location),
       firmware := Coalesce(k.firmware, d.firmware),
       sku := Coalesce(k.sku, d.sku),
       total := Greatest(k.total, d.total),
       mono := Greatest(k.mono, d.mono),
       color := Greatest(k.color, d.color),
       lastSeen := Greatest(k.lastSeen, d.lastSeen))
  }

  predicate Beats(alerts: map<Id, Alert>, b: Id, a: Id)
    requires a in alerts && b in alerts
  {
    && !alerts[b].resolved && alerts[b].kind == alerts[a].kind
    && Older(alerts[b].createdAt, b, alerts[a].createdAt, a)
  }

  predicate Collides(alerts: map<Id, Alert>, k: Id, d: Id, a: Id)
    requires a in alerts
  {
    && (alerts[a].device == k || alerts[a].device == d)
    && exists b | b in alerts :: (alerts[b].device == k || alerts[b].device == d) && Beats(alerts, b, a)
  }

  /** Of the open alerts of a kind that the two devices have, the oldest stays open. */
  function ResolveColliding(alerts: map<Id, Alert>, k: Id, d: Id): map<Id, Alert> {
    map a | a in alerts ::
      if !alerts[a].resolved && Collides(alerts, k, d, a) then alerts[a].(resolved := true) else alerts[a]
  }

  function RepointAlerts(alerts: map<Id, Alert>, k: Id, d: Id): map<Id, Alert> {
    map a | a in alerts :: if alerts[a].device == d then alerts[a].(device := k) else alerts[a]
  }

  function Repoint(rows: map<Id, Id>, k: Id, d: Id): map<Id, Id> {
    map r | r in rows :: if rows[r] == d then k else rows[r]
  }

  function Tombstone(k: Id, d: Device): Device {
    d.(merged := Some(k), active := false)
  }

  function MergeStep(t: Tables, k: Id, d: Id): Tables
    requires k in t.devices && d in t.devices
  {
    Tables(
      t.devices[k := Promoted(t.devices[k], t.devices[d])][d := Tombstone(k, t.devices[d])],
      RepointAlerts(ResolveColliding(t.alerts, k, d), k, d),
      Repoint(t.readings, k, d),
      Repoint(t.lines, k, d))
  }

  // ---- the index on open alerts ----

  ghost predicate OneOpenPerKind(alerts: map<Id, Alert>) {
    forall a, b | a in alerts && b in alerts && !alerts[a].resolved && !alerts[b].resolved ::
      alerts[a].device == alerts[b].device && alerts[a].kind == alerts[b].kind ==> a == b
  }

  /** It holds after the collisions are resolved, and it still holds after the alerts are repointed. */
  lemma AlertIndexHolds(alerts: map<Id, Alert>, k: Id, d: Id)
    requires OneOpenPerKind(alerts) && k != d
    ensures OneOpenPerKind(ResolveColliding(alerts, k, d))
    ensures OneOpenPerKind(RepointAlerts(ResolveColliding(alerts, k, d), k, d))
  {
    var mid := ResolveColliding(alerts, k, d);
    forall a, b | a in mid && b in mid && !mid[a].resolved && !mid[b].resolved && mid[a].kind == mid[b].kind && a != b
      ensures !(mid[a].device in {k, d} && mid[b].device in {k, d})
    {
      assert Older(alerts[a].createdAt, a, alerts[b].createdAt, b) || Older(alerts[b].createdAt, b, alerts[a].createdAt, a);
      assert Beats(alerts, a, b) || Beats(alerts, b, a);
    }
  }

  // ---- what a set of merges leaves, against the tables they started from ----

  datatype TextField = Mac | Hostname | Location | Firmware | Sku

  datatype Counter = Total | Mono | Color | LastSeen

  function Text(d: Device, f: TextField): Option<string> {
    match f
    case Mac => d.mac
    case Hostname => d.hostname
    case Location => d.location
    case Firmware => d.firmware
    case Sku => d.sku
  }

  function Count(d: Device, c: Counter): nat {
    match c
    case Total => OrZero(d.total)
    case Mono => OrZero(d.mono)
    case Color => OrZero(d.color)
    case LastSeen => OrZero(d.lastSeen)
  }

  /** `log` maps each merged device to its survivor. */
  function Target(log: map<Id, Id>, d: Id): Id {
    if d in log then log[d] else d
  }

  function Members(log: map<Id, Id>, k: Id): set<Id> {
    {k} + set d | d in log && log[d] == k
  }

  /** Survivors are not merged themselves, and every row named exists. */
  predicate ValidLog(devices: map<Id, Device>, log: map<Id, Id>) {
    forall d | d in log :: d in devices && log[d] in devices && log[d] !in log
  }

  ghost predicate HasGreatest(start: map<Id, Device>, members: set<Id>, k: Device, c: Counter)
    requires members <= start.Keys
  {
    && (forall m | m in members :: Count(start[m], c) <= Count(k, c))
    && exists m | m in members :: Count(start[m], c) == Count(k, c)
  }

  ghost predicate HasText(start: map<Id, Device>, members: set<Id>, own: Device, k: Device, f: TextField)
    requires members <= start.Keys
  {
    && (Text(own, f).Some? ==> Text(k, f) == Text(own, f))
    && (Text(k, f).None? ==> forall m | m in members :: Text(start[m], f).None?)
    && (Text(k, f).Some? ==> exists m | m in members :: Text(start[m], f) == Text(k, f))
  }

  /** What a survivor has become: nothing but texts and counters changes. */
  ghost predicate Absorbed(start: map<Id, Device>, log: map<Id, Id>, k: Id, now: Device)
    requires k in start && ValidLog(start, log)
  {
    var own := start[k];
    && now == Device(own.agent, own.client, own.key, own.modelKey, own.createdAt, own.merged, own.active,
         now.mac, now.hostname, now.location, now.firmware, now.sku, now.total, now.mono, now.color, now.lastSeen)
    && (if Members(log, k) == {k} then now == own
        else now.total.Some? && now.mono.Some? && now.color.Some? && now.lastSeen.Some?)
    && (forall c :: HasGreatest(start, Members(log, k), now, c))
    && (forall f :: HasText(start, Members(log, k), own, now, f))
  }

  ghost predicate DevicesMerged(start: map<Id, Device>, log: map<Id, Id>, now: map<Id, Device>)
    requires ValidLog(start, log)
  {
    && now.Keys == start.Keys
    && forall i | i in start ::
         if i in log then now[i] == Tombstone(log[i], start[i]) else Absorbed(start, log, i, now[i])
  }

  ghost predicate Moved(start: map<Id, Id>, log: map<Id, Id>, now: map<Id, Id>) {
    now.Keys == start.Keys && forall r | r in start :: now[r] == Target(log, start[r])
  }

  /** Some open alert of the same kind, now on the same device, is older. */
  predicate Beaten(start: map<Id, Alert>, log: map<Id, Id>, a: Id)
    requires a in start
  {
    exists b | b in start :: Target(log, start[b].device) == Target(log, start[a].device) && Beats(start, b, a)
  }

  function MergedAlert(start: map<Id, Alert>, log: map<Id, Id>, a: Id): Alert
    requires a in start
  {
    start[a].(device := Target(log, start[a].device), resolved := start[a].resolved || Beaten(start, log, a))
  }

  ghost predicate AlertsMerged(start: map<Id, Alert>, log: map<Id, Id>, now: map<Id, Alert>) {
    now.Keys == start.Keys && forall a | a in start :: now[a] == MergedAlert(start, log, a)
  }

  ghost predicate Merged(start: Tables, log: map<Id, Id>, now: Tables)
    requires ValidLog(start.devices, log)
  {
    && DevicesMerged(start.devices, log, now.devices)
    && AlertsMerged(start.alerts, log, now.alerts)
    && Moved(start.readings, log, now.readings)
    && Moved(start.lines, log, now.lines)
  }

  // ---- one more merge ----

  /** `d` may still be merged into `k`. */
  predicate Mergeable(devices: map<Id, Device>, log: map<Id, Id>, k: Id, d: Id) {
    && k != d && k in devices && d in devices
    && k !in log && d !in log && forall x | x in log :: log[x] != d
  }

  lemma MovedStep(start: map<Id, Id>, log: map<Id, Id>, now: map<Id, Id>, k: Id, d: Id)
    requires Moved(start, log, now) && d !in log && k !in log && forall x | x in log :: log[x] != d
    ensures Moved(start, log[d := k], Repoint(now, k, d))
  {
  }

  lemma PromotedCount(k: Device, d: Device, c: Counter)
    ensures Count(Promoted(k, d), c) == if Count(k, c) >= Count(d, c) then Count(k, c) else Count(d, c)
  {
  }

  lemma PromotedText(k: Device, d: Device, f: TextField)
    ensures Text(Promoted(k, d), f) == Coalesce(Text(k, f), Text(d, f))
  {
  }

  lemma MembersStep(log: map<Id, Id>, k: Id, d: Id)
    requires k !in log && d !in log && k != d
    ensures Members(log[d := k], k) == Members(log, k) + {d}
    ensures forall i | i != k :: Members(log[d := k], i) == Members(log, i)
  {
  }

  lemma CountStep(start: map<Id, Device>, members: set<Id>, k: Device, d: Id, c: Counter)
    requires members <= start.Keys && d in start && HasGreatest(start, members, k, c)
    ensures HasGreatest(start, members + {d}, Promoted(k, start[d]), c)
  {
    PromotedCount(k, start[d], c);
    if Count(k, c) >= Count(start[d], c) {
      var m :| m in members && Count(start[m], c) == Count(k, c);
      assert m in members + {d};
    } else {
      assert d in members + {d};
    }
  }

  lemma TextStep(start: map<Id, Device>, members: set<Id>, own: Device, k: Device, d: Id, f: TextField)
    requires members <= start.Keys && d in start && HasText(start, members, own, k, f)
    ensures HasText(start, members + {d}, own, Promoted(k, start[d]), f)
  {
    PromotedText(k, start[d], f);
    if Text(k, f).Some? {
      var m :| m in members && Text(start[m], f) == Text(k, f);
      assert m in members + {d};
    } else if Text(start[d], f).Some? {
      assert d in members + {d};
    }
  }

  lemma AbsorbedStep(start: map<Id, Device>, log: map<Id, Id>, k: Id, d: Id, now: Device)
    requires ValidLog(start, log) && Mergeable(start, log, k, d) && Absorbed(start, log, k, now)
    ensures ValidLog(start, log[d := k]) && Absorbed(start, log[d := k], k, Promoted(now, start[d]))
  {
    MembersStep(log, k, d);
    forall c ensures HasGreatest(start, Members(log, k) + {d}, Promoted(now, start[d]), c) {
      CountStep(start, Members(log, k), now, d, c);
    }
    forall f ensures HasText(start, Members(log, k) + {d}, start[k], Promoted(now, start[d]), f) {
      TextStep(start, Members(log, k), start[k], now, d, f);
    }
  }

  lemma AbsorbedElsewhere(start: map<Id, Device>, log: map<Id, Id>, k: Id, d: Id, i: Id, now: Device)
    requires ValidLog(start, log) && Mergeable(start, log, k, d) && i != k && i in start && Absorbed(start, log, i, now)
    ensures ValidLog(start, log[d := k]) && Absorbed(start, log[d := k], i, now)
  {
    MembersStep(log, k, d);
  }

  lemma Unmerged(start: map<Id, Device>, log: map<Id, Id>, d: Id, now: Device)
    requires ValidLog(start, log) && d in start && Absorbed(start, log, d, now) && forall x | x in log :: log[x] != d
    ensures now == start[d]
  {
    assert Members(log, d) == {d};
  }

  lemma DevicesStep(start: map<Id, Device>, log: map<Id, Id>, now: map<Id, Device>, k: Id, d: Id)
    requires ValidLog(start, log) && Mergeable(start, log, k, d) && DevicesMerged(start, log, now)
    ensures ValidLog(start, log[d := k])
    ensures DevicesMerged(start, log[d := k], now[k := Promoted(now[k], now[d])][d := Tombstone(k, now[d])])
  {
    hide Absorbed, Promoted;
    var log' := log[d := k];
    var after := now[k := Promoted(now[k], now[d])][d := Tombstone(k, now[d])];
    Unmerged(start, log, d, now[d]);
    AbsorbedStep(start, log, k, d, now[k]);
    forall i | i in start
      ensures if i in log' then after[i] == Tombstone(log'[i], start[i]) else Absorbed(start, log', i, after[i])
    {
      if i !in log' && i != k {
        AbsorbedElsewhere(start, log, k, d, i, now[i]);
      }
    }
  }

  /** Behind every open alert stands one that stays open, itself or an older one. */
  lemma Champion(start: map<Id, Alert>, log: map<Id, Id>, b: Id) returns (c: Id)
    requires b in start && !start[b].resolved
    ensures c in start && !start[c].resolved && start[c].kind == start[b].kind && !Beaten(start, log, c)
    ensures Target(log, start[c].device) == Target(log, start[b].device)
    ensures c == b || Older(start[c].createdAt, c, start[b].createdAt, b)
  {
    var rivals := set x | x in start && !start[x].resolved && start[x].kind == start[b].kind
                       && Target(log, start[x].device) == Target(log, start[b].device);
    assert b in rivals;
    var age := map x | x in start :: start[x].createdAt;
    c := Oldest(age, rivals);
    forall x | x in start && Target(log, start[x].device) == Target(log, start[c].device) ensures !Beats(start, x, c) {
      assert x !in rivals || x == c || Older(age[c], c, age[x], x);
    }
  }

  lemma NotOnTheSameDevice(start: map<Id, Alert>, log: map<Id, Id>, now: map<Id, Alert>, a: Id, c: Id)
    requires AlertsMerged(start, log, now) && a in start && c in start && Beats(start, c, a) && !now[a].resolved
    ensures now[c].device != now[a].device
  {
    assert !Beaten(start, log, a);
  }

  lemma CollidesIffBeaten(start: map<Id, Alert>, log: map<Id, Id>, now: map<Id, Alert>, k: Id, d: Id, a: Id)
    requires AlertsMerged(start, log, now) && k !in log && d !in log && k != d && forall x | x in log :: log[x] != d
    requires a in start && !now[a].resolved
    ensures Collides(now, k, d, a) <==> Beaten(start, log[d := k], a)
  {
    var log' := log[d := k];
    forall x | x in start ensures Target(log', start[x].device)
                               == if now[x].device == d then k else now[x].device {
    }
    if Collides(now, k, d, a) {
      var b :| b in now && (now[b].device == k || now[b].device == d) && Beats(now, b, a);
      assert Beats(start, b, a);
    }
    if Beaten(start, log', a) {
      var b :| b in start && Target(log', start[b].device) == Target(log', start[a].device) && Beats(start, b, a);
      var c := Champion(start, log, b);
      assert Beats(now, c, a);
      assert Beats(start, c, a);
      NotOnTheSameDevice(start, log, now, a, c);
    }
  }

  lemma BeatenStays(start: map<Id, Alert>, log: map<Id, Id>, k: Id, d: Id, a: Id)
    requires a in start && k !in log && d !in log && forall x | x in log :: log[x] != d
    ensures Beaten(start, log, a) ==> Beaten(start, log[d := k], a)
  {
    if Beaten(start, log, a) {
      var b :| b in start && Target(log, start[b].device) == Target(log, start[a].device) && Beats(start, b, a);
      assert Target(log[d := k], start[b].device) == Target(log[d := k], start[a].device);
    }
  }

  lemma AlertStep(start: map<Id, Alert>, log: map<Id, Id>, now: map<Id, Alert>, k: Id, d: Id, a: Id)
    requires AlertsMerged(start, log, now) && k !in log && d !in log && k != d && forall x | x in log :: log[x] != d
    requires a in start
    ensures ResolveColliding(now, k, d)[a] == now[a].(resolved := start[a].resolved || Beaten(start, log[d := k], a))
  {
    if now[a].resolved {
      BeatenStays(start, log, k, d, a);
    } else {
      CollidesIffBeaten(start, log, now, k, d, a);
    }
  }

  lemma AlertMoved(start: map<Id, Alert>, log: map<Id, Id>, now: map<Id, Alert>, k: Id, d: Id, a: Id)
    requires AlertsMerged(start, log, now) && k !in log && d !in log && k != d && forall x | x in log :: log[x] != d
    requires a in start
    ensures RepointAlerts(ResolveColliding(now, k, d), k, d)[a] == MergedAlert(start, log[d := k], a)
  {
    AlertStep(start, log, now, k, d, a);
    assert Target(log[d := k], start[a].device) == if now[a].device == d then k else now[a].device;
  }

  lemma AlertsStep(
    start: map<Id, Alert>, log: map<Id, Id>, now: map<Id, Alert>, k: Id, d: Id, after: map<Id, Alert>)
    requires AlertsMerged(start, log, now) && k !in log && d !in log && k != d && forall x | x in log :: log[x] != d
    requires after == RepointAlerts(ResolveColliding(now, k, d), k, d)
    ensures AlertsMerged(start, log[d := k], after)
  {
    assert after.Keys == start.Keys;
    forall a | a in start ensures after[a] == MergedAlert(start, log[d := k], a) {
      AlertMoved(start, log, now, k, d, a);
    }
  }

  lemma MergeKeeps(start: Tables, log: map<Id, Id>, now: Tables, k: Id, d: Id)
    requires ValidLog(start.devices, log) && Mergeable(start.devices, log, k, d) && Merged(start, log, now)
    ensures k in now.devices && d in now.devices
    ensures ValidLog(start.devices, log[d := k]) && Merged(start, log[d := k], MergeStep(now, k, d))
  {
    DevicesStep(start.devices, log, now.devices, k, d);
    AlertsStep(start.alerts, log, now.alerts, k, d, MergeStep(now, k, d).alerts);
    MovedStep(start.readings, log, now.readings, k, d);
    MovedStep(start.lines, log, now.lines, k, d);
  }

  // ---- the whole migration ----

  /** All pairs of the start, and no other, are in the log. */
  ghost predicate LogIsComplete(devices: map<Id, Device>, log: map<Id, Id>) {
    && (forall d | d in log :: IsPair(devices, log[d], d))
    && (forall k, d | IsPair(devices, k, d) :: d in log)
  }

  lemma SameGroupSameSet(devices: map<Id, Device>, i: Id, j: Id)
    requires i in devices && j in devices && SameGroup(devices[i], devices[j])
    ensures Group(devices, devices[i]) == Group(devices, devices[j])
  {
  }

  /** A survivor of one pair is merged in no other, and a device has one survivor. */
  lemma PairsDoNotChain(devices: map<Id, Device>, k: Id, d: Id, k': Id, d': Id)
    requires IsPair(devices, k, d) && IsPair(devices, k', d')
    ensures k != d'
    ensures d == d' ==> k == k'
  {
    SameGroupSameSet(devices, k, d);
    SameGroupSameSet(devices, k', d');
  }

  /** In a clean group everything but the oldest is merged. */
  lemma CleanGroupHasPair(devices: map<Id, Device>, i: Id, j: Id) returns (k: Id)
    requires i in devices && j in devices && SameGroup(devices[i], devices[j])
    requires Clean(devices, Group(devices, devices[i]))
    ensures (i == k || IsPair(devices, k, i)) && (j == k || IsPair(devices, k, j))
  {
    var group := Group(devices, devices[i]);
    assert i in group;
    k := Oldest(map x | x in devices :: devices[x].createdAt, group);
    SameGroupSameSet(devices, i, j);
  }

  predicate SameIdentity(a: Device, b: Device) {
    a.client == b.client && a.key == b.key && a.merged == b.merged
  }

  /** Who is still there identifies itself as before. */
  lemma SurvivorsKeepIdentity(start: map<Id, Device>, log: map<Id, Id>, now: map<Id, Device>, i: Id)
    requires ValidLog(start, log) && DevicesMerged(start, log, now) && i in start
    ensures if i in log then now[i].merged == Some(log[i]) else SameIdentity(now[i], start[i])
  {
  }

  lemma ConflictBreaksIndex(start: map<Id, Device>, log: map<Id, Id>, now: map<Id, Device>)
    requires ValidLog(start, log) && LogIsComplete(start, log) && DevicesMerged(start, log, now) && HasConflict(start)
    ensures !UniqueIndex(now)
  {
    var i, j :| i in start && j in start && InConflict(start, i, j);
    SameGroupSameSet(start, i, j);
    SurvivorsKeepIdentity(start, log, now, i);
    SurvivorsKeepIdentity(start, log, now, j);
    assert i !in log && j !in log;
    assert SameGroup(now[i], now[j]);
  }

  lemma NoConflictGivesIndex(start: map<Id, Device>, log: map<Id, Id>, now: map<Id, Device>, i: Id, j: Id)
    requires ValidLog(start, log) && LogIsComplete(start, log) && DevicesMerged(start, log, now) && !HasConflict(start)
    requires i in now && j in now && SameGroup(now[i], now[j])
    ensures i == j
  {
    SurvivorsKeepIdentity(start, log, now, i);
    SurvivorsKeepIdentity(start, log, now, j);
    assert SameGroup(start[i], start[j]);
    assert !InConflict(start, i, j);
    if i != j {
      var k := CleanGroupHasPair(start, i, j);
    }
  }

  /** The unique index can be created if and only if there was no conflict. */
  lemma IndexIffNoConflict(start: map<Id, Device>, log: map<Id, Id>, now: map<Id, Device>)
    requires ValidLog(start, log) && LogIsComplete(start, log) && DevicesMerged(start, log, now)
    ensures UniqueIndex(now) <==> !HasConflict(start)
  {
    if HasConflict(start) {
      ConflictBreaksIndex(start, log, now);
    } else {
      forall i, j | i in now && j in now && SameGroup(now[i], now[j]) ensures i == j {
        NoConflictGivesIndex(start, log, now, i, j);
      }
    }
  }

  lemma NothingMerged(start: Tables)
    requires OneOpenPerKind(start.alerts)
    ensures ValidLog(start.devices, map[]) && Merged(start, map[], start)
  {
    var log: map<Id, Id> := map[];
    forall a | a in start.alerts && !start.alerts[a].resolved ensures !Beaten(start.alerts, log, a) {
    }
    forall i | i in start.devices ensures Absorbed(start.devices, log, i, start.devices[i]) {
      assert Members(log, i) == {i};
      forall c ensures HasGreatest(start.devices, {i}, start.devices[i], c) {
        assert i in {i};
      }
      forall f ensures HasText(start.devices, {i}, start.devices[i], start.devices[i], f) {
        assert i in {i};
      }
    }
  }

  lemma PairIsMergeable(devices: map<Id, Device>, log: map<Id, Id>, k: Id, d: Id)
    requires IsPair(devices, k, d) && d !in log && forall x | x in log :: IsPair(devices, log[x], x)
    ensures Mergeable(devices, log, k, d)
  {
    if k in log {
      PairsDoNotChain(devices, k, d, log[k], k);
    }
    forall x | x in log ensures log[x] != d {
      PairsDoNotChain(devices, log[x], x, k, d);
    }
  }

  /** The pairs still to do and those done are all the pairs there are. */
  ghost predicate Agenda(devices: map<Id, Device>, todo: set<(Id, Id)>, log: map<Id, Id>) {
    && (forall p | p in todo :: IsPair(devices, p.0, p.1) && p.1 !in log)
    && (forall d | d in log :: IsPair(devices, log[d], d))
    && (forall k: Id, d: Id | IsPair(devices, k, d) :: d in log || (k, d) in todo)
  }

  lemma AgendaStep(devices: map<Id, Device>, todo: set<(Id, Id)>, log: map<Id, Id>, p: (Id, Id))
    requires Agenda(devices, todo, log) && p in todo
    ensures Agenda(devices, todo - {p}, log[p.1 := p.0]) && Mergeable(devices, log, p.0, p.1)
  {
    PairIsMergeable(devices, log, p.0, p.1);
    forall q | q in todo - {p} ensures q.1 != p.1 {
      PairsDoNotChain(devices, q.0, q.1, p.0, p.1);
    }
    forall k: Id, d: Id | IsPair(devices, k, d) ensures d in log[p.1 := p.0] || (k, d) in todo - {p} {
      assert d in log || (k, d) in todo;
    }
  }

  /** A tombstone points at a live device of the same client and serial. */
  lemma TombstonesPointAtSurvivors(start: map<Id, Device>, log: map<Id, Id>, now: map<Id, Device>, d: Id)
    requires ValidLog(start, log) && LogIsComplete(start, log) && DevicesMerged(start, log, now) && d in log
    ensures now[d].merged == Some(log[d]) && !now[d].active
    ensures now[log[d]].merged == None && SameIdentity(now[log[d]], start[d])
  {
    SurvivorsKeepIdentity(start, log, now, log[d]);
  }

  /** The survivor has the rows of its group and a merged device has none. */
  lemma RowsAreConserved(start: map<Id, Id>, log: map<Id, Id>, now: map<Id, Id>, k: Id)
    requires Moved(start, log, now) && forall d | d in log :: log[d] !in log
    ensures (set r | r in now && now[r] == k)
         == if k in log then {} else set r | r in start && start[r] in Members(log, k)
  {
  }

  predicate HasOpen(alerts: map<Id, Alert>, device: Id, kind: string) {
    exists a | a in alerts :: alerts[a].device == device && alerts[a].kind == kind && !alerts[a].resolved
  }

  /** A survivor has an open alert of a kind exactly when some device of its group had one. */
  lemma NoAlarmIsLost(start: map<Id, Alert>, log: map<Id, Id>, now: map<Id, Alert>, k: Id, kind: string)
    requires AlertsMerged(start, log, now) && k !in log && forall d | d in log :: log[d] !in log
    ensures HasOpen(now, k, kind) <==> exists d | d in Members(log, k) :: HasOpen(start, d, kind)
  {
    if HasOpen(now, k, kind) {
      var a :| a in now && now[a].device == k && now[a].kind == kind && !now[a].resolved;
      assert start[a].device in Members(log, k) && HasOpen(start, start[a].device, kind);
    }
    if exists d | d in Members(log, k) :: HasOpen(start, d, kind) {
      var d :| d in Members(log, k) && HasOpen(start, d, kind);
      var b :| b in start && start[b].device == d && start[b].kind == kind && !start[b].resolved;
      var c := Champion(start, log, b);
      assert now[c].device == k && now[c].kind == kind && !now[c].resolved;
    }
  }

  lemma ConflictsAreUntouched(start: map<Id, Device>, log: map<Id, Id>, now: map<Id, Device>, i: Id)
    requires ValidLog(start, log) && LogIsComplete(start, log) && DevicesMerged(start, log, now)
    requires i in start && Identified(start[i]) && !Clean(start, Group(start, start[i]))
    ensures now[i] == start[i]
  {
    assert i !in log;
    forall d | d in log ensures log[d] != i {
      SameGroupSameSet(start, log[d], d);
    }
    Unmerged(start, log, i, now[i]);
  }

  /** The groups of a conflict are still conflicts afterwards. */
  lemma ConflictsStay(start: map<Id, Device>, log: map<Id, Id>, now: map<Id, Device>, i: Id)
    requires ValidLog(start, log) && LogIsComplete(start, log) && DevicesMerged(start, log, now)
    requires i in start && Identified(start[i]) && !Clean(start, Group(start, start[i]))
    ensures now[i] == start[i] && !Clean(now, Group(now, now[i]))
  {
    var g := Group(start, start[i]);
    ConflictsAreUntouched(start, log, now, i);
    forall j | j in g ensures now[j] == start[j] && j in Group(now, now[i]) {
      SameGroupSameSet(start, i, j);
      ConflictsAreUntouched(start, log, now, j);
    }
    var x, y :| x in g && y in g && !((start[x].mac.Some? && start[y].mac.Some? ==> start[x].mac == start[y].mac)
                                      && start[x].modelKey == start[y].modelKey);
    assert x in Group(now, now[i]) && y in Group(now, now[i]);
  }

  /** A second run finds nothing to merge. */
  lemma SecondRunMergesNothing(start: map<Id, Device>, log: map<Id, Id>, now: map<Id, Device>, k: Id, d: Id)
    requires ValidLog(start, log) && LogIsComplete(start, log) && DevicesMerged(start, log, now)
    ensures !IsPair(now, k, d)
  {
    if k in now && d in now && k != d && SameGroup(now[k], now[d]) {
      SurvivorsKeepIdentity(start, log, now, k);
      SurvivorsKeepIdentity(start, log, now, d);
      assert SameGroup(start[d], start[k]);
      if Clean(start, Group(start, start[d])) {
        var s := CleanGroupHasPair(start, d, k);
        assert false;
      } else {
        ConflictsStay(start, log, now, d);
      }
    }
  }

  lemma SecondBackfillFillsNothing(
    devices: map<Id, Device>, agents: map<Id, Option<Id>>, log: map<Id, Id>, now: map<Id, Device>)
    requires ValidLog(Backfilled(devices, agents), log) && DevicesMerged(Backfilled(devices, agents), log, now)
    ensures Backfilled(now, agents) == now
  {
    var start := Backfilled(devices, agents);
    forall i | i in now ensures now[i].client == start[i].client && now[i].agent == start[i].agent {
    }
  }

  // ---- the same on the columns themselves ----

  /** The devices that share a client and an identifying serial with `d`, `d` itself among them. */
  function SameSerial(devices: map<Id, Device>, d: Id): set<Id>
    requires d in devices
  {
    set x | x in devices && devices[x].merged == None && devices[d].merged == None
            && devices[x].client.Some? && devices[x].client == devices[d].client
            && devices[x].key.Some? && devices[x].key == devices[d].key
  }

  function Macs(devices: map<Id, Device>, ids: set<Id>): set<string>
    requires ids <= devices.Keys
  {
    set x | x in ids && devices[x].mac.Some? :: devices[x].mac.value
  }

  function Models(devices: map<Id, Device>, ids: set<Id>): set<string>
    requires ids <= devices.Keys
  {
    set x | x in ids :: devices[x].modelKey
  }

  /** A device goes into the one of its serial that was created first, or of those the one with the smallest id. */
  ghost predicate OldestSurvives(devices: map<Id, Device>, log: map<Id, Id>) {
    forall d | d in log ::
      && d in devices && log[d] in SameSerial(devices, d) && d in SameSerial(devices, d) && log[d] != d
      && forall x | x in SameSerial(devices, d) && x != log[d] ::
           devices[log[d]].createdAt < devices[x].createdAt
           || (devices[log[d]].createdAt == devices[x].createdAt && log[d] < x)
  }

  /** Of two devices with one serial one is merged exactly if the group knows at most one MAC and one model. */
  ghost predicate MergedIfAlike(devices: map<Id, Device>, log: map<Id, Id>) {
    forall d, x | d in devices && x in SameSerial(devices, d) && x != d ::
      (d in log || x in log)
      <==> |Macs(devices, SameSerial(devices, d))| <= 1 && |Models(devices, SameSerial(devices, d))| <= 1
  }

  /** An open alert is closed exactly if its device's group has an open one of its kind that is older, or as old with a smaller id. */
  ghost predicate OldestAlertStays(start: map<Id, Alert>, log: map<Id, Id>, now: map<Id, Alert>) {
    && now.Keys == start.Keys
    && forall a | a in start ::
         && now[a].kind == start[a].kind && now[a].createdAt == start[a].createdAt
         && now[a].device == (if start[a].device in log then log[start[a].device] else start[a].device)
         && (now[a].resolved <==>
               || start[a].resolved
               || exists b | b in start ::
                    && now[b].device == now[a].device && start[b].kind == start[a].kind && !start[b].resolved
                    && (start[b].createdAt < start[a].createdAt || (start[b].createdAt == start[a].createdAt && b < a)))
  }

  /** `n` is the greatest of the members' values, a missing one counting as 0. */
  ghost predicate IsGreatest(n: Option<nat>, devices: map<Id, Device>, members: set<Id>, column: Device -> Option<nat>) {
    && n.Some?
    && (forall m | m in members && m in devices && column(devices[m]).Some? :: column(devices[m]).value <= n.value)
    && (n.value == 0 || exists m | m in members && m in devices :: column(devices[m]) == n)
  }

  /** The survivor's own text stays; a missing one comes from some member that has it. */
  ghost predicate IsFilled(t: Option<string>, own: Option<string>, devices: map<Id, Device>, members: set<Id>, column: Device -> Option<string>) {
    && (own.Some? ==> t == own)
    && (t.Some? ==> exists m | m in members && m in devices :: column(devices[m]) == t)
    && (t.None? ==> forall m | m in members && m in devices :: column(devices[m]).None?)
  }

  ghost predicate CountersGrow(devices: map<Id, Device>, group: set<Id>, grown: Device) {
    && IsGreatest(grown.total, devices, group, (x: Device) => x.total)
    && IsGreatest(grown.mono, devices, group, (x: Device) => x.mono)
    && IsGreatest(grown.color, devices, group, (x: Device) => x.color)
    && IsGreatest(grown.lastSeen, devices, group, (x: Device) => x.lastSeen)
  }

  ghost predicate TextsFill(devices: map<Id, Device>, group: set<Id>, own: Device, grown: Device) {
    && IsFilled(grown.mac, own.mac, devices, group, (x: Device) => x.mac)
    && IsFilled(grown.hostname, own.hostname, devices, group, (x: Device) => x.hostname)
    && IsFilled(grown.location, own.location, devices, group, (x: Device) => x.location)
    && IsFilled(grown.firmware, own.firmware, devices, group, (x: Device) => x.firmware)
    && IsFilled(grown.sku, own.sku, devices, group, (x: Device) => x.sku)
  }

  ghost predicate SurvivorsGrow(devices: map<Id, Device>, log: map<Id, Id>, now: map<Id, Device>) {
    && now.Keys == devices.Keys
    && forall k | k in devices && k !in log ::
         var group := {k} + set d | d in log && log[d] == k;
         if group == {k} then now[k] == devices[k]
         else CountersGrow(devices, group, now[k]) && TextsFill(devices, group, devices[k], now[k])
  }

  lemma GroupIsSameSerial(devices: map<Id, Device>, d: Id)
    requires d in devices
    ensures Group(devices, devices[d]) == SameSerial(devices, d)
  {
  }

  lemma OldestOfPair(devices: map<Id, Device>, log: map<Id, Id>)
    requires LogIsComplete(devices, log)
    ensures OldestSurvives(devices, log)
  {
    forall d | d in log
      ensures d in devices && log[d] in SameSerial(devices, d) && d in SameSerial(devices, d) && log[d] != d
      ensures forall x | x in SameSerial(devices, d) && x != log[d] ::
                devices[log[d]].createdAt < devices[x].createdAt
                || (devices[log[d]].createdAt == devices[x].createdAt && log[d] < x)
    {
      assert IsPair(devices, log[d], d);
      GroupIsSameSerial(devices, d);
    }
  }

  lemma {:induction false} OneAtMost<T>(s: set<T>)
    ensures |s| <= 1 <==> forall x, y | x in s && y in s :: x == y
  {
    if s != {} {
      var x :| x in s;
      if forall a, b | a in s && b in s :: a == b {
        assert s == {x};
      } else {
        var y :| y in s && y != x;
        assert {x, y} <= s;
        Fewer({x, y}, s);
      }
      if |s| <= 1 {
        forall a, b | a in s && b in s ensures a == b {
          Fewer({a, b}, s);
        }
      }
    }
  }

  lemma Fewer<T>(s: set<T>, t: set<T>)
    requires s <= t
    ensures |s| <= |t|
  {
    assert t == s + (t - s);
  }

  lemma CleanIsAlike(devices: map<Id, Device>, ids: set<Id>)
    requires ids <= devices.Keys
    ensures Clean(devices, ids) <==> |Macs(devices, ids)| <= 1 && |Models(devices, ids)| <= 1
  {
    OneAtMost(Macs(devices, ids));
    OneAtMost(Models(devices, ids));
    if Clean(devices, ids) {
    } else {
      var i, j :| i in ids && j in ids && !((devices[i].mac.Some? && devices[j].mac.Some? ==> devices[i].mac == devices[j].mac)
                                            && devices[i].modelKey == devices[j].modelKey);
      assert devices[i].mac.Some? ==> devices[i].mac.value in Macs(devices, ids);
      assert devices[j].mac.Some? ==> devices[j].mac.value in Macs(devices, ids);
      assert devices[i].modelKey in Models(devices, ids) && devices[j].modelKey in Models(devices, ids);
    }
  }

  lemma PairIfAlike(devices: map<Id, Device>, log: map<Id, Id>, d: Id, x: Id)
    requires LogIsComplete(devices, log) && d in devices && x in SameSerial(devices, d) && x != d
    ensures (d in log || x in log) <==> Clean(devices, SameSerial(devices, d))
  {
    assert SameGroup(devices[d], devices[x]);
    SameGroupSameSet(devices, d, x);
    GroupIsSameSerial(devices, d);
    GroupIsSameSerial(devices, x);
    if d in log {
      assert IsPair(devices, log[d], d);
    }
    if x in log {
      assert IsPair(devices, log[x], x);
    }
    if Clean(devices, SameSerial(devices, d)) {
      var k := CleanGroupHasPair(devices, d, x);
    }
  }

  lemma AlikeAreMerged(devices: map<Id, Device>, log: map<Id, Id>)
    requires LogIsComplete(devices, log)
    ensures MergedIfAlike(devices, log)
  {
    hide LogIsComplete, Clean;
    forall d, x | d in devices && x in SameSerial(devices, d) && x != d
      ensures (d in log || x in log)
         <==> |Macs(devices, SameSerial(devices, d))| <= 1 && |Models(devices, SameSerial(devices, d))| <= 1
    {
      PairIfAlike(devices, log, d, x);
      CleanIsAlike(devices, SameSerial(devices, d));
    }
  }

  lemma AlertsByColumns(start: map<Id, Alert>, log: map<Id, Id>, now: map<Id, Alert>)
    requires AlertsMerged(start, log, now)
    ensures OldestAlertStays(start, log, now)
  {
    forall a | a in start
      ensures now[a].resolved <==>
                || start[a].resolved
                || exists b | b in start ::
                     && now[b].device == now[a].device && start[b].kind == start[a].kind && !start[b].resolved
                     && (start[b].createdAt < start[a].createdAt || (start[b].createdAt == start[a].createdAt && b < a))
    {
      if Beaten(start, log, a) {
        var b :| b in start && Target(log, start[b].device) == Target(log, start[a].device) && Beats(start, b, a);
        assert now[b].device == now[a].device;
      }
      if b :| b in start && now[b].device == now[a].device && start[b].kind == start[a].kind && !start[b].resolved
              && (start[b].createdAt < start[a].createdAt || (start[b].createdAt == start[a].createdAt && b < a)) {
        assert Beats(start, b, a) && Target(log, start[b].device) == Target(log, start[a].device);
      }
    }
  }

  lemma GreatestByColumn(devices: map<Id, Device>, members: set<Id>, k: Device, c: Counter, n: Option<nat>, column: Device -> Option<nat>)
    requires members <= devices.Keys && HasGreatest(devices, members, k, c) && n.Some? && n.value == Count(k, c)
    requires forall d: Device :: Count(d, c) == if column(d).Some? then column(d).value else 0
    ensures IsGreatest(n, devices, members, column)
  {
    forall m | m in members && m in devices && column(devices[m]).Some? ensures column(devices[m]).value <= n.value {
      assert Count(devices[m], c) <= Count(k, c);
    }
    var m :| m in members && Count(devices[m], c) == Count(k, c);
    assert n.value != 0 ==> column(devices[m]) == n;
  }

  lemma FilledByColumn(devices: map<Id, Device>, members: set<Id>, own: Device, k: Device, f: TextField, column: Device -> Option<string>)
    requires members <= devices.Keys && HasText(devices, members, own, k, f)
    requires forall d: Device :: Text(d, f) == column(d)
    ensures IsFilled(column(k), column(own), devices, members, column)
  {
    if column(k).Some? {
      var m :| m in members && Text(devices[m], f) == Text(k, f);
      assert column(devices[m]) == column(k);
    }
  }

  lemma MembersExist(devices: map<Id, Device>, log: map<Id, Id>, k: Id)
    requires ValidLog(devices, log) && k in devices
    ensures Members(log, k) <= devices.Keys
  {
  }

  lemma CountersByColumns(devices: map<Id, Device>, log: map<Id, Id>, k: Id, now: Device)
    requires ValidLog(devices, log) && k in devices && Absorbed(devices, log, k, now) && Members(log, k) != {k}
    ensures CountersGrow(devices, Members(log, k), now)
  {
    var group := Members(log, k);
    MembersExist(devices, log, k);
    hide HasGreatest, HasText, IsGreatest, Members;
    GreatestByColumn(devices, group, now, Total, now.total, (x: Device) => x.total);
    GreatestByColumn(devices, group, now, Mono, now.mono, (x: Device) => x.mono);
    GreatestByColumn(devices, group, now, Color, now.color, (x: Device) => x.color);
    GreatestByColumn(devices, group, now, LastSeen, now.lastSeen, (x: Device) => x.lastSeen);
  }

  lemma TextsByColumns(devices: map<Id, Device>, log: map<Id, Id>, k: Id, now: Device)
    requires ValidLog(devices, log) && k in devices && Absorbed(devices, log, k, now)
    ensures TextsFill(devices, Members(log, k), devices[k], now)
  {
    var group, own := Members(log, k), devices[k];
    MembersExist(devices, log, k);
    hide HasGreatest, HasText, IsFilled, Members;
    FilledByColumn(devices, group, own, now, Mac, (x: Device) => x.mac);
    FilledByColumn(devices, group, own, now, Hostname, (x: Device) => x.hostname);
    FilledByColumn(devices, group, own, now, Location, (x: Device) => x.location);
    FilledByColumn(devices, group, own, now, Firmware, (x: Device) => x.firmware);
    FilledByColumn(devices, group, own, now, Sku, (x: Device) => x.sku);
  }

  lemma GrowthByColumns(devices: map<Id, Device>, log: map<Id, Id>, now: map<Id, Device>)
    requires ValidLog(devices, log) && DevicesMerged(devices, log, now)
    ensures SurvivorsGrow(devices, log, now)
  {
    hide CountersGrow, TextsFill, HasGreatest, HasText;
    forall k | k in devices && k !in log && Members(log, k) != {k}
      ensures CountersGrow(devices, Members(log, k), now[k]) && TextsFill(devices, Members(log, k), devices[k], now[k])
    {
      CountersByColumns(devices, log, k, now[k]);
      TextsByColumns(devices, log, k, now[k]);
    }
  }

  /** The migration gives a device the client of its agent if it had none, and changes no other. */
  lemma ClientsByColumns(
    devices: map<Id, Device>, agents: map<Id, Option<Id>>, log: map<Id, Id>, now: map<Id, Device>)
    requires ValidLog(Backfilled(devices, agents), log) && DevicesMerged(Backfilled(devices, agents), log, now)
    ensures now.Keys == devices.Keys && forall i | i in now ::
      now[i].client == (if devices[i].client.Some? then devices[i].client
                        else if devices[i].agent in agents then agents[devices[i].agent] else None)
  {
    hide HasGreatest, HasText;
    var start := Backfilled(devices, agents);
    forall i | i in now ensures now[i].client == start[i].client {
    }
  }

  /** What the merges come to, told from the columns they started from. */
  ghost predicate ByColumns(start: Tables, log: map<Id, Id>, now: Tables) {
    && OldestSurvives(start.devices, log) && MergedIfAlike(start.devices, log)
    && OldestAlertStays(start.alerts, log, now.alerts) && SurvivorsGrow(start.devices, log, now.devices)
  }

  lemma MergesByColumns(start: Tables, log: map<Id, Id>, now: Tables)
    requires ValidLog(start.devices, log) && LogIsComplete(start.devices, log) && Merged(start, log, now)
    ensures ByColumns(start, log, now)
  {
    hide LogIsComplete, DevicesMerged, AlertsMerged, OldestSurvives, MergedIfAlike, OldestAlertStays, SurvivorsGrow;
    OldestOfPair(start.devices, log);
    AlikeAreMerged(start.devices, log);
    AlertsByColumns(start.alerts, log, now.alerts);
    GrowthByColumns(start.devices, log, now.devices);
  }

  class Migration {
    const agents: map<Id, Option<Id>>
    var devices: map<Id, Device>
    var alerts: map<Id, Alert>
    var readings: map<Id, Id>
    var lines: map<Id, Id>

    function View(): Tables
      reads this
    {
      Tables(devices, alerts, readings, lines)
    }

    /** The statements of one merge in their order; the index on open alerts holds between any two. */
    method MergeOne(k: Id, d: Id)
      requires k in devices && d in devices && k != d && OneOpenPerKind(alerts)
      modifies this
      ensures View() == old(MergeStep(View(), k, d)) && OneOpenPerKind(alerts)
    {
      AlertIndexHolds(alerts, k, d);
      devices := devices[k := Promoted(devices[k], devices[d])];
      alerts := ResolveColliding(alerts, k, d);
      assert OneOpenPerKind(alerts);
      alerts := RepointAlerts(alerts, k, d);
      assert OneOpenPerKind(alerts);
      lines := Repoint(lines, k, d);
      readings := Repoint(readings, k, d);
      devices := devices[d := Tombstone(k, devices[d])];
    }

    /** `log` is what the audit log gets; the order of the pairs is open. */
    method MergeAll() returns (log: map<Id, Id>)
      requires OneOpenPerKind(alerts)
      modifies this
      ensures ValidLog(old(devices), log) && LogIsComplete(old(devices), log)
      ensures Merged(old(View()), log, View()) && OneOpenPerKind(alerts)
      ensures ByColumns(old(View()), log, View())
    {
      hide OneOpenPerKind, Merged, ByColumns, MergeStep, ValidLog;
      ghost var start := View();
      var todo := set k, d | k in devices && d in devices && IsPair(devices, k, d) :: (k, d);
      log := map[];
      NothingMerged(start);
      while todo != {}
        invariant Agenda(start.devices, todo, log)
        invariant ValidLog(start.devices, log) && Merged(start, log, View()) && OneOpenPerKind(alerts)
      {
        var p :| p in todo;
        AgendaStep(start.devices, todo, log, p);
        MergeKeeps(start, log, View(), p.0, p.1);
        MergeOne(p.0, p.1);
        todo, log := todo - {p}, log[p.1 := p.0];
      }
      MergesByColumns(start, log, View());
    }

    /** The whole migration: `indexed` says whether the unique index is created. */
    method Up() returns (log: map<Id, Id>, indexed: bool)
      requires OneOpenPerKind(alerts)
      modifies this
      ensures var start := Backfilled(old(devices), agents);
        && ValidLog(start, log) && LogIsComplete(start, log)
        && Merged(old(View()).(devices := start), log, View())
        && ByColumns(old(View()).(devices := start), log, View())
      ensures devices.Keys == old(devices.Keys) && forall i | i in devices ::
        devices[i].client == (if old(devices)[i].client.Some? then old(devices)[i].client
                              else if old(devices)[i].agent in agents then agents[old(devices)[i].agent] else None)
      ensures indexed <==> UniqueIndex(devices)
      ensures OneOpenPerKind(alerts)
    {
      hide ByColumns, LogIsComplete, DevicesMerged, AlertsMerged, Moved, Backfilled, OneOpenPerKind, ValidLog;
      devices := Backfilled(devices, agents);
      indexed := !HasConflict(devices);
      ghost var start := devices;
      log := MergeAll();
      IndexIffNoConflict(start, log, devices);
      ClientsByColumns(old(devices), agents, log, devices);
    }
  }
}
