/**
 * Dropping repeated readings before they are queued (agent/src/sync/database.ts,
 * agent/src/core/ScanService.ts).
 *
 * A reading is compared with the last one that was enqueued through a snapshot key; it is enqueued when
 * the key changed or the window has passed since. Times are milliseconds, but the time of the last
 * send is kept by the database in whole seconds.
 */
module ReadingDedupe {
  import opened Wrappers

  const DEDUPE_WINDOW_MS := 4 * 60 * 60 * 1000

  datatype Alert = Alert(code: string, description: string, severity: string)

  datatype Reading = Reading(
    totalPages: Option<int>, monoPages: Option<int>, colorPages: Option<int>,
    tonerBlack: Option<int>, tonerCyan: Option<int>, tonerMagenta: Option<int>, tonerYellow: Option<int>,
    alerts: seq<Alert>)

  /** The compared fields; their JSON text is one to one with them. */
  datatype Key = Key(
    totalPages: Option<int>, monoPages: Option<int>, colorPages: Option<int>,
    tonerBlack: Option<int>, tonerCyan: Option<int>, tonerMagenta: Option<int>, tonerYellow: Option<int>,
    alerts: string)

  // ---- the snapshot key ----

  function AlertText(a: Alert): string {
    a.code + "|" + a.description + "|" + a.severity
  }

  function Texts(alerts: seq<Alert>): seq<string> {
    if alerts == [] then [] else [AlertText(alerts[0])] + Texts(alerts[1..])
  }

  /** Character by character, a prefix first. */
  predicate AtMost(s: string, t: string) {
    s == [] || (t != [] && (s[0] < t[0] || (s[0] == t[0] && AtMost(s[1..], t[1..]))))
  }

  function Place(s: string, sorted: seq<string>): seq<string> {
    if sorted == [] then [s]
    else if AtMost(s, sorted[0]) then [s] + sorted
    else [sorted[0]] + Place(s, sorted[1..])
  }

  function Sort(texts: seq<string>): seq<string> {
    if texts == [] then [] else Place(texts[0], Sort(texts[1..]))
  }

  function Join(texts: seq<string>): string {
    if texts == [] then ""
    else if |texts| == 1 then texts[0]
    else texts[0] + ";" + Join(texts[1..])
  }

  function AlertsKey(alerts: seq<Alert>): string {
    Join(Sort(Texts(alerts)))
  }

  function SnapshotKey(r: Reading): Key {
    Key(r.totalPages, r.monoPages, r.colorPages, r.tonerBlack, r.tonerCyan, r.tonerMagenta, r.tonerYellow,
        AlertsKey(r.alerts))
  }

  // ---- order of alerts does not matter ----

  ghost predicate Sorted(texts: seq<string>) {
    forall i, j | 0 <= i < j < |texts| :: AtMost(texts[i], texts[j])
  }

  lemma {:induction false} AtMostIsTotal(s: string, t: string)
    ensures AtMost(s, t) || AtMost(t, s)
    ensures AtMost(s, t) && AtMost(t, s) ==> s == t
    decreases |s|
  {
    if s != [] && t != [] {
      AtMostIsTotal(s[1..], t[1..]);
      assert s == [s[0]] + s[1..] && t == [t[0]] + t[1..];
    }
  }

  lemma {:induction false} AtMostIsTransitive(s: string, t: string, u: string)
    requires AtMost(s, t) && AtMost(t, u)
    ensures AtMost(s, u)
    decreases |s|
  {
    if s != [] && s[0] == t[0] == u[0] {
      AtMostIsTransitive(s[1..], t[1..], u[1..]);
    }
  }

  lemma {:induction false} PlacePermutes(s: string, sorted: seq<string>)
    ensures multiset(Place(s, sorted)) == multiset(sorted) + multiset{s}
    decreases |sorted|
  {
    if sorted != [] {
      PlacePermutes(s, sorted[1..]);
      assert sorted == [sorted[0]] + sorted[1..];
    }
  }

  ghost predicate Below(x: string, texts: seq<string>) {
    forall j | 0 <= j < |texts| :: AtMost(x, texts[j])
  }

  lemma {:induction false} PlaceStaysAbove(x: string, s: string, texts: seq<string>)
    requires AtMost(x, s) && Below(x, texts)
    ensures Below(x, Place(s, texts))
    decreases |texts|
  {
    hide AtMost;
    if texts != [] {
      PlaceStaysAbove(x, s, texts[1..]);
    }
  }

  lemma SortedInFront(x: string, texts: seq<string>)
    requires Sorted(texts) && Below(x, texts)
    ensures Sorted([x] + texts)
  {
    hide AtMost;
  }

  lemma {:induction false} PlaceSorts(s: string, sorted: seq<string>)
    requires Sorted(sorted)
    ensures Sorted(Place(s, sorted)) && multiset(Place(s, sorted)) == multiset(sorted) + multiset{s}
    decreases |sorted|
  {
    hide AtMost;
    PlacePermutes(s, sorted);
    if sorted != [] {
      AtMostIsTotal(s, sorted[0]);
      if AtMost(s, sorted[0]) {
        forall j | 0 <= j < |sorted| ensures AtMost(s, sorted[j]) {
          if j > 0 { AtMostIsTransitive(s, sorted[0], sorted[j]); }
        }
        SortedInFront(s, sorted);
      } else {
        PlaceSorts(s, sorted[1..]);
        PlaceStaysAbove(sorted[0], s, sorted[1..]);
        SortedInFront(sorted[0], Place(s, sorted[1..]));
      }
    }
  }

  lemma {:induction false} SortSorts(texts: seq<string>)
    ensures Sorted(Sort(texts)) && multiset(Sort(texts)) == multiset(texts)
    decreases |texts|
  {
    hide AtMost;
    if texts != [] {
      SortSorts(texts[1..]);
      PlaceSorts(texts[0], Sort(texts[1..]));
      assert texts == [texts[0]] + texts[1..];
    }
  }

  lemma SameFirst(s: seq<string>, t: seq<string>)
    requires Sorted(s) && Sorted(t) && multiset(s) == multiset(t)
    ensures s == [] <==> t == []
    ensures s != [] ==> s[0] == t[0]
  {
    hide AtMost;
    assert |multiset(s)| == |multiset(t)|;
    if s != [] {
      assert s[0] in multiset(t) && t[0] in multiset(s);
      AtMostIsTotal(s[0], t[0]);
      FirstIsLeast(s, t[0]);
      FirstIsLeast(t, s[0]);
    }
  }

  lemma {:induction false} SortedIsUnique(s: seq<string>, t: seq<string>)
    requires Sorted(s) && Sorted(t) && multiset(s) == multiset(t)
    ensures s == t
    decreases |s|
  {
    hide AtMost;
    SameFirst(s, t);
    if s != [] {
      FirstAndRest(s);
      FirstAndRest(t);
      Cancel(multiset(s[1..]), multiset(t[1..]), s[0]);
      SortedIsUnique(s[1..], t[1..]);
      assert s == [s[0]] + s[1..] && t == [t[0]] + t[1..];
    }
  }

  lemma FirstIsLeast(s: seq<string>, x: string)
    requires Sorted(s) && x in s
    ensures AtMost(s[0], x)
  {
    AtMostIsTotal(x, x);
  }

  /** Texts of the same alerts in another order are the same texts. */
  lemma {:induction false} TextsOfPermutation(a: seq<Alert>, b: seq<Alert>)
    requires multiset(a) == multiset(b)
    ensures multiset(Texts(a)) == multiset(Texts(b))
    decreases |a|
  {
    hide AlertText;
    if a == [] {
      assert |multiset(b)| == 0;
    } else {
      var tail := a[1..];
      FirstAndRest(a);
      assert a[0] in multiset(b);
      var k :| 0 <= k < |b| && b[k] == a[0];
      var front, back := b[..k], b[k + 1..];
      AllButOne(b, k);
      Cancel(multiset(tail), multiset(front + back), a[0]);
      TextsOfPermutation(tail, front + back);
      TextsOfSplit(front, b[k], back);
    }
  }

  lemma Cancel<T>(a: multiset<T>, b: multiset<T>, x: T)
    requires a + multiset{x} == b + multiset{x}
    ensures a == b
  {
    assert a == (a + multiset{x}) - multiset{x};
    assert b == (b + multiset{x}) - multiset{x};
  }

  lemma FirstAndRest<T>(a: seq<T>)
    requires a != []
    ensures multiset(a) == multiset(a[1..]) + multiset{a[0]}
  {
    assert a == [a[0]] + a[1..];
  }

  lemma AllButOne<T>(b: seq<T>, k: nat)
    requires k < |b|
    ensures b == b[..k] + ([b[k]] + b[k + 1..])
    ensures multiset(b) == multiset(b[..k] + b[k + 1..]) + multiset{b[k]}
  {
    assert b == b[..k] + ([b[k]] + b[k + 1..]);
  }

  lemma {:induction false} TextsOfSplit(front: seq<Alert>, a: Alert, back: seq<Alert>)
    ensures multiset(Texts(front + ([a] + back))) == multiset(Texts(front + back)) + multiset{AlertText(a)}
    decreases |front|
  {
    if front == [] {
      assert front + ([a] + back) == [a] + back && front + back == back;
      assert ([a] + back)[1..] == back;
    } else {
      TextsOfSplit(front[1..], a, back);
      assert (front + ([a] + back))[1..] == front[1..] + ([a] + back);
      assert (front + back)[1..] == front[1..] + back;
    }
  }

  /** The key of a reading does not depend on the order in which the device lists its alerts. */
  lemma KeyIgnoresAlertOrder(r: Reading, alerts: seq<Alert>)
    requires multiset(alerts) == multiset(r.alerts)
    ensures SnapshotKey(r.(alerts := alerts)) == SnapshotKey(r)
  {
    TextsOfPermutation(alerts, r.alerts);
    SortSorts(Texts(alerts));
    SortSorts(Texts(r.alerts));
    SortedIsUnique(Sort(Texts(alerts)), Sort(Texts(r.alerts)));
  }

  // ---- and, away from the separators, the key forgets nothing else about them ----

  /** No '|' in any text; a severity, one word in every driver, has no ';' either. */
  predicate PlainAlert(a: Alert) {
    '|' !in a.code && '|' !in a.description && '|' !in a.severity && ';' !in a.severity
  }

  ghost predicate PlainText(text: string) {
    exists a :: PlainAlert(a) && AlertText(a) == text
  }

  lemma FirstSeparator(a: string, c: char, x: string)
    requires c !in a
    ensures var s := a + [c] + x;
            s[|a|] == c && (forall i | 0 <= i < |a| :: s[i] != c) && s[..|a|] == a && s[|a| + 1..] == x
  {
  }

  /** Cutting at the first separator is unambiguous. */
  lemma CutIsUnique(a: string, b: string, c: char, x: string, y: string)
    requires c !in a && c !in b && a + [c] + x == b + [c] + y
    ensures a == b && x == y
  {
    FirstSeparator(a, c, x);
    FirstSeparator(b, c, y);
    assert |a| == |b|;
  }

  lemma TextIsInjective(a: Alert, b: Alert)
    requires PlainAlert(a) && PlainAlert(b) && AlertText(a) == AlertText(b)
    ensures a == b
  {
    assert AlertText(a) == a.code + "|" + (a.description + "|" + a.severity);
    assert AlertText(b) == b.code + "|" + (b.description + "|" + b.severity);
    CutIsUnique(a.code, b.code, '|', a.description + "|" + a.severity, b.description + "|" + b.severity);
    CutIsUnique(a.description, b.description, '|', a.severity, b.severity);
  }

  /** What of an alert's text stands behind its description, and everything behind that. */
  function Behind(a: Alert, rest: seq<string>): string {
    if rest == [] then a.severity else a.severity + ";" + Join(rest)
  }

  lemma JoinSplits(a: Alert, rest: seq<string>)
    ensures Join([AlertText(a)] + rest) == a.code + ['|'] + (a.description + ['|'] + Behind(a, rest))
  {
    var texts := [AlertText(a)] + rest;
    assert texts[1..] == rest;
  }

  /** The first alert and what is joined behind it can be read off. */
  lemma FirstIsReadOff(a: Alert, rest: seq<string>, b: Alert, rest': seq<string>)
    requires PlainAlert(a) && PlainAlert(b)
    requires Join([AlertText(a)] + rest) == Join([AlertText(b)] + rest')
    ensures a == b && Join(rest) == Join(rest') && (rest == [] <==> rest' == [])
  {
    hide Join, AlertText;
    JoinSplits(a, rest);
    JoinSplits(b, rest');
    CutIsUnique(a.code, b.code, '|', a.description + ['|'] + Behind(a, rest), b.description + ['|'] + Behind(b, rest'));
    CutIsUnique(a.description, b.description, '|', Behind(a, rest), Behind(b, rest'));
    SeverityEnds(a, rest);
    SeverityEnds(b, rest');
    if rest != [] && rest' != [] {
      CutIsUnique(a.severity, b.severity, ';', Join(rest), Join(rest'));
    } else {
      assert Join([]) == "" by { JoinOfNone(); }
    }
  }

  lemma JoinOfNone()
    ensures Join([]) == ""
  {
  }

  lemma SeverityEnds(a: Alert, rest: seq<string>)
    requires PlainAlert(a)
    ensures ';' in Behind(a, rest) <==> rest != []
    ensures rest != [] ==> Behind(a, rest) == a.severity + [';'] + Join(rest)
  {
    if rest != [] {
      assert Behind(a, rest)[|a.severity|] == ';';
    }
  }

  lemma JoinOfSome(texts: seq<string>)
    requires texts != [] && PlainText(texts[0])
    ensures Join(texts) != ""
  {
    var a :| PlainAlert(a) && AlertText(a) == texts[0];
    assert texts == [AlertText(a)] + texts[1..];
    JoinSplits(a, texts[1..]);
  }

  lemma {:induction false} JoinIsInjective(s: seq<string>, t: seq<string>)
    requires forall i | 0 <= i < |s| :: PlainText(s[i])
    requires forall i | 0 <= i < |t| :: PlainText(t[i])
    requires Join(s) == Join(t)
    ensures s == t
    decreases |s|
  {
    hide Join, PlainAlert, AlertText;
    JoinOfNone();
    if s == [] || t == [] {
      if s != [] { JoinOfSome(s); }
      if t != [] { JoinOfSome(t); }
    } else {
      var a :| PlainAlert(a) && AlertText(a) == s[0];
      var b :| PlainAlert(b) && AlertText(b) == t[0];
      assert s == [AlertText(a)] + s[1..] && t == [AlertText(b)] + t[1..];
      FirstIsReadOff(a, s[1..], b, t[1..]);
      JoinIsInjective(s[1..], t[1..]);
    }
  }

  lemma {:induction false} TextsArePlain(alerts: seq<Alert>)
    requires forall i | 0 <= i < |alerts| :: PlainAlert(alerts[i])
    ensures forall i | 0 <= i < |Texts(alerts)| :: PlainText(Texts(alerts)[i])
    decreases |alerts|
  {
    hide PlainAlert, AlertText;
    if alerts != [] {
      TextsArePlain(alerts[1..]);
      assert PlainAlert(alerts[0]);
    }
  }

  lemma FirstTextIsThere(a: seq<Alert>, b: seq<Alert>)
    requires multiset(Texts(a)) == multiset(Texts(b))
    ensures a == [] ==> b == []
    ensures a != [] ==> AlertText(a[0]) in Texts(b)
  {
    if a == [] {
      assert |multiset(Texts(b))| == 0;
    } else {
      assert Texts(a)[0] in multiset(Texts(b));
    }
  }

  lemma {:induction false} TextsDetermineAlerts(a: seq<Alert>, b: seq<Alert>)
    requires forall i | 0 <= i < |a| :: PlainAlert(a[i])
    requires forall i | 0 <= i < |b| :: PlainAlert(b[i])
    requires multiset(Texts(a)) == multiset(Texts(b))
    ensures multiset(a) == multiset(b)
    decreases |a|
  {
    hide AlertText, PlainAlert, Texts;
    FirstTextIsThere(a, b);
    if a != [] {
      var k := AlertWithText(b, AlertText(a[0]));
      TextIsInjective(a[0], b[k]);
      DropText(a, b, k);
      AllButOne(b, k);
      FirstAndRest(a);
      TextsDetermineAlerts(a[1..], b[..k] + b[k + 1..]);
    }
  }

  lemma DropText(a: seq<Alert>, b: seq<Alert>, k: nat)
    requires a != [] && k < |b| && AlertText(b[k]) == AlertText(a[0])
    requires multiset(Texts(a)) == multiset(Texts(b))
    ensures multiset(Texts(a[1..])) == multiset(Texts(b[..k] + b[k + 1..]))
  {
    AllButOne(b, k);
    TextsOfSplit(b[..k], b[k], b[k + 1..]);
    assert Texts(a)[1..] == Texts(a[1..]);
    FirstAndRest(Texts(a));
    Cancel(multiset(Texts(a[1..])), multiset(Texts(b[..k] + b[k + 1..])), AlertText(a[0]));
  }

  lemma {:induction false} AlertWithText(b: seq<Alert>, text: string) returns (k: nat)
    requires text in Texts(b)
    ensures k < |b| && AlertText(b[k]) == text
    decreases |b|
  {
    if AlertText(b[0]) == text {
      k := 0;
    } else {
      k := AlertWithText(b[1..], text);
      k := k + 1;
    }
  }

  /**
   * Where no text has a '|', two readings have the same key exactly when every compared
   * field and the collection of alerts are the same.
   */
  lemma KeyIsExact(r: Reading, s: Reading)
    requires forall i | 0 <= i < |r.alerts| :: PlainAlert(r.alerts[i])
    requires forall i | 0 <= i < |s.alerts| :: PlainAlert(s.alerts[i])
    ensures SnapshotKey(r) == SnapshotKey(s) <==>
              r.(alerts := []) == s.(alerts := []) && multiset(r.alerts) == multiset(s.alerts)
  {
    if SnapshotKey(r) == SnapshotKey(s) {
      var x, y := Texts(r.alerts), Texts(s.alerts);
      TextsArePlain(r.alerts);
      TextsArePlain(s.alerts);
      SortSorts(x);
      SortSorts(y);
      MembersOf(Sort(x), x);
      MembersOf(Sort(y), y);
      JoinIsInjective(Sort(x), Sort(y));
      TextsDetermineAlerts(r.alerts, s.alerts);
    }
    if r.(alerts := []) == s.(alerts := []) && multiset(r.alerts) == multiset(s.alerts) {
      KeyIgnoresAlertOrder(r, s.alerts);
    }
  }

  lemma MembersOf(s: seq<string>, t: seq<string>)
    requires multiset(s) == multiset(t)
    ensures forall i | 0 <= i < |s| :: s[i] in t
  {
    forall i | 0 <= i < |s|
      ensures s[i] in t
    {
      assert s[i] in multiset(s);
    }
  }

  /** With a '|' inside a description the key can miss a change: one alert reads like two. */
  lemma PipesCollide()
    ensures AlertsKey([Alert("1", "a|WARNING;2|b", "WARNING")])
         == AlertsKey([Alert("1", "a", "WARNING"), Alert("2", "b", "WARNING")])
  {
    var one, two := "1|a|WARNING", "2|b|WARNING";
    assert AlertText(Alert("1", "a", "WARNING")) == one && AlertText(Alert("2", "b", "WARNING")) == two;
    assert AlertText(Alert("1", "a|WARNING;2|b", "WARNING")) == one + ";" + two;
    JoinOfTwo(one, two);
    assert Texts([Alert("1", "a", "WARNING"), Alert("2", "b", "WARNING")]) == [one, two];
    assert Texts([Alert("1", "a|WARNING;2|b", "WARNING")]) == [one + ";" + two];
    assert Sort([one + ";" + two]) == [one + ";" + two];
  }

  lemma JoinOfTwo(one: string, two: string)
    requires AtMost(one, two)
    ensures Join(Sort([one, two])) == one + ";" + two
  {
    assert [one, two][1..] == [two] && [two][1..] == [];
    assert Sort([two]) == [two];
    assert Sort([one, two]) == Place(one, [two]) == [one, two];
  }

  /** Every alert with a '|' in its code or description has a twin: another alert with the same text. */
  lemma PipeHasTwin(a: Alert) returns (b: Alert)
    requires '|' in a.code || '|' in a.description
    ensures b != a && b.severity == a.severity && AlertText(b) == AlertText(a)
  {
    if '|' in a.description {
      var i :| 0 <= i < |a.description| && a.description[i] == '|';
      var x, y := a.description[..i], a.description[i + 1..];
      assert a.description == x + "|" + y;
      b := Alert(a.code + "|" + x, y, a.severity);
      assert AlertText(b) == a.code + "|" + x + "|" + y + "|" + a.severity == AlertText(a);
    } else {
      var i :| 0 <= i < |a.code| && a.code[i] == '|';
      var x, y := a.code[..i], a.code[i + 1..];
      assert a.code == x + "|" + y;
      b := Alert(x, y + "|" + a.description, a.severity);
      assert AlertText(b) == x + "|" + y + "|" + a.description + "|" + a.severity == AlertText(a);
    }
  }

  /** A ';' in a code is harmless by itself; against a ';' in a severity, which no driver gives, it is not. */
  lemma SemicolonsCollide()
    ensures AlertsKey([Alert("1", "a", "W;2"), Alert("3", "b", "W")])
         == AlertsKey([Alert("1", "a", "W"), Alert("2;3", "b", "W")])
  {
    var one, two := "1|a|W;2", "3|b|W";
    assert AlertText(Alert("1", "a", "W;2")) == one && AlertText(Alert("3", "b", "W")) == two;
    assert Texts([Alert("1", "a", "W;2"), Alert("3", "b", "W")]) == [one, two];
    JoinOfTwo(one, two);
    var first, second := "1|a|W", "2;3|b|W";
    assert AlertText(Alert("1", "a", "W")) == first && AlertText(Alert("2;3", "b", "W")) == second;
    assert Texts([Alert("1", "a", "W"), Alert("2;3", "b", "W")]) == [first, second];
    JoinOfTwo(first, second);
    assert one + ";" + two == first + ";" + second;
  }

  // ---- the decision ----

  /** Column values of a known device: the key last enqueued, and the second it was sent in. */
  datatype LastSent = LastSent(key: Key, at: int)

  /** datetime('now') keeps whole seconds. */
  function ToSecond(ms: int): int {
    ms / 1000 * 1000
  }

  function ShouldEnqueue(last: Option<LastSent>, key: Key, now: int): bool {
    last.None? || last.value.key != key || now - last.value.at >= DEDUPE_WINDOW_MS
  }

  class KnownDevice {
    var last: Option<LastSent>

    constructor ()
      ensures last == None
    {
      last := None;
    }

    method ShouldEnqueueReading(r: Reading, now: int) returns (send: bool)
      ensures send <==> ShouldEnqueue(last, SnapshotKey(r), now)
    {
      if last.None? {
        return true;
      }
      var changed := last.value.key != SnapshotKey(r);
      if changed {
        return true;
      }
      var elapsedMs := now - last.value.at;
      return elapsedMs >= DEDUPE_WINDOW_MS;
    }

    /** What a known-devices task does with a reading: enqueue it and remember it, or drop it. */
    method Offer(r: Reading, now: int) returns (sent: bool)
      modifies this
      ensures sent <==> ShouldEnqueue(old(last), SnapshotKey(r), now)
      ensures last == if sent then Some(LastSent(SnapshotKey(r), ToSecond(now))) else old(last)
    {
      sent := ShouldEnqueueReading(r, now);
      if sent {
        last := Some(LastSent(SnapshotKey(r), ToSecond(now)));
      }
    }
  }

  /** A reading as the dedupe sees it. */
  datatype Taken = Taken(key: Key, at: int)

  /** Those of a device's readings that are enqueued. */
  function Sent(last: Option<LastSent>, readings: seq<Taken>): seq<Taken>
    decreases |readings|
  {
    if readings == [] then []
    else if ShouldEnqueue(last, readings[0].key, readings[0].at) then
      [readings[0]] + Sent(Some(LastSent(readings[0].key, ToSecond(readings[0].at))), readings[1..])
    else Sent(last, readings[1..])
  }

  /** The sequence of different values a device went through, after `from`. */
  function Changes(from: Option<Key>, readings: seq<Taken>): seq<Key>
    decreases |readings|
  {
    if readings == [] then []
    else if from == Some(readings[0].key) then Changes(from, readings[1..])
    else [readings[0].key] + Changes(Some(readings[0].key), readings[1..])
  }

  function KeyOf(last: Option<LastSent>): Option<Key> {
    if last.Some? then Some(last.value.key) else None
  }

  /** No change is lost: what is enqueued goes through the same values, in the same order. */
  lemma {:induction false} DedupeKeepsChanges(last: Option<LastSent>, readings: seq<Taken>)
    ensures Changes(KeyOf(last), Sent(last, readings)) == Changes(KeyOf(last), readings)
    decreases |readings|
  {
    if readings != [] {
      var r := readings[0];
      if ShouldEnqueue(last, r.key, r.at) {
        var next := Some(LastSent(r.key, ToSecond(r.at)));
        DedupeKeepsChanges(next, readings[1..]);
        var rest := Sent(next, readings[1..]);
        assert ([r] + rest)[1..] == rest;
      } else {
        DedupeKeepsChanges(last, readings[1..]);
      }
    }
  }

  /** Two consecutive enqueued readings differ, or the window has passed since the second the first was sent in. */
  lemma {:induction false} RepeatsAreSpaced(last: Option<LastSent>, readings: seq<Taken>, i: nat)
    requires i + 1 < |Sent(last, readings)|
    ensures var a, b := Sent(last, readings)[i], Sent(last, readings)[i + 1];
            a.key != b.key || b.at - ToSecond(a.at) >= DEDUPE_WINDOW_MS
    ensures var a, b := Sent(last, readings)[i], Sent(last, readings)[i + 1];
            a.key != b.key || b.at - a.at > DEDUPE_WINDOW_MS - 1000
    decreases |readings|
  {
    var r := readings[0];
    if ShouldEnqueue(last, r.key, r.at) {
      var next := Some(LastSent(r.key, ToSecond(r.at)));
      if i == 0 {
        FirstSent(next, readings[1..]);
      } else {
        RepeatsAreSpaced(next, readings[1..], i - 1);
      }
    } else {
      RepeatsAreSpaced(last, readings[1..], i);
    }
  }

  lemma {:induction false} FirstSent(last: Option<LastSent>, readings: seq<Taken>)
    requires Sent(last, readings) != []
    ensures var b := Sent(last, readings)[0]; ShouldEnqueue(last, b.key, b.at)
    decreases |readings|
  {
    if !ShouldEnqueue(last, readings[0].key, readings[0].at) {
      FirstSent(last, readings[1..]);
    }
  }

  /** The stored second makes the window up to 999 ms short: these two unchanged readings are both enqueued. */
  lemma WindowCanBeShort(key: Key)
    ensures var first, second := Taken(key, 999), Taken(key, DEDUPE_WINDOW_MS);
            && Sent(None, [first, second]) == [first, second]
            && second.at - first.at == DEDUPE_WINDOW_MS - 999
  {
    var first, second := Taken(key, 999), Taken(key, DEDUPE_WINDOW_MS);
    assert [first, second][1..] == [second] && [second][1..] == [];
    assert Sent(Some(LastSent(key, 0)), [second]) == [second];
  }

  /** After a send, an unchanged reading is enqueued exactly when the window has passed since the stored second. */
  lemma UnchangedIsSentIff(key: Key, sentAt: int, now: int)
    ensures (|Sent(None, [Taken(key, sentAt), Taken(key, now)])| == 2) <==> now >= sentAt / 1000 * 1000 + 4 * 60 * 60 * 1000
  {
    var first, second := Taken(key, sentAt), Taken(key, now);
    assert [first, second][1..] == [second] && [second][1..] == [];
    var last := Some(LastSent(key, ToSecond(sentAt)));
    assert Sent(last, [second]) == if ShouldEnqueue(last, key, now) then [second] else [];
  }
}
