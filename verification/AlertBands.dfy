/**
 * Toner and offline alerts from readings (cloud/src/jobs/alertWorker.ts) over the table of open alerts
 * (cloud/src/db/migrations/20260822010000_alerts_lifecycle_and_agent_scope.ts).
 *
 * Opening is an INSERT that does nothing when the alert is already open, resolving an UPDATE: one
 * statement each, so an evaluation is a program of such statements. The readings of a batch are
 * evaluated concurrently; any of their statements may come next.
 */
module AlertBands {
  import opened Wrappers

  datatype Color = Black | Cyan | Magenta | Yellow

  datatype AlertType = DeviceOffline | Low(color: Color) | Critical(color: Color)

  datatype Op = Open(alert: AlertType) | Resolve(alert: AlertType)

  datatype Reading = Reading(colorPages: Option<int>, black: Option<int>, cyan: Option<int>, magenta: Option<int>,
                             yellow: Option<int>, offline: bool)
  {
    function Toner(c: Color): Option<int> {
      match c
      case Black => black
      case Cyan => cyan
      case Magenta => magenta
      case Yellow => yellow
    }
  }

  datatype Band = Fine | Warning | Crit

  function BandOf(value: int, warning: int, critical: int): Band {
    if value <= critical then Crit else if value <= warning then Warning else Fine
  }

  predicate IsMonoOnly(r: Reading) {
    r.colorPages == Some(0) || (r.cyan.None? && r.magenta.None? && r.yellow.None?)
  }

  function Colors(r: Reading): seq<Color> {
    if IsMonoOnly(r) then [Black] else [Black, Cyan, Magenta, Yellow]
  }

  // ---- the statements of one evaluation ----

  function ColorProgram(c: Color, value: Option<int>, warning: int, critical: int): seq<Op> {
    if value.None? || value.value < 0 then []
    else
      match BandOf(value.value, warning, critical)
      case Crit => [Open(Critical(c)), Resolve(Low(c))]
      case Warning => [Open(Low(c)), Resolve(Critical(c))]
      case Fine => [Resolve(Low(c)), Resolve(Critical(c))]
  }

  function ColorsProgram(r: Reading, colors: seq<Color>, warning: int, critical: int): seq<Op> {
    if colors == [] then []
    else ColorProgram(colors[0], r.Toner(colors[0]), warning, critical) + ColorsProgram(r, colors[1..], warning, critical)
  }

  function ResidualProgram(colors: seq<Color>): seq<Op> {
    if colors == [] then []
    else [Resolve(Low(colors[0])), Resolve(Critical(colors[0]))] + ResidualProgram(colors[1..])
  }

  function Program(r: Reading, warning: int, critical: int): seq<Op> {
    [if r.offline then Open(DeviceOffline) else Resolve(DeviceOffline)]
    + (if IsMonoOnly(r) then ResidualProgram([Cyan, Magenta, Yellow]) else [])
    + ColorsProgram(r, Colors(r), warning, critical)
  }

  // ---- their effect ----

  /** `accepts` is the device gate every INSERT consults. */
  function Apply(alerts: set<AlertType>, op: Op, accepts: bool): set<AlertType> {
    match op
    case Open(a) => if accepts then alerts + {a} else alerts
    case Resolve(a) => alerts - {a}
  }

  function ApplyAll(alerts: set<AlertType>, ops: seq<Op>, accepts: bool): set<AlertType>
    decreases |ops|
  {
    if ops == [] then alerts else ApplyAll(Apply(alerts, ops[0], accepts), ops[1..], accepts)
  }

  lemma {:induction false} ApplySplit(alerts: set<AlertType>, p: seq<Op>, q: seq<Op>, accepts: bool)
    ensures ApplyAll(alerts, p + q, accepts) == ApplyAll(ApplyAll(alerts, p, accepts), q, accepts)
    decreases |p|
  {
    if p == [] {
      assert p + q == q;
    } else {
      assert (p + q)[1..] == p[1..] + q;
      ApplySplit(Apply(alerts, p[0], accepts), p[1..], q, accepts);
    }
  }

  lemma ApplyTwo(alerts: set<AlertType>, x: Op, y: Op, accepts: bool)
    ensures ApplyAll(alerts, [x, y], accepts) == Apply(Apply(alerts, x, accepts), y, accepts)
  {
    assert [x, y][1..] == [y] && [y][1..] == [];
    assert ApplyAll(Apply(alerts, x, accepts), [y], accepts) == Apply(Apply(alerts, x, accepts), y, accepts);
  }

  /** The open alerts of one device. */
  class AlertTable {
    var alerts: set<AlertType>

    constructor (alerts: set<AlertType>)
      ensures this.alerts == alerts
    {
      this.alerts := alerts;
    }

    method OpenAlert(a: AlertType, accepts: bool)
      modifies this
      ensures alerts == Apply(old(alerts), Open(a), accepts)
    {
      if accepts {
        alerts := alerts + {a};
      }
    }

    method ResolveAlerts(a: AlertType)
      modifies this
      ensures forall accepts :: alerts == Apply(old(alerts), Resolve(a), accepts)
    {
      alerts := alerts - {a};
    }

    /** One evaluation run without interference. `watched` is the cut at its top. */
    method EvaluateReading(r: Reading, warning: int, critical: int, watched: bool, accepts: bool)
      modifies this
      ensures !watched ==> alerts == old(alerts)
      ensures watched ==> alerts == ApplyAll(old(alerts), Program(r, warning, critical), accepts)
    {
      if !watched {
        return;
      }
      ghost var start := alerts;
      ghost var done := [if r.offline then Open(DeviceOffline) else Resolve(DeviceOffline)];
      if r.offline {
        OpenAlert(DeviceOffline, accepts);
      } else {
        ResolveAlerts(DeviceOffline);
      }
      assert done[1..] == [] && alerts == ApplyAll(start, done, accepts);
      if IsMonoOnly(r) {
        ghost var before := alerts;
        ResolveResiduals();
        ApplySplit(start, done, ResidualProgram([Cyan, Magenta, Yellow]), accepts);
        done := done + ResidualProgram([Cyan, Magenta, Yellow]);
      } else {
        assert done + [] == done;
      }
      EvaluateColors(r, Colors(r), warning, critical, accepts);
      ApplySplit(start, done, ColorsProgram(r, Colors(r), warning, critical), accepts);
    }

    method ResolveResiduals()
      modifies this
      ensures forall accepts :: alerts == ApplyAll(old(alerts), ResidualProgram([Cyan, Magenta, Yellow]), accepts)
    {
      ghost var start := alerts;
      var colors := [Cyan, Magenta, Yellow];
      var i := 0;
      while i < |colors|
        invariant i <= |colors|
        invariant forall accepts :: ApplyAll(start, ResidualProgram(colors), accepts) == ApplyAll(alerts, ResidualProgram(colors[i..]), accepts)
      {
        ghost var rest := ResidualProgram(colors[i..]);
        assert colors[i..][1..] == colors[i + 1..];
        assert rest[1..][1..] == ResidualProgram(colors[i + 1..]);
        ResolveAlerts(Low(colors[i]));
        ResolveAlerts(Critical(colors[i]));
        i := i + 1;
      }
    }

    method EvaluateColors(r: Reading, colors: seq<Color>, warning: int, critical: int, accepts: bool)
      modifies this
      ensures alerts == ApplyAll(old(alerts), ColorsProgram(r, colors, warning, critical), accepts)
    {
      ghost var start := alerts;
      var i := 0;
      while i < |colors|
        invariant i <= |colors|
        invariant ApplyAll(start, ColorsProgram(r, colors, warning, critical), accepts)
                  == ApplyAll(alerts, ColorsProgram(r, colors[i..], warning, critical), accepts)
      {
        var color := colors[i];
        var val := r.Toner(color);
        ghost var before := alerts;
        ghost var mine := ColorProgram(color, val, warning, critical);
        assert colors[i..][1..] == colors[i + 1..];
        ApplySplit(before, mine, ColorsProgram(r, colors[i + 1..], warning, critical), accepts);
        EvaluateColor(color, val, warning, critical, accepts);
        i := i + 1;
      }
    }

    method EvaluateColor(color: Color, val: Option<int>, warning: int, critical: int, accepts: bool)
      modifies this
      ensures alerts == ApplyAll(old(alerts), ColorProgram(color, val, warning, critical), accepts)
    {
      if val.Some? && val.value >= 0 {
        ghost var p := ColorProgram(color, val, warning, critical);
        ApplyTwo(alerts, p[0], p[1], accepts);
        if val.value <= critical {
          OpenAlert(Critical(color), accepts);
          ResolveAlerts(Low(color));
        } else if val.value <= warning {
          OpenAlert(Low(color), accepts);
          ResolveAlerts(Critical(color));
        } else {
          ResolveAlerts(Low(color));
          ResolveAlerts(Critical(color));
        }
      }
    }
  }

  // ---- one after the other: the table shows the band of the last value ----

  ghost predicate ShowsBand(alerts: set<AlertType>, c: Color, band: Band) {
    && (Low(c) in alerts <==> band.Warning?)
    && (Critical(c) in alerts <==> band.Crit?)
  }

  /** Statements about other things leave a colour's two alerts alone. */
  lemma {:induction false} OthersLeaveAlone(alerts: set<AlertType>, ops: seq<Op>, accepts: bool, a: AlertType)
    requires forall i | 0 <= i < |ops| :: ops[i].alert != a
    ensures a in ApplyAll(alerts, ops, accepts) <==> a in alerts
    decreases |ops|
  {
    if ops != [] {
      OthersLeaveAlone(Apply(alerts, ops[0], accepts), ops[1..], accepts, a);
    }
  }

  lemma {:induction false} ColorsProgramIsAbout(r: Reading, colors: seq<Color>, warning: int, critical: int)
    ensures forall i | 0 <= i < |ColorsProgram(r, colors, warning, critical)| ::
              var a := ColorsProgram(r, colors, warning, critical)[i].alert;
              !a.DeviceOffline? && a.color in colors
    decreases |colors|
  {
    if colors != [] {
      ColorsProgramIsAbout(r, colors[1..], warning, critical);
    }
  }

  lemma {:induction false} ColorsShowBands(alerts: set<AlertType>, r: Reading, colors: seq<Color>, warning: int, critical: int, k: nat)
    requires k < |colors| && forall i, j | 0 <= i < j < |colors| :: colors[i] != colors[j]
    requires r.Toner(colors[k]).Some? && r.Toner(colors[k]).value >= 0
    ensures ShowsBand(ApplyAll(alerts, ColorsProgram(r, colors, warning, critical), true), colors[k],
                      BandOf(r.Toner(colors[k]).value, warning, critical))
    decreases |colors|
  {
    var c := colors[0];
    var mine := ColorProgram(c, r.Toner(c), warning, critical);
    var rest := ColorsProgram(r, colors[1..], warning, critical);
    ApplySplit(alerts, mine, rest, true);
    var mid := ApplyAll(alerts, mine, true);
    if k == 0 {
      ApplyTwo(alerts, mine[0], mine[1], true);
      ColorsProgramIsAbout(r, colors[1..], warning, critical);
      OthersLeaveAlone(mid, rest, true, Low(c));
      OthersLeaveAlone(mid, rest, true, Critical(c));
    } else {
      ColorsShowBands(mid, r, colors[1..], warning, critical, k - 1);
    }
  }

  /**
   * Whatever was open before and whatever the two thresholds are, an evaluation leaves every colour it
   * looks at with exactly the alert of its band.
   */
  lemma LastValueShows(alerts: set<AlertType>, r: Reading, warning: int, critical: int, k: nat)
    requires k < |Colors(r)| && r.Toner(Colors(r)[k]).Some? && r.Toner(Colors(r)[k]).value >= 0
    ensures ShowsBand(ApplyAll(alerts, Program(r, warning, critical), true), Colors(r)[k],
                      BandOf(r.Toner(Colors(r)[k]).value, warning, critical))
  {
    var head := [if r.offline then Open(DeviceOffline) else Resolve(DeviceOffline)]
                + (if IsMonoOnly(r) then ResidualProgram([Cyan, Magenta, Yellow]) else []);
    ApplySplit(alerts, head, ColorsProgram(r, Colors(r), warning, critical), true);
    ColorsShowBands(ApplyAll(alerts, head, true), r, Colors(r), warning, critical, k);
  }

  /** A monochrome reading leaves no colour alert open, whatever was there. */
  lemma MonoClearsColors(alerts: set<AlertType>, r: Reading, warning: int, critical: int, accepts: bool, c: Color)
    requires IsMonoOnly(r) && c != Black
    ensures var after := ApplyAll(alerts, Program(r, warning, critical), accepts);
            Low(c) !in after && Critical(c) !in after
  {
    var first := [if r.offline then Open(DeviceOffline) else Resolve(DeviceOffline)];
    var residual := ResidualProgram([Cyan, Magenta, Yellow]);
    var rest := ColorsProgram(r, [Black], warning, critical);
    ApplySplit(alerts, first + residual, rest, accepts);
    ApplySplit(alerts, first, residual, accepts);
    var mid := ApplyAll(alerts, first, accepts);
    ResidualCloses(mid, accepts, c);
    ColorsProgramIsAbout(r, [Black], warning, critical);
    OthersLeaveAlone(ApplyAll(mid, residual, accepts), rest, accepts, Low(c));
    OthersLeaveAlone(ApplyAll(mid, residual, accepts), rest, accepts, Critical(c));
  }

  lemma BothResolved(alerts: set<AlertType>, accepts: bool, c: Color)
    ensures var after := ApplyAll(alerts, [Resolve(Low(c)), Resolve(Critical(c))], accepts);
            Low(c) !in after && Critical(c) !in after
  {
    var ops := [Resolve(Low(c)), Resolve(Critical(c))];
    var mid := Apply(alerts, ops[0], accepts);
    assert ops[1..] == [Resolve(Critical(c))] && ops[1..][1..] == [];
    assert ApplyAll(mid, ops[1..], accepts) == Apply(mid, ops[1], accepts);
  }

  lemma ResidualIsSix()
    ensures ResidualProgram([Cyan, Magenta, Yellow])
         == [Resolve(Low(Cyan)), Resolve(Critical(Cyan)), Resolve(Low(Magenta)), Resolve(Critical(Magenta)),
             Resolve(Low(Yellow)), Resolve(Critical(Yellow))]
  {
    var colors := [Cyan, Magenta, Yellow];
    assert colors[1..] == [Magenta, Yellow] && colors[1..][1..] == [Yellow] && [Yellow][1..] == [];
  }

  lemma ResidualCloses(alerts: set<AlertType>, accepts: bool, c: Color)
    requires c != Black
    ensures var after := ApplyAll(alerts, ResidualProgram([Cyan, Magenta, Yellow]), accepts);
            Low(c) !in after && Critical(c) !in after
  {
    hide ApplyAll, ResidualProgram;
    ResidualIsSix();
    var p := ResidualProgram([Cyan, Magenta, Yellow]);
    var k := match c case Cyan => 0 case Magenta => 2 case _ => 4;
    var front, back := p[..k], p[k + 2..];
    assert p[k..k + 2] == [Resolve(Low(c)), Resolve(Critical(c))];
    assert p == front + (p[k..k + 2] + back);
    ApplySplit(alerts, front, p[k..k + 2] + back, accepts);
    var mid := ApplyAll(alerts, front, accepts);
    ApplySplit(mid, p[k..k + 2], back, accepts);
    BothResolved(mid, accepts, c);
    var closed := ApplyAll(mid, p[k..k + 2], accepts);
    OthersLeaveAlone(closed, back, accepts, Low(c));
    OthersLeaveAlone(closed, back, accepts, Critical(c));
  }

  /** An evaluation of a reading, with the thresholds it happened to read. */
  datatype Evaluation = Evaluation(reading: Reading, warning: int, critical: int)

  function Measures(r: Reading, c: Color): bool {
    c in Colors(r) && r.Toner(c).Some? && r.Toner(c).value >= 0
  }

  function Clears(r: Reading, c: Color): bool {
    IsMonoOnly(r) && c != Black
  }

  function AfterAll(alerts: set<AlertType>, evaluations: seq<Evaluation>): set<AlertType>
    decreases |evaluations|
  {
    if evaluations == [] then alerts
    else
      var e := evaluations[|evaluations| - 1];
      ApplyAll(AfterAll(alerts, evaluations[..|evaluations| - 1]), Program(e.reading, e.warning, e.critical), true)
  }

  /** The band of a colour by the last reading that has a value for it or rules the colour out. */
  function LastBand(evaluations: seq<Evaluation>, c: Color): Option<Band>
    decreases |evaluations|
  {
    if evaluations == [] then None
    else
      var e := evaluations[|evaluations| - 1];
      if Measures(e.reading, c) then Some(BandOf(e.reading.Toner(c).value, e.warning, e.critical))
      else if Clears(e.reading, c) then Some(Fine)
      else LastBand(evaluations[..|evaluations| - 1], c)
  }

  lemma {:induction false} SilentOnColor(r: Reading, colors: seq<Color>, warning: int, critical: int, c: Color)
    requires c in colors ==> r.Toner(c).None? || r.Toner(c).value < 0
    ensures forall i | 0 <= i < |ColorsProgram(r, colors, warning, critical)| ::
              var a := ColorsProgram(r, colors, warning, critical)[i].alert;
              a != Low(c) && a != Critical(c)
    decreases |colors|
  {
    if colors != [] {
      SilentOnColor(r, colors[1..], warning, critical, c);
    }
  }

  /** A reading without a value for a colour, and that does not rule it out, leaves its alerts alone. */
  lemma SilenceChangesNothing(alerts: set<AlertType>, r: Reading, warning: int, critical: int, c: Color)
    requires !Measures(r, c) && !Clears(r, c)
    ensures var after := ApplyAll(alerts, Program(r, warning, critical), true);
            (Low(c) in after <==> Low(c) in alerts) && (Critical(c) in after <==> Critical(c) in alerts)
  {
    SilentOnColor(r, Colors(r), warning, critical, c);
    ResidualIsAbout([Cyan, Magenta, Yellow]);
    OthersLeaveAlone(alerts, Program(r, warning, critical), true, Low(c));
    OthersLeaveAlone(alerts, Program(r, warning, critical), true, Critical(c));
  }

  lemma {:induction false} ResidualIsAbout(colors: seq<Color>)
    ensures forall i | 0 <= i < |ResidualProgram(colors)| ::
              var a := ResidualProgram(colors)[i].alert; !a.DeviceOffline? && a.color in colors
    decreases |colors|
  {
    if colors != [] {
      ResidualIsAbout(colors[1..]);
    }
  }

  /**
   * One after the other, any number of readings with any thresholds: a colour's alerts show the band of
   * its last value, and before its first value they are what they were.
   */
  lemma {:induction false} HistoryShowsLastBand(alerts: set<AlertType>, evaluations: seq<Evaluation>, c: Color)
    ensures var after, band := AfterAll(alerts, evaluations), LastBand(evaluations, c);
            if band.Some? then ShowsBand(after, c, band.value)
            else (Low(c) in after <==> Low(c) in alerts) && (Critical(c) in after <==> Critical(c) in alerts)
    decreases |evaluations|
  {
    if evaluations != [] {
      var before := evaluations[..|evaluations| - 1];
      var e := evaluations[|evaluations| - 1];
      var mid := AfterAll(alerts, before);
      if Measures(e.reading, c) {
        var k :| 0 <= k < |Colors(e.reading)| && Colors(e.reading)[k] == c;
        LastValueShows(mid, e.reading, e.warning, e.critical, k);
      } else if Clears(e.reading, c) {
        MonoClearsColors(mid, e.reading, e.warning, e.critical, true, c);
      } else {
        SilenceChangesNothing(mid, e.reading, e.warning, e.critical, c);
        HistoryShowsLastBand(alerts, before, c);
      }
    }
  }

  // ---- the same on the numbers ----

  /** The level of a colour, as the device reported it. */
  function LevelOf(r: Reading, c: Color): Option<int> {
    if c == Black then r.black else if c == Cyan then r.cyan else if c == Magenta then r.magenta else r.yellow
  }

  /** No colour pages ever, or no colour level at all. */
  predicate HasNoColor(r: Reading) {
    (r.colorPages.Some? && r.colorPages.value == 0) || (r.cyan == None && r.magenta == None && r.yellow == None)
  }

  lemma LevelsAreMeasured(r: Reading, c: Color)
    ensures Measures(r, c) <==> LevelOf(r, c).Some? && LevelOf(r, c).value >= 0 && (c == Black || !HasNoColor(r))
    ensures Clears(r, c) <==> c != Black && HasNoColor(r)
    ensures r.Toner(c) == LevelOf(r, c)
  {
    assert Black in Colors(r);
    match c
    case Black =>
    case Cyan =>
    case Magenta =>
    case Yellow =>
  }

  /**
   * An accepted evaluation of a level `v`: the critical alert is open exactly at or below the critical threshold,
   * the low one exactly above that and at or below the warning threshold.
   */
  lemma LevelShows(alerts: set<AlertType>, r: Reading, warning: int, critical: int, c: Color, v: int)
    requires LevelOf(r, c) == Some(v) && v >= 0 && (c == Black || !HasNoColor(r))
    ensures var after := ApplyAll(alerts, Program(r, warning, critical), true);
            && (Critical(c) in after <==> v <= critical)
            && (Low(c) in after <==> critical < v <= warning)
  {
    LevelsAreMeasured(r, c);
    hide Program, ApplyAll, Colors;
    var k :| 0 <= k < |Colors(r)| && Colors(r)[k] == c;
    LastValueShows(alerts, r, warning, critical, k);
  }

  /** The offline alert is open exactly if the reading says so. */
  lemma OfflineShows(alerts: set<AlertType>, r: Reading, warning: int, critical: int)
    ensures DeviceOffline in ApplyAll(alerts, Program(r, warning, critical), true) <==> r.offline
  {
    var first := [if r.offline then Open(DeviceOffline) else Resolve(DeviceOffline)];
    var residual := if IsMonoOnly(r) then ResidualProgram([Cyan, Magenta, Yellow]) else [];
    var rest := residual + ColorsProgram(r, Colors(r), warning, critical);
    assert Program(r, warning, critical) == first + rest;
    ResidualIsAbout([Cyan, Magenta, Yellow]);
    ColorsProgramIsAbout(r, Colors(r), warning, critical);
    ApplySplit(alerts, first, rest, true);
    assert first[1..] == [];
    assert ApplyAll(alerts, first, true) == Apply(alerts, first[0], true);
    OthersLeaveAlone(ApplyAll(alerts, first, true), rest, true, DeviceOffline);
  }

  /** The evaluation that decides a colour after a history: the last with a level for it, or that rules colours out. */
  ghost predicate Decides(evaluations: seq<Evaluation>, c: Color, k: nat) {
    && k < |evaluations|
    && Speaks(evaluations[k].reading, c)
    && forall j | k < j < |evaluations| :: !Speaks(evaluations[j].reading, c)
  }

  predicate Speaks(r: Reading, c: Color) {
    (LevelOf(r, c).Some? && LevelOf(r, c).value >= 0) || (c != Black && HasNoColor(r))
  }

  lemma {:induction false} LastBandIsDecided(evaluations: seq<Evaluation>, c: Color, k: nat)
    requires Decides(evaluations, c, k)
    ensures var e := evaluations[k];
            LastBand(evaluations, c)
            == Some(if c != Black && HasNoColor(e.reading) then Fine else BandOf(LevelOf(e.reading, c).value, e.warning, e.critical))
    decreases |evaluations|
  {
    var last := |evaluations| - 1;
    LevelsAreMeasured(evaluations[last].reading, c);
    LevelsAreMeasured(evaluations[k].reading, c);
    if k < last {
      assert !Speaks(evaluations[last].reading, c);
      assert forall j | k < j < last :: evaluations[..last][j] == evaluations[j];
      LastBandIsDecided(evaluations[..last], c, k);
    }
  }

  lemma {:induction false} NothingDecided(evaluations: seq<Evaluation>, c: Color)
    requires forall j | 0 <= j < |evaluations| :: !Speaks(evaluations[j].reading, c)
    ensures LastBand(evaluations, c) == None
    decreases |evaluations|
  {
    if evaluations != [] {
      var last := |evaluations| - 1;
      LevelsAreMeasured(evaluations[last].reading, c);
      assert forall j | 0 <= j < last :: evaluations[..last][j] == evaluations[j];
      NothingDecided(evaluations[..last], c);
    }
  }

  /**
   * After any history of accepted evaluations the deciding one alone says what is open: its level against its own
   * thresholds, or nothing if it has no colour. Without one, what was open before is open still.
   */
  lemma HistoryShowsLastLevel(alerts: set<AlertType>, evaluations: seq<Evaluation>, c: Color)
    ensures var after := AfterAll(alerts, evaluations);
            && (forall k: nat | Decides(evaluations, c, k) ::
                  var e := evaluations[k];
                  if c != Black && HasNoColor(e.reading) then Low(c) !in after && Critical(c) !in after
                  else
                    && (Critical(c) in after <==> LevelOf(e.reading, c).value <= e.critical)
                    && (Low(c) in after <==> e.critical < LevelOf(e.reading, c).value <= e.warning))
            && ((forall j | 0 <= j < |evaluations| :: !Speaks(evaluations[j].reading, c)) ==>
                  (Low(c) in after <==> Low(c) in alerts) && (Critical(c) in after <==> Critical(c) in alerts))
  {
    hide AfterAll, LastBand, HasNoColor;
    HistoryShowsLastBand(alerts, evaluations, c);
    forall k: nat | Decides(evaluations, c, k)
      ensures var e := evaluations[k];
              LastBand(evaluations, c)
              == Some(if c != Black && HasNoColor(e.reading) then Fine else BandOf(LevelOf(e.reading, c).value, e.warning, e.critical))
    {
      LastBandIsDecided(evaluations, c, k);
    }
    if forall j | 0 <= j < |evaluations| :: !Speaks(evaluations[j].reading, c) {
      NothingDecided(evaluations, c);
    }
  }

  // ---- any interleaving: never both alerts of a colour ----

  /** An evaluation under way: the statement it executed last, and those it has still to execute. */
  datatype Running = Running(last: Option<Op>, rest: seq<Op>)

  /** `abandoned` holds the evaluations that failed, as they were then. */
  datatype Batch = Batch(alerts: set<AlertType>, pending: seq<Running>, abandoned: seq<Running>)

  datatype Event =
    | Statement(i: nat, accepts: bool)
    | Fault(i: nat)
    | ResolvedElsewhere(alert: AlertType)

  function Step(b: Batch, e: Event): Batch {
    match e
    case Statement(i, accepts) =>
      if i < |b.pending| && b.pending[i].rest != [] then
        var op := b.pending[i].rest[0];
        b.(alerts := Apply(b.alerts, op, accepts), pending := b.pending[i := Running(Some(op), b.pending[i].rest[1..])])
      else b
    case Fault(i) =>
      if i < |b.pending| && b.pending[i].rest != [] then
        b.(pending := b.pending[i := Running(None, [])], abandoned := b.abandoned + [b.pending[i]])
      else b
    case ResolvedElsewhere(a) => b.(alerts := b.alerts - {a})
  }

  function Run(b: Batch, events: seq<Event>): Batch
    decreases |events|
  {
    if events == [] then b else Run(Step(b, events[0]), events[1..])
  }

  ghost predicate Both(alerts: set<AlertType>, c: Color) {
    Low(c) in alerts && Critical(c) in alerts
  }

  ghost predicate PairedAt(p: seq<Op>, i: nat)
    requires i < |p|
  {
    && (p[i].Open? && p[i].alert.Low? ==> i + 1 < |p| && p[i + 1] == Resolve(Critical(p[i].alert.color)))
    && (p[i].Open? && p[i].alert.Critical? ==> i + 1 < |p| && p[i + 1] == Resolve(Low(p[i].alert.color)))
  }

  /** Opening either alert of a colour is followed at once by resolving the other. */
  ghost predicate Paired(p: seq<Op>) {
    forall i | 0 <= i < |p| :: PairedAt(p, i)
  }

  /** The evaluation stands between opening one alert of the colour and resolving the other. */
  ghost predicate Between(r: Running, c: Color) {
    && r.last.Some? && r.rest != []
    && ((r.last.value == Open(Low(c)) && r.rest[0] == Resolve(Critical(c)))
        || (r.last.value == Open(Critical(c)) && r.rest[0] == Resolve(Low(c))))
  }

  ghost predicate SomeBetween(rs: seq<Running>, c: Color) {
    exists i | 0 <= i < |rs| :: Between(rs[i], c)
  }

  /** Both alerts of a colour are open only while some evaluation stands between the two, or failed there. */
  ghost predicate Safe(b: Batch) {
    && (forall i | 0 <= i < |b.pending| :: Paired(b.pending[i].rest))
    && (forall c | Both(b.alerts, c) :: SomeBetween(b.pending, c) || SomeBetween(b.abandoned, c))
  }

  lemma PairedTail(p: seq<Op>)
    requires Paired(p) && p != []
    ensures Paired(p[1..])
  {
    forall i | 0 <= i < |p| - 1 ensures PairedAt(p[1..], i) {
      assert PairedAt(p, i + 1);
    }
  }

  lemma StepKeepsPaired(b: Batch, e: Event)
    requires Safe(b)
    ensures forall i | 0 <= i < |Step(b, e).pending| :: Paired(Step(b, e).pending[i].rest)
  {
    var d := Step(b, e);
    forall i | 0 <= i < |d.pending|
      ensures Paired(d.pending[i].rest)
    {
      if d.pending[i] != b.pending[i] && d.pending[i].rest != [] {
        PairedTail(b.pending[i].rest);
      }
    }
  }

  lemma StatementIsSafe(b: Batch, i: nat, accepts: bool, c: Color)
    requires Safe(b) && i < |b.pending| && b.pending[i].rest != [] && Both(Step(b, Statement(i, accepts)).alerts, c)
    ensures var d := Step(b, Statement(i, accepts)); SomeBetween(d.pending, c) || SomeBetween(d.abandoned, c)
  {
    var d := Step(b, Statement(i, accepts));
    var p := b.pending[i].rest;
    assert p == [p[0]] + p[1..] && PairedAt(p, 0);
    if Both(b.alerts, c) && SomeBetween(b.pending, c) {
      var j :| 0 <= j < |b.pending| && Between(b.pending[j], c);
      assert Between(d.pending[j], c);
    } else if !Both(b.alerts, c) {
      assert p[0] == Open(Low(c)) || p[0] == Open(Critical(c));
      assert d.pending[i].rest[0] == p[1];
      assert Between(d.pending[i], c);
    }
  }

  lemma FaultIsSafe(b: Batch, i: nat, c: Color)
    requires Safe(b) && i < |b.pending| && b.pending[i].rest != [] && Both(b.alerts, c)
    ensures var d := Step(b, Fault(i)); SomeBetween(d.pending, c) || SomeBetween(d.abandoned, c)
  {
    var d := Step(b, Fault(i));
    if SomeBetween(b.pending, c) {
      var j :| 0 <= j < |b.pending| && Between(b.pending[j], c);
      if j == i {
        assert Between(d.abandoned[|b.abandoned|], c);
      } else {
        assert Between(d.pending[j], c);
      }
    } else {
      var j :| 0 <= j < |b.abandoned| && Between(b.abandoned[j], c);
      assert Between(d.abandoned[j], c);
    }
  }

  lemma StepIsSafe(b: Batch, e: Event)
    requires Safe(b)
    ensures Safe(Step(b, e))
  {
    StepKeepsPaired(b, e);
    forall c | Both(Step(b, e).alerts, c)
      ensures SomeBetween(Step(b, e).pending, c) || SomeBetween(Step(b, e).abandoned, c)
    {
      match e
      case Statement(i, accepts) =>
        if i < |b.pending| && b.pending[i].rest != [] { StatementIsSafe(b, i, accepts, c); }
      case Fault(i) =>
        if i < |b.pending| && b.pending[i].rest != [] { FaultIsSafe(b, i, c); }
      case ResolvedElsewhere(a) =>
        assert Both(b.alerts, c);
    }
  }

  lemma {:induction false} RunIsSafe(b: Batch, events: seq<Event>)
    requires Safe(b)
    ensures Safe(Run(b, events))
    decreases |events|
  {
    if events != [] {
      StepIsSafe(b, events[0]);
      RunIsSafe(Step(b, events[0]), events[1..]);
    }
  }

  lemma {:induction false} ColorsProgramIsPaired(r: Reading, colors: seq<Color>, warning: int, critical: int)
    ensures Paired(ColorsProgram(r, colors, warning, critical))
    decreases |colors|
  {
    if colors != [] {
      ColorsProgramIsPaired(r, colors[1..], warning, critical);
      PairedJoin(ColorProgram(colors[0], r.Toner(colors[0]), warning, critical), ColorsProgram(r, colors[1..], warning, critical));
    }
  }

  lemma PairedJoin(p: seq<Op>, q: seq<Op>)
    requires Paired(p) && Paired(q)
    ensures Paired(p + q)
  {
    forall i | 0 <= i < |p + q| ensures PairedAt(p + q, i) {
      assert if i < |p| then PairedAt(p, i) else PairedAt(q, i - |p|);
    }
  }

  lemma {:induction false} ResidualOnlyResolves(colors: seq<Color>)
    ensures forall i | 0 <= i < |ResidualProgram(colors)| :: ResidualProgram(colors)[i].Resolve?
    decreases |colors|
  {
    if colors != [] {
      ResidualOnlyResolves(colors[1..]);
    }
  }

  lemma ProgramIsPaired(r: Reading, warning: int, critical: int)
    ensures Paired(Program(r, warning, critical))
  {
    var first := [if r.offline then Open(DeviceOffline) else Resolve(DeviceOffline)];
    var residual := if IsMonoOnly(r) then ResidualProgram([Cyan, Magenta, Yellow]) else [];
    ResidualOnlyResolves([Cyan, Magenta, Yellow]);
    PairedJoin(first, residual);
    ColorsProgramIsPaired(r, Colors(r), warning, critical);
    PairedJoin(first + residual, ColorsProgram(r, Colors(r), warning, critical));
  }

  function Started(alerts: set<AlertType>, evaluations: seq<Evaluation>): Batch {
    Batch(alerts,
          seq(|evaluations|, i requires 0 <= i < |evaluations| =>
            Running(None, Program(evaluations[i].reading, evaluations[i].warning, evaluations[i].critical))),
          [])
  }

  predicate AllDone(b: Batch) {
    forall i | 0 <= i < |b.pending| :: b.pending[i].rest == []
  }

  /**
   * Any number of evaluations in any interleaving, the gate answering as it likes: once all are done, a
   * colour has both alerts open only if an evaluation failed right between opening one and resolving the other.
   */
  lemma NeverBothOpen(alerts: set<AlertType>, evaluations: seq<Evaluation>, events: seq<Event>, c: Color)
    requires forall d :: !Both(alerts, d)
    ensures var b := Run(Started(alerts, evaluations), events);
            AllDone(b) && Both(b.alerts, c) ==> SomeBetween(b.abandoned, c)
    ensures var b := Run(Started(alerts, evaluations), events);
            AllDone(b) && (forall i | 0 <= i < |events| :: !events[i].Fault?) ==> !Both(b.alerts, c)
  {
    hide Run;
    var start := Started(alerts, evaluations);
    forall i | 0 <= i < |start.pending|
      ensures Paired(start.pending[i].rest)
    {
      ProgramIsPaired(evaluations[i].reading, evaluations[i].warning, evaluations[i].critical);
    }
    RunIsSafe(start, events);
    if forall i | 0 <= i < |events| :: !events[i].Fault? {
      NoFaultNoLoss(start, events);
    }
  }

  lemma {:induction false} NoFaultNoLoss(b: Batch, events: seq<Event>)
    requires forall i | 0 <= i < |events| :: !events[i].Fault?
    ensures Run(b, events).abandoned == b.abandoned
    decreases |events|
  {
    if events != [] {
      NoFaultNoLoss(Step(b, events[0]), events[1..]);
    }
  }

  // ---- one evaluation, cut after any number of statements ----

  predicate About(op: Op, c: Color) {
    op.alert == Low(c) || op.alert == Critical(c)
  }

  ghost predicate Silent(ops: seq<Op>, c: Color) {
    forall i | 0 <= i < |ops| :: !About(ops[i], c)
  }

  ghost predicate OpensNone(ops: seq<Op>, c: Color) {
    forall i | 0 <= i < |ops| :: About(ops[i], c) ==> ops[i].Resolve?
  }

  function Counterpart(a: AlertType): AlertType {
    match a
    case Low(c) => Critical(c)
    case Critical(c) => Low(c)
    case DeviceOffline => DeviceOffline
  }

  lemma {:induction false} OnlyOpeningsOpen(alerts: set<AlertType>, ops: seq<Op>, c: Color)
    requires OpensNone(ops, c)
    ensures Low(c) in ApplyAll(alerts, ops, true) ==> Low(c) in alerts
    ensures Critical(c) in ApplyAll(alerts, ops, true) ==> Critical(c) in alerts
    decreases |ops|
  {
    if ops != [] {
      var next := Apply(alerts, ops[0], true);
      assert About(ops[0], c) ==> ops[0].Resolve?;
      OnlyOpeningsOpen(next, ops[1..], c);
    }
  }

  lemma {:induction false} OtherColorsAreSilent(r: Reading, colors: seq<Color>, warning: int, critical: int, c: Color)
    requires c !in colors
    ensures Silent(ColorsProgram(r, colors, warning, critical), c)
    decreases |colors|
  {
    if colors != [] {
      OtherColorsAreSilent(r, colors[1..], warning, critical, c);
    }
  }

  /** A colour that is looked at has its statements in one place. */
  lemma {:induction false} ColorIsOneBlock(r: Reading, colors: seq<Color>, warning: int, critical: int, c: Color)
    returns (front: seq<Op>, back: seq<Op>)
    requires c in colors && forall i, j | 0 <= i < j < |colors| :: colors[i] != colors[j]
    ensures ColorsProgram(r, colors, warning, critical) == front + (ColorProgram(c, r.Toner(c), warning, critical) + back)
    ensures Silent(front, c) && Silent(back, c)
    decreases |colors|
  {
    if colors[0] == c {
      front, back := [], ColorsProgram(r, colors[1..], warning, critical);
      OtherColorsAreSilent(r, colors[1..], warning, critical, c);
      assert front + (ColorProgram(c, r.Toner(c), warning, critical) + back) == ColorProgram(c, r.Toner(c), warning, critical) + back;
    } else {
      var rest: seq<Op>;
      rest, back := ColorIsOneBlock(r, colors[1..], warning, critical, c);
      var mine := ColorProgram(colors[0], r.Toner(colors[0]), warning, critical);
      front := mine + rest;
      assert front + (ColorProgram(c, r.Toner(c), warning, critical) + back)
             == mine + (rest + (ColorProgram(c, r.Toner(c), warning, critical) + back));
    }
  }

  predicate IsBlock(block: seq<Op>, c: Color) {
    block == [] || (|block| == 2 && About(block[0], c) && block[1] == Resolve(Counterpart(block[0].alert)))
  }

  lemma ColorProgramIsBlock(c: Color, value: Option<int>, warning: int, critical: int)
    ensures IsBlock(ColorProgram(c, value, warning, critical), c)
  {
  }

  /** What precedes the colours: nothing about black, and no opening of any colour. */
  lemma HeadIsSilent(r: Reading, head: seq<Op>, c: Color)
    requires head == [if r.offline then Open(DeviceOffline) else Resolve(DeviceOffline)]
                     + (if IsMonoOnly(r) then ResidualProgram([Cyan, Magenta, Yellow]) else [])
    ensures OpensNone(head, c) && (c in Colors(r) ==> Silent(head, c))
  {
    hide ResidualProgram;
    ResidualIsAbout([Cyan, Magenta, Yellow]);
    ResidualOnlyResolves([Cyan, Magenta, Yellow]);
  }

  /** So has the whole program: silence, then the colour's two statements or none, then nothing that opens it. */
  lemma ProgramIsOneBlock(r: Reading, warning: int, critical: int, c: Color)
    returns (front: seq<Op>, block: seq<Op>, back: seq<Op>)
    ensures Program(r, warning, critical) == front + (block + back)
    ensures Silent(front, c) && OpensNone(back, c) && IsBlock(block, c)
  {
    hide ColorProgram, ColorsProgram, ResidualProgram;
    var head := [if r.offline then Open(DeviceOffline) else Resolve(DeviceOffline)]
                + (if IsMonoOnly(r) then ResidualProgram([Cyan, Magenta, Yellow]) else []);
    HeadIsSilent(r, head, c);
    if c in Colors(r) {
      var rest: seq<Op>;
      rest, back := ColorIsOneBlock(r, Colors(r), warning, critical, c);
      front, block := head + rest, ColorProgram(c, r.Toner(c), warning, critical);
      ColorProgramIsBlock(c, r.Toner(c), warning, critical);
      assert front + (block + back) == head + (rest + (block + back));
    } else {
      OtherColorsAreSilent(r, Colors(r), warning, critical, c);
      front, block, back := [], [], head + ColorsProgram(r, Colors(r), warning, critical);
      assert front + (block + back) == head + ColorsProgram(r, Colors(r), warning, critical);
    }
  }

  /** What a cut inside or around such a block leaves. */
  lemma CutOfBlock(alerts: set<AlertType>, front: seq<Op>, block: seq<Op>, back: seq<Op>, k: nat, c: Color)
    requires !Both(alerts, c) && Silent(front, c) && OpensNone(back, c)
    requires block != [] && IsBlock(block, c)
    requires k <= |front| + 2 + |back|
    ensures Both(ApplyAll(alerts, (front + (block + back))[..k], true), c)
       <==> k == |front| + 1 && block[0].Open? && Counterpart(block[0].alert) in alerts
  {
    var p := front + (block + back);
    var mid := ApplyAll(alerts, front, true);
    if k <= |front| {
      assert p[..k] == front[..k];
      OnlyOpeningsOpen(alerts, front[..k], c);
    } else if k == |front| + 1 {
      assert p[..k] == front + [block[0]];
      ApplySplit(alerts, front, [block[0]], true);
      OthersLeaveAlone(alerts, front, true, Low(c));
      OthersLeaveAlone(alerts, front, true, Critical(c));
      assert [block[0]][1..] == [];
      assert ApplyAll(mid, [block[0]], true) == Apply(mid, block[0], true);
    } else {
      var tail := back[..k - |front| - 2];
      assert p[..k] == front + (block + tail);
      ApplySplit(alerts, front, block + tail, true);
      ApplySplit(mid, block, tail, true);
      assert block == [block[0], block[1]];
      ApplyTwo(mid, block[0], block[1], true);
      OnlyOpeningsOpen(ApplyAll(mid, block, true), tail, c);
    }
  }

  /**
   * An evaluation that fails after `k` statements leaves a colour with both alerts open if and only if the last
   * of them opened one and the other was open.
   */
  lemma CutLeavesBothIff(alerts: set<AlertType>, r: Reading, warning: int, critical: int, k: nat, c: Color)
    requires !Both(alerts, c) && k < |Program(r, warning, critical)|
    ensures var p := Program(r, warning, critical);
            var b := Run(Started(alerts, [Evaluation(r, warning, critical)]), seq(k, _ => Statement(0, true)) + [Fault(0)]);
            && AllDone(b)
            && (Both(b.alerts, c) <==> k > 0 && p[k - 1].Open? && About(p[k - 1], c) && Counterpart(p[k - 1].alert) in alerts)
  {
    var p := Program(r, warning, critical);
    CutRun(alerts, Evaluation(r, warning, critical), k);
    var front, block, back := ProgramIsOneBlock(r, warning, critical, c);
    hide Program, Run, ApplyAll;
    if block == [] {
      assert p == front + back;
      CutOfNoBlock(alerts, front, back, k, c);
    } else {
      CutOfBlock(alerts, front, block, back, k, c);
      if k > 0 { LastOfCut(front, block, back, k, c); }
    }
  }

  lemma CutOfNoBlock(alerts: set<AlertType>, front: seq<Op>, back: seq<Op>, k: nat, c: Color)
    requires !Both(alerts, c) && Silent(front, c) && OpensNone(back, c) && k <= |front + back|
    ensures !Both(ApplyAll(alerts, (front + back)[..k], true), c)
    ensures k > 0 ==> !((front + back)[k - 1].Open? && About((front + back)[k - 1], c))
  {
    var p := front + back;
    assert OpensNone(p, c);
    assert OpensNone(p[..k], c);
    OnlyOpeningsOpen(alerts, p[..k], c);
  }

  lemma LastOfCut(front: seq<Op>, block: seq<Op>, back: seq<Op>, k: nat, c: Color)
    requires Silent(front, c) && OpensNone(back, c) && 0 < k <= |front| + 2 + |back|
    requires block != [] && IsBlock(block, c)
    ensures var op := (front + (block + back))[k - 1];
            op.Open? && About(op, c) <==> k == |front| + 1 && block[0].Open?
    ensures k == |front| + 1 ==> (front + (block + back))[k - 1] == block[0]
  {
    var op := (front + (block + back))[k - 1];
    assert op == if k <= |front| then front[k - 1] else if k <= |front| + 2 then block[k - 1 - |front|] else back[k - 3 - |front|];
  }

  lemma CutRun(alerts: set<AlertType>, e: Evaluation, k: nat)
    requires k < |Program(e.reading, e.warning, e.critical)|
    ensures var p := Program(e.reading, e.warning, e.critical);
            var b := Run(Started(alerts, [e]), seq(k, _ => Statement(0, true)) + [Fault(0)]);
            AllDone(b) && b.alerts == ApplyAll(alerts, p[..k], true)
  {
    hide Program;
    var p := Program(e.reading, e.warning, e.critical);
    var start := Started(alerts, [e]);
    assert start.pending == [Running(None, p)];
    RunsStatements(alerts, None, p, k);
    SplitRun(start, seq(k, _ => Statement(0, true)), [Fault(0)]);
    assert [Fault(0)][1..] == [];
  }

  lemma {:induction false} RunsStatements(alerts: set<AlertType>, last: Option<Op>, p: seq<Op>, n: nat)
    requires n <= |p|
    ensures Run(Batch(alerts, [Running(last, p)], []), seq(n, _ => Statement(0, true)))
         == Batch(ApplyAll(alerts, p[..n], true), [Running(if n == 0 then last else Some(p[n - 1]), p[n..])], [])
    decreases n
  {
    if n > 0 {
      assert seq(n, _ => Statement(0, true))[1..] == seq(n - 1, _ => Statement(0, true));
      RunsStatements(Apply(alerts, p[0], true), Some(p[0]), p[1..], n - 1);
      assert p[..n][1..] == p[1..][..n - 1];
      assert Step(Batch(alerts, [Running(last, p)], []), Statement(0, true))
             == Batch(Apply(alerts, p[0], true), [Running(Some(p[0]), p[1..])], []);
    }
  }

  lemma {:induction false} SplitRun(b: Batch, p: seq<Event>, q: seq<Event>)
    ensures Run(b, p + q) == Run(Run(b, p), q)
    decreases |p|
  {
    if p == [] {
      assert p + q == q;
    } else {
      assert (p + q)[1..] == p[1..] + q;
      SplitRun(Step(b, p[0]), p[1..], q);
    }
  }

  /** Such a failure, concretely: black falls from low to critical and the statement after the opening is lost. */
  lemma LostResolveLeavesBoth()
    ensures var r := Reading(None, Some(5), None, None, None, false);
            var b := Run(Started({Low(Black)}, [Evaluation(r, 20, 10)]),
                         seq(8, _ => Statement(0, true)) + [Fault(0)]);
            AllDone(b) && Both(b.alerts, Black)
  {
    var r := Reading(None, Some(5), None, None, None, false);
    var p := Program(r, 20, 10);
    ResidualIsSix();
    assert ColorsProgram(r, [Black], 20, 10) == [Open(Critical(Black)), Resolve(Low(Black))] by {
      assert [Black][1..] == [];
    }
    assert p == [Resolve(DeviceOffline), Resolve(Low(Cyan)), Resolve(Critical(Cyan)), Resolve(Low(Magenta)), Resolve(Critical(Magenta)),
                 Resolve(Low(Yellow)), Resolve(Critical(Yellow)), Open(Critical(Black)), Resolve(Low(Black))];
    CutLeavesBothIff({Low(Black)}, r, 20, 10, 8, Black);
  }
}
