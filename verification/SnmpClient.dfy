/**
 * The SNMP client: batched GETs behind a cache, and credential negotiation
 * (agent/src/capture/transport/snmp.ts).
 *
 * The device and the SNMP library are inputs: what a GET of given OIDs brings back, and what each
 * credential's probe brings back and how long it takes.
 */
module SnmpClient {
  import opened Wrappers

  const GET_BATCH := 16

  type Oid = string

  datatype Value = Number(n: int) | Text(s: string)

  /** `null` is None. */
  type Scalar = Option<Value>

  // ---- what the library calls back with ----

  /** A varbind that carries an error is None. `transport` is what the source reads off the error's message. */
  datatype Wire = Throws | Failed(transport: bool) | Varbinds(vbs: seq<Option<Value>>)

  datatype Received = Received(values: seq<Scalar>, responded: bool, failed: bool)

  /** rawGet's callback for a request of `n` OIDs: no varbinds at all count as no response, missing ones as null. */
  function Receive(w: Wire, n: nat): Received {
    match w
    case Throws => Received(seq(n, _ => None), false, true)
    case Failed(transport) => Received(seq(n, _ => None), !transport, transport)
    case Varbinds(vbs) =>
      if vbs == [] then Received(seq(n, _ => None), false, true)
      else Received(seq(n, i requires 0 <= i < n => if i < |vbs| then vbs[i] else None), true, false)
  }

  // ---- a device with fixed answers ----

  /** A missing OID is an error of its own varbind, or of the whole request; a silent device times out. */
  datatype Device = PerVarbind(answers: map<Oid, Value>) | WholePdu(answers: map<Oid, Value>) | Silent
  {
    predicate Responds() {
      PerVarbind? || WholePdu?
    }
  }

  function WireOf(d: Device, oids: seq<Oid>): Wire {
    if d.Silent? then Failed(true)
    else if d.WholePdu? && exists i | 0 <= i < |oids| :: oids[i] !in d.answers then Failed(false)
    else Varbinds(seq(|oids|, i requires 0 <= i < |oids| => Answer(d, oids[i])))
  }

  /** What a GET of the single OID yields. */
  function Answer(d: Device, oid: Oid): Scalar {
    if d.Responds() && oid in d.answers then Some(d.answers[oid]) else None
  }

  /** One-OID requests are the meaning everything else is measured against. */
  lemma SingleGetIsAnswer(d: Device, oid: Oid)
    ensures Receive(WireOf(d, [oid]), 1) == Received([Answer(d, oid)], d.Responds(), !d.Responds())
  {
    if d.WholePdu? && oid !in d.answers {
      assert [oid][0] !in d.answers;
    }
  }

  /** A larger request brings the same answers, or else a device that responded refused all of it. */
  lemma BatchIsAnswers(d: Device, batch: seq<Oid>)
    requires batch != []
    ensures var r := Receive(WireOf(d, batch), |batch|);
            && |r.values| == |batch| && r.responded == d.Responds() && r.failed == !d.Responds()
            && (r.values == seq(|batch|, k requires 0 <= k < |batch| => Answer(d, batch[k]))
                || (r.responded && |batch| > 1 && forall k | 0 <= k < |batch| :: r.values[k] == None))
  {
    if |batch| == 1 {
      assert batch == [batch[0]];
      SingleGetIsAnswer(d, batch[0]);
    }
  }

  /** The device as a client sees it: without a session it might as well be silent. */
  function Seen(d: Device, session: Option<nat>): Device {
    if session.Some? then d else Silent
  }

  /** What a negotiation leaves in the cache. */
  function Seeded(probes: seq<Probe>, session: Option<nat>): map<Oid, Scalar> {
    if session.Some? && session.value < |probes| && probes[session.value].reply.Answered? && probes[session.value].reply.value.Some?
    then map[PROBE_OID := probes[session.value].reply.value.value] else map[]
  }

  /** The cache after a client's first request, apart from that request's own answers. */
  function Known(was: bool, before: map<Oid, Scalar>, probes: seq<Probe>, session: Option<nat>): map<Oid, Scalar> {
    if was then before else before + Seeded(probes, session)
  }

  function Asked(d: Device, session: Option<nat>, base: map<Oid, Scalar>, oids: seq<Oid>): map<Oid, Scalar> {
    if Seen(d, session).Responds() then base + AnswersOf(Seen(d, session), oids) else base
  }

  /** The probe of a credential that works brings the device's own answer. */
  ghost predicate ProbesAgree(d: Device, probes: seq<Probe>) {
    forall i | 0 <= i < |probes| && probes[i].reply.Answered? && probes[i].reply.value.Some? ::
      probes[i].reply.value.value == Answer(d, PROBE_OID)
  }

  /** The session is that of the credential a negotiation picks. */
  ghost predicate IsPick(probes: seq<Probe>, session: Option<nat>) {
    exists n :: StopsAfter(probes, n) && session == Picked(probes, n)
  }

  class SnmpClient {
    var cache: map<Oid, Scalar>
    var failures: nat
    var forcedUnreachable: bool
    var negotiationFailed: bool
    var activeCredential: Option<nat>
    /** Whether `ensureSession` has run, and the session it got. */
    var negotiated: bool
    var session: Option<nat>

    constructor ()
      ensures Valid() && cache == map[] && failures == 0 && !forcedUnreachable && !negotiated && activeCredential == None
    {
      cache, failures, forcedUnreachable, negotiationFailed, activeCredential := map[], 0, false, false, None;
      negotiated, session := false, None;
    }

    /** Nothing is cached and nothing has failed before the negotiation; it failed if it left no session. */
    ghost predicate Valid()
      reads this
    {
      && (!negotiated ==> session.None? && cache == map[] && failures == 0)
      && (negotiationFailed <==> negotiated && session.None?)
    }

    predicate Unreachable()
      reads this
    {
      forcedUnreachable || negotiationFailed || (failures >= 1 && cache == map[])
    }

    ghost predicate Agrees(d: Device)
      reads this
    {
      forall o | o in cache :: cache[o] == Answer(d, o)
    }

    /** A request has been made: there is or is not a session, by a negotiation unless there was one before. */
    ghost predicate Settled(was: bool, session0: Option<nat>, probes: seq<Probe>)
      reads this
    {
      negotiated && Valid() && if was then session == session0 else IsPick(probes, session)
    }

    method EnsureSession(probes: seq<Probe>)
      requires Valid()
      modifies this`cache, this`failures, this`negotiationFailed, this`activeCredential, this`negotiated, this`session
      ensures Settled(old(negotiated), old(session), probes) && cache == Known(old(negotiated), old(cache), probes, session)
      ensures old(negotiated) ==> failures == old(failures)
    {
      if negotiated {
        return;
      }
      var sessions, shut, elapsed;
      ghost var looked;
      session, sessions, shut, elapsed, looked := Negotiate(probes);
      negotiated := true;
    }

    /** rawGet. */
    method DoRawGet(d: Device, probes: seq<Probe>, oids: seq<Oid>) returns (values: seq<Scalar>, responded: bool)
      requires Valid() && oids != []
      modifies this`cache, this`failures, this`negotiationFailed, this`activeCredential, this`negotiated, this`session
      ensures Settled(old(negotiated), old(session), probes) && cache == Known(old(negotiated), old(cache), probes, session)
      ensures session.None? ==> values == seq(|oids|, _ => None) && !responded
      ensures session.Some? ==>
                var r := Receive(WireOf(d, oids), |oids|); values == r.values && responded == r.responded
      ensures session.Some? && !responded ==> failures >= 1
      ensures old(negotiated) && session.Some? ==>
                failures == old(failures) + if Receive(WireOf(d, oids), |oids|).failed then 1 else 0
    {
      EnsureSession(probes);
      if session.None? {
        return seq(|oids|, _ => None), false;
      }
      var r := Receive(WireOf(d, oids), |oids|);
      BatchIsAnswers(d, oids);
      if r.failed {
        failures := failures + 1;
      }
      values, responded := r.values, r.responded;
    }

    /**
     * Against a device with fixed answers, whether it fails varbind by varbind or request by request, and from
     * the first call on, which negotiates: every OID gets its cached value, or else what a GET of that OID alone
     * would bring; the cache gains exactly the OIDs asked for and what a negotiation of this call seeded. A client
     * that counts the host as unreachable asks for nothing.
     */
    method GetMany(d: Device, probes: seq<Probe>, oids: seq<Oid>) returns (out: seq<Scalar>)
      requires Valid()
      modifies this`cache, this`failures, this`negotiationFailed, this`activeCredential, this`negotiated, this`session
      ensures Valid() && |out| == |oids|
      ensures forall i | 0 <= i < |oids| ::
                out[i] == if old(forcedUnreachable) then None
                          else if oids[i] in old(cache) then old(cache)[oids[i]]
                          else if old(Unreachable()) then None
                          else Answer(Seen(d, session), oids[i])
      ensures old(Agrees(d)) && ProbesAgree(d, probes) ==> Agrees(d)
      ensures forall o | o in old(cache) :: o in cache && cache[o] == old(cache)[o]
      ensures cache.Keys == old(cache).Keys
                            + (if Seen(d, session).Responds() && !old(Unreachable()) then set o | o in oids else {})
                            + (if !old(negotiated) && negotiated then Seeded(probes, session).Keys else {})
      ensures old(negotiated) ==> negotiated && session == old(session)
      ensures !old(negotiated) ==> (negotiated <==> oids != [] && !old(Unreachable()))
      ensures !old(negotiated) && negotiated ==> IsPick(probes, session)
      ensures Seen(d, session).Responds() && !old(Unreachable()) ==> !Unreachable()
      ensures oids != [] && cache == map[] ==> Unreachable()
    {
      hide IsPick, Answer, Pending;
      out := seq(|oids|, _ => None);
      if forcedUnreachable {
        return;
      }
      ghost var start, stopped := cache, Unreachable();
      var pending: seq<nat>;
      out, pending := FromCache(oids);
      PendingIsSome(oids, cache, pending);
      ghost var s: nat;
      out, s := FetchPending(d, probes, oids, pending, out);
      Finished(Seen(d, session), oids, start, pending, s, out, stopped);
    }

    /** The batch loop; `asked` is how many of the pending places it got to. */
    method FetchPending(d: Device, probes: seq<Probe>, oids: seq<Oid>, pending: seq<nat>, out0: seq<Scalar>)
      returns (out: seq<Scalar>, ghost asked: nat)
      requires Valid() && !forcedUnreachable && Filled(Silent, oids, cache, pending, 0, out0)
      modifies this`cache, this`failures, this`negotiationFailed, this`activeCredential, this`negotiated, this`session
      ensures Valid() && Filled(Seen(d, session), oids, old(cache), pending, asked, out)
      ensures old(Unreachable()) ==> asked == 0
      ensures asked < |pending| ==> old(Unreachable()) || !Seen(d, session).Responds()
      ensures asked == 0 ==> cache == old(cache) && negotiated == old(negotiated) && session == old(session)
      ensures asked == 0 ==> Unreachable() == old(Unreachable())
      ensures asked == 0 && !old(Unreachable()) ==> pending == []
      ensures asked > 0 ==> Settled(old(negotiated), old(session), probes) && cache == Asked(d, session, Known(old(negotiated), old(cache), probes, session), Named(oids, pending[..asked]))
      ensures asked > 0 && Seen(d, session).Responds() ==> !Unreachable()
      ensures asked > 0 && cache == map[] ==> Unreachable()
    {
      hide AnswersOf, IsPick, Asked, Named, Answer, Seeded;
      ghost var start, stopped := cache, Unreachable();
      out := out0;
      var s := 0;
      while s < |pending|
        invariant s <= |pending| && Valid() && forcedUnreachable == old(forcedUnreachable)
        invariant Filled(Seen(d, session), oids, start, pending, s, out)
        invariant stopped ==> s == 0
        invariant s == 0 ==> cache == start && negotiated == old(negotiated) && session == old(session)
        invariant s == 0 ==> Unreachable() == stopped
        invariant s > 0 ==> Settled(old(negotiated), old(session), probes) && cache == Asked(d, session, Known(old(negotiated), old(cache), probes, session), Named(oids, pending[..s]))
        invariant s > 0 && Seen(d, session).Responds() ==> !Unreachable()
        invariant s > 0 && cache == map[] ==> Unreachable()
        decreases |pending| - s
      {
        if Unreachable() {
          break;
        }
        var end := if s + GET_BATCH < |pending| then s + GET_BATCH else |pending|;
        out := FetchBatch(d, probes, oids, start, pending, s, end, out);
        AskedGrows(d, session, Known(old(negotiated), old(cache), probes, session), oids, pending, s, end);
        s := end;
      }
      asked := s;
    }

    /** One turn of the batch loop, with its places filled in. */
    method FetchBatch(d: Device, probes: seq<Probe>, oids: seq<Oid>, ghost start: map<Oid, Scalar>, pending: seq<nat>,
                      s: nat, end: nat, out0: seq<Scalar>)
      returns (out: seq<Scalar>)
      requires Valid() && s < end <= |pending| && Filled(Seen(d, session), oids, start, pending, s, out0)
      requires s > 0 ==> negotiated
      modifies this`cache, this`failures, this`negotiationFailed, this`activeCredential, this`negotiated, this`session
      ensures Settled(old(negotiated), old(session), probes) && Filled(Seen(d, session), oids, start, pending, end, out)
      ensures cache == Asked(d, session, Known(old(negotiated), old(cache), probes, session), Named(oids, pending[s..end]))
      ensures Seen(d, session).Responds() ==> cache != map[]
      ensures cache == map[] ==> Unreachable()
    {
      hide AnswersOf, Answer, IsPick, Known;
      var values := GetBatch(d, probes, Named(oids, pending[s..end]));
      out := Scatter(Seen(d, session), oids, start, pending, s, end, values, out0);
    }

    /**
     * Credentials are tried in the order given, `probes[i]` being what the i-th brings back; the first
     * `looked` of them get a turn. `NegotiationIsRight` says what that comes to.
     */
    method Negotiate(probes: seq<Probe>) returns (picked: Option<nat>, sessions: seq<nat>, shut: seq<nat>, elapsed: nat, ghost looked: nat)
      modifies this`cache, this`failures, this`negotiationFailed, this`activeCredential
      ensures StopsAfter(probes, looked)
      ensures picked == Picked(probes, looked)
      ensures sessions == Opened(probes, looked) && elapsed == Elapsed(probes, looked)
      ensures shut == Opened(probes, if picked.Some? then looked - 1 else looked)
      ensures failures == old(failures) + Unanswered(probes, looked)
      ensures negotiationFailed == (old(negotiationFailed) || picked.None?)
      ensures activeCredential == if picked.Some? then picked else old(activeCredential)
      ensures cache == if picked.Some? && probes[picked.value].reply.value.Some?
                       then old(cache)[PROBE_OID := probes[picked.value].reply.value.value] else old(cache)
    {
      picked, sessions, shut, elapsed, looked := None, [], [], 0, 0;
      var i := 0;
      while i < |probes|
        invariant i == looked && SoFar(probes, i) && elapsed == Elapsed(probes, i)
        invariant i > 0 ==> GoesOn(probes[i - 1])
        invariant sessions == shut == Opened(probes, i) && picked == None
        invariant failures == old(failures) + Unanswered(probes, i)
        invariant cache == old(cache) && negotiationFailed == old(negotiationFailed) && activeCredential == old(activeCredential)
      {
        if elapsed > NEGOTIATE_BUDGET_MS {
          break;
        }
        var probe := probes[i];
        looked := looked + 1;
        if probe.reply.Malformed? {
          i := i + 1;
          continue;
        }
        sessions := sessions + [i];
        elapsed := elapsed + Spent(i, probe);
        if probe.reply.Answered? {
          if probe.reply.value.Some? {
            cache := cache[PROBE_OID := probe.reply.value.value];
          }
          activeCredential, picked := Some(i), Some(i);
          return;
        }
        shut := shut + [i];
        if probe.reply.NoResponse? {
          failures := failures + 1;
          if !probe.hostAlive {
            negotiationFailed := true;
            return;
          }
        }
        i := i + 1;
      }
      negotiationFailed := true;
    }

    /** The places the cache answers, and the places left to ask for. */
    method FromCache(oids: seq<Oid>) returns (out: seq<Scalar>, pending: seq<nat>)
      ensures |out| == |oids| && Pending(oids, cache, pending)
      ensures forall i | 0 <= i < |oids| :: out[i] == if oids[i] in cache then cache[oids[i]] else None
    {
      out, pending := seq(|oids|, _ => None), [];
      for i := 0 to |oids|
        invariant |out| == |oids|
        invariant forall j | 0 <= j < |oids| :: out[j] == if j < i && oids[j] in cache then cache[oids[j]] else None
        invariant forall j | 0 <= j < |pending| :: pending[j] < i && oids[pending[j]] !in cache
        invariant forall j, k | 0 <= j < k < |pending| :: pending[j] != pending[k]
        invariant forall j | 0 <= j < i && oids[j] !in cache :: j in pending
      {
        if oids[i] in cache {
          out := out[i := cache[oids[i]]];
        } else {
          pending := pending + [i];
        }
      }
    }

    /** A request, and one OID at a time when the device refused all of it. */
    method GetBatch(d: Device, probes: seq<Probe>, batch: seq<Oid>) returns (values: seq<Scalar>)
      requires Valid() && batch != []
      modifies this`cache, this`failures, this`negotiationFailed, this`activeCredential, this`negotiated, this`session
      ensures Settled(old(negotiated), old(session), probes)
      ensures |values| == |batch| && forall k | 0 <= k < |batch| :: values[k] == Answer(Seen(d, session), batch[k])
      ensures cache == Asked(d, session, Known(old(negotiated), old(cache), probes, session), batch)
      ensures Seen(d, session).Responds() ==> batch[0] in cache
      ensures cache == map[] ==> Unreachable()
    {
      hide WireOf, Receive, IsPick;
      var responded: bool;
      values, responded := DoRawGet(d, probes, batch);
      BatchIsAnswers(d, batch);
      var allNull := forall k | 0 <= k < |values| :: values[k] == None;
      ghost var known := cache;
      if responded && allNull && |batch| > 1 {
        values := RetryOneByOne(d, probes, batch);
      } else if responded {
        StoreBatch(d, batch, values);
      }
      assert responded <==> Seen(d, session).Responds();
      assert responded ==> cache == known + AnswersOf(d, batch);
      assert batch[0] in AnswersOf(Seen(d, session), batch);
    }

    /** The values of a request go into the cache. */
    method StoreBatch(ghost d: Device, batch: seq<Oid>, values: seq<Scalar>)
      requires |values| == |batch| && forall k | 0 <= k < |batch| :: values[k] == Answer(d, batch[k])
      modifies this`cache
      ensures cache == old(cache) + AnswersOf(d, batch)
    {
      hide AnswersOf;
      var k := 0;
      NothingAnswered(d, old(cache), batch);
      while k < |batch|
        invariant k <= |batch| && cache == old(cache) + AnswersOf(d, batch[..k])
      {
        cache := cache[batch[k] := values[k]];
        AnswersStep(d, old(cache), batch, k);
        k := k + 1;
      }
      assert batch[..k] == batch;
    }

    method RetryOneByOne(d: Device, probes: seq<Probe>, batch: seq<Oid>) returns (values: seq<Scalar>)
      requires Valid() && negotiated && session.Some? && d.Responds()
      modifies this`cache, this`failures, this`negotiationFailed, this`activeCredential, this`negotiated, this`session
      ensures Valid() && negotiated && session == old(session)
      ensures |values| == |batch| && forall k | 0 <= k < |batch| :: values[k] == Answer(d, batch[k])
      ensures cache == old(cache) + AnswersOf(d, batch)
    {
      hide WireOf, Receive;
      values := [];
      var k := 0;
      while k < |batch|
        invariant k <= |batch| && |values| == k && forall j | 0 <= j < k :: values[j] == Answer(d, batch[j])
        invariant cache == old(cache) + AnswersOf(d, batch[..k])
        invariant Valid() && negotiated && session == old(session)
      {
        var one, _ := DoRawGet(d, probes, [batch[k]]);
        SingleGetIsAnswer(d, batch[k]);
        cache := cache[batch[k] := one[0]];
        AnswersStep(d, old(cache), batch, k);
        values := values + [one[0]];
        k := k + 1;
      }
      assert batch[..k] == batch;
    }
  }

  function AnswersOf(d: Device, oids: seq<Oid>): map<Oid, Scalar> {
    map o | o in oids :: Answer(d, o)
  }

  lemma NothingAnswered(d: Device, start: map<Oid, Scalar>, batch: seq<Oid>)
    ensures start + AnswersOf(d, batch[..0]) == start
  {
  }

  lemma AnswersStep(d: Device, start: map<Oid, Scalar>, batch: seq<Oid>, k: nat)
    requires k < |batch|
    ensures (start + AnswersOf(d, batch[..k]))[batch[k] := Answer(d, batch[k])] == start + AnswersOf(d, batch[..k + 1])
  {
    assert batch[..k + 1] == batch[..k] + [batch[k]];
  }

  /** The OIDs at some places of a request. */
  function Named(oids: seq<Oid>, places: seq<nat>): seq<Oid>
    requires forall j | 0 <= j < |places| :: places[j] < |oids|
  {
    seq(|places|, j requires 0 <= j < |places| => oids[places[j]])
  }

  lemma NamedGrows(d: Device, start: map<Oid, Scalar>, oids: seq<Oid>, pending: seq<nat>, s: nat, end: nat)
    requires s <= end <= |pending| && forall j | 0 <= j < |pending| :: pending[j] < |oids|
    ensures start + AnswersOf(d, Named(oids, pending[..s])) + AnswersOf(d, Named(oids, pending[s..end]))
            == start + AnswersOf(d, Named(oids, pending[..end]))
  {
    var a, b, c := Named(oids, pending[..s]), Named(oids, pending[s..end]), Named(oids, pending[..end]);
    assert c == a + b;
  }

  lemma AskedGrows(d: Device, session: Option<nat>, base: map<Oid, Scalar>, oids: seq<Oid>, pending: seq<nat>, s: nat, end: nat)
    requires s <= end <= |pending| && forall j | 0 <= j < |pending| :: pending[j] < |oids|
    ensures Asked(d, session, Asked(d, session, base, Named(oids, pending[..s])), Named(oids, pending[s..end]))
         == Asked(d, session, base, Named(oids, pending[..end]))
    ensures s == 0 ==> Named(oids, pending[s..end]) == Named(oids, pending[..end])
  {
    hide AnswersOf;
    NamedGrows(Seen(d, session), base, oids, pending, s, end);
  }

  /** The places of a request that the cache cannot answer, each once. */
  ghost predicate Pending(oids: seq<Oid>, start: map<Oid, Scalar>, pending: seq<nat>) {
    && (forall j | 0 <= j < |pending| :: pending[j] < |oids| && oids[pending[j]] !in start)
    && (forall j, k | 0 <= j < k < |pending| :: pending[j] != pending[k])
    && (forall i | 0 <= i < |oids| && oids[i] !in start :: i in pending)
  }

  /** The first `s` pending places are filled in; the cached places were, and the others are null. */
  ghost predicate Filled(d: Device, oids: seq<Oid>, start: map<Oid, Scalar>, pending: seq<nat>, s: nat, out: seq<Scalar>) {
    && Pending(oids, start, pending) && |out| == |oids| && s <= |pending|
    && (forall i | 0 <= i < |oids| && oids[i] in start :: out[i] == start[oids[i]])
    && (forall j | 0 <= j < |pending| :: out[pending[j]] == if j < s then Answer(d, oids[pending[j]]) else None)
  }

  method Scatter(ghost d: Device, ghost oids: seq<Oid>, ghost start: map<Oid, Scalar>, pending: seq<nat>, s: nat, end: nat,
                 values: seq<Scalar>, out0: seq<Scalar>)
    returns (out: seq<Scalar>)
    requires Filled(d, oids, start, pending, s, out0) && s <= end <= |pending| && |values| == end - s
    requires forall k | 0 <= k < |values| :: values[k] == Answer(d, oids[pending[s + k]])
    ensures Filled(d, oids, start, pending, end, out)
  {
    out := out0;
    for k := 0 to |values|
      invariant Filled(d, oids, start, pending, s + k, out)
    {
      FillOne(d, oids, start, pending, s + k, out);
      out := out[pending[s + k] := values[k]];
    }
  }

  lemma PendingIsSome(oids: seq<Oid>, start: map<Oid, Scalar>, pending: seq<nat>)
    requires Pending(oids, start, pending)
    ensures start == map[] ==> (pending == [] <==> oids == [])
  {
    assert oids != [] && start == map[] ==> 0 in pending;
    assert pending != [] ==> pending[0] < |oids|;
  }

  lemma FillOne(d: Device, oids: seq<Oid>, start: map<Oid, Scalar>, pending: seq<nat>, s: nat, out: seq<Scalar>)
    requires Filled(d, oids, start, pending, s, out) && s < |pending|
    ensures Filled(d, oids, start, pending, s + 1, out[pending[s] := Answer(d, oids[pending[s]])])
  {
  }

  lemma Finished(d: Device, oids: seq<Oid>, start: map<Oid, Scalar>, pending: seq<nat>, s: nat, out: seq<Scalar>, stopped: bool)
    requires Filled(d, oids, start, pending, s, out)
    requires stopped ==> s == 0
    requires s < |pending| ==> stopped || !d.Responds()
    ensures forall i | 0 <= i < |oids| ::
              out[i] == if oids[i] in start then start[oids[i]] else if stopped then None else Answer(d, oids[i])
    ensures !stopped && d.Responds() ==>
              start.Keys + (set o | o in Named(oids, pending[..s])) == start.Keys + (set o | o in oids)
    ensures stopped ==> Named(oids, pending[..s]) == []
  {
    var asked := Named(oids, pending[..s]);
    forall i | 0 <= i < |oids| && oids[i] !in start
      ensures out[i] == if stopped then None else Answer(d, oids[i])
      ensures d.Responds() && !stopped ==> oids[i] in asked
    {
      var j :| 0 <= j < |pending| && pending[j] == i;
      if j < s {
        assert asked[j] == oids[i];
      }
    }
  }

  // ---- negotiation ----

  const SNMP_TIMEOUT_MS := 3000
  const SNMP_RETRIES := 1
  const NEGOTIATE_NEXT_TIMEOUT_MS := 1500
  const NEGOTIATE_NEXT_RETRIES := 0
  const NEGOTIATE_BUDGET_MS := 12000
  const PROBE_OID: Oid := "1.3.6.1.2.1.1.2.0"

  /** `Answered` carries the value of the probed OID unless the device has none. */
  datatype Reply = Malformed | Answered(value: Option<Scalar>) | AuthRejected | NoResponse

  /** `hostAlive` is that flag of the client when the probe came back. */
  datatype Probe = Probe(reply: Reply, ms: nat, hostAlive: bool)

  /** The library gives a request up after its timeout and retries; a session never opened costs nothing. */
  function Spent(i: nat, p: Probe): nat {
    var window := if i == 0 then SNMP_TIMEOUT_MS * (SNMP_RETRIES + 1) else NEGOTIATE_NEXT_TIMEOUT_MS * (NEGOTIATE_NEXT_RETRIES + 1);
    if p.reply.Malformed? then 0 else if p.ms < window then p.ms else window
  }

  function Elapsed(probes: seq<Probe>, n: nat): nat
    requires n <= |probes|
  {
    if n == 0 then 0 else Elapsed(probes, n - 1) + Spent(n - 1, probes[n - 1])
  }

  function Opened(probes: seq<Probe>, n: nat): seq<nat>
    requires n <= |probes|
  {
    if n == 0 then [] else Opened(probes, n - 1) + if probes[n - 1].reply.Malformed? then [] else [n - 1]
  }

  function Unanswered(probes: seq<Probe>, n: nat): nat
    requires n <= |probes|
  {
    if n == 0 then 0 else Unanswered(probes, n - 1) + if probes[n - 1].reply.NoResponse? then 1 else 0
  }

  /** After this probe the next credential gets its turn, the budget permitting. */
  predicate GoesOn(p: Probe) {
    !p.reply.Answered? && (p.reply.NoResponse? ==> p.hostAlive)
  }

  ghost predicate SoFar(probes: seq<Probe>, n: nat) {
    && n <= |probes|
    && (n > 0 ==> Elapsed(probes, n - 1) <= NEGOTIATE_BUDGET_MS)
    && (forall j | 0 <= j < n - 1 :: GoesOn(probes[j]))
  }

  /** The loop looks at `n` credentials: each gets its turn, and then it is cut off, answered or out of list. */
  ghost predicate StopsAfter(probes: seq<Probe>, n: nat) {
    && SoFar(probes, n)
    && (n < |probes| ==> Elapsed(probes, n) > NEGOTIATE_BUDGET_MS || (n > 0 && !GoesOn(probes[n - 1])))
  }

  function Picked(probes: seq<Probe>, n: nat): (picked: Option<nat>)
    requires n <= |probes|
  {
    if n > 0 && probes[n - 1].reply.Answered? then Some(n - 1) else None
  }

  /** Credential `i` gets a turn: nobody before it ended the negotiation, and the budget is not used up. */
  ghost predicate Reached(probes: seq<Probe>, i: nat)
    requires i < |probes|
  {
    Elapsed(probes, i) <= NEGOTIATE_BUDGET_MS && forall j | 0 <= j < i :: GoesOn(probes[j])
  }

  /** What counts as a response: an error of the protocol, or varbinds, of which each missing one is null. */
  lemma WhatCounts(w: Wire, n: nat)
    ensures var r := Receive(w, n);
            && |r.values| == n
            && (r.responded <==> w == Failed(false) || (w.Varbinds? && |w.vbs| > 0))
            && (r.failed <==> !r.responded)
            && forall i | 0 <= i < n :: r.values[i] == if w.Varbinds? && i < |w.vbs| then w.vbs[i] else None
  {
  }

  /** What a turn costs: nothing if no session opened, else at most six seconds for the first and 1.5 for the others. */
  lemma TurnCost(probes: seq<Probe>, i: nat)
    requires i < |probes|
    ensures var cost := Elapsed(probes, i + 1) - Elapsed(probes, i);
            var window := if i == 0 then 6_000 else 1_500;
            && (probes[i].reply == Malformed ==> cost == 0)
            && (probes[i].reply != Malformed && probes[i].ms <= window ==> cost == probes[i].ms)
            && (probes[i].reply != Malformed && probes[i].ms > window ==> cost == window)
  {
  }

  lemma {:induction false} ElapsedGrows(probes: seq<Probe>, i: nat, j: nat)
    requires i <= j <= |probes|
    ensures Elapsed(probes, i) <= Elapsed(probes, j)
    decreases j - i
  {
    if i < j {
      ElapsedGrows(probes, i, j - 1);
    }
  }

  lemma ReachedIffLooked(probes: seq<Probe>, n: nat, i: nat)
    requires StopsAfter(probes, n) && i < |probes|
    ensures Reached(probes, i) <==> i < n
  {
    if n <= i {
      ElapsedGrows(probes, n, i);
    } else {
      ElapsedGrows(probes, i, n - 1);
    }
  }

  /**
   * The credential used is the first in order that answers with its turn not cut off; every session
   * opened except that one is closed; whatever the length of the list, the whole takes at most the
   * budget and one short timeout.
   */
  lemma NegotiationIsRight(probes: seq<Probe>, n: nat, i: nat)
    requires StopsAfter(probes, n) && i < |probes|
    ensures Picked(probes, n) == Some(i)
       <==> && probes[i].reply.Answered? && Elapsed(probes, i) <= 12_000
            && forall j | 0 <= j < i ::
                 || probes[j].reply == Malformed || probes[j].reply == AuthRejected
                 || (probes[j].reply == NoResponse && probes[j].hostAlive)
    ensures Reached(probes, i) <==> i < n
    ensures Picked(probes, n).Some? ==> Opened(probes, n) == Opened(probes, n - 1) + [Picked(probes, n).value]
    ensures Elapsed(probes, n) <= 13_500
  {
    ReachedIffLooked(probes, n, i);
  }

  /** Without any sign of life at most one credential is ever waited for in vain. */
  lemma {:induction false} UnprovenHostCostsOneTimeout(probes: seq<Probe>, n: nat)
    requires SoFar(probes, n) && forall i | 0 <= i < |probes| :: !probes[i].hostAlive
    ensures Unanswered(probes, n) <= 1
    ensures Unanswered(probes, n) == 1 ==> probes[n - 1].reply.NoResponse?
  {
    if n > 0 {
      UnprovenHostCostsOneTimeout(probes, n - 1);
      assert n > 1 ==> GoesOn(probes[n - 2]);
    }
  }

  // ---- the order credentials are tried in ----

  function FindIndex(ids: seq<string>, id: string, from: nat := 0): (k: nat)
    requires from <= |ids|
    ensures from <= k <= |ids| && (k < |ids| ==> ids[k] == id)
    ensures forall j | from <= j < k :: ids[j] != id
    decreases |ids| - from
  {
    if from == |ids| || ids[from] == id then from else FindIndex(ids, id, from + 1)
  }

  /** Credentials by id; the preferred one, when it is listed, moves to the front. */
  function OrderedCredentials(ids: seq<string>, preferred: Option<string>): seq<string> {
    if preferred.None? || preferred.value == "" then ids
    else
      var idx := FindIndex(ids, preferred.value);
      if idx == 0 || idx == |ids| then ids else [ids[idx]] + ids[..idx] + ids[idx + 1..]
  }

  /** Nothing is added, lost or tried twice; the preferred comes first; the others keep their order. */
  lemma OrderedIsAPermutation(ids: seq<string>, preferred: Option<string>)
    ensures var out := OrderedCredentials(ids, preferred);
            && multiset(out) == multiset(ids)
            && (preferred.Some? && preferred.value != "" && preferred.value in ids ==>
                  exists idx | 0 <= idx < |ids| ::
                    && ids[idx] == preferred.value && preferred.value !in ids[..idx]
                    && out[0] == preferred.value && out[1..] == ids[..idx] + ids[idx + 1..])
            && (preferred.Some? && preferred.value !in ids ==> out == ids)
  {
    if preferred.Some? && preferred.value != "" {
      var idx := FindIndex(ids, preferred.value);
      if idx < |ids| {
        assert ids == ids[..idx] + [ids[idx]] + ids[idx + 1..];
        var out := OrderedCredentials(ids, preferred);
        assert out == [ids[idx]] + (ids[..idx] + ids[idx + 1..]);
        assert out[1..] == ids[..idx] + ids[idx + 1..];
      }
    }
  }
}
