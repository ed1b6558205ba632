/**
 * The remote EWS proxy over several replicas (cloud/src/services/ewsProxyService.ts,
 * cloud/src/ws/redis-channels.ts, cloud/src/ws/handshake.ts).
 *
 * A portal request pushes a command to an agent, whose socket may live on another replica, and waits on
 * its own replica for the result. Results and disconnections travel over a bus that may delay, repeat
 * or lose a message; a wait also has a timer. Whoever removes the entry of `pending` settles the wait.
 */
module EwsProxy {
  type CommandId = nat
  type AgentId = nat

  datatype Outcome = Success(body: int) | AgentError(error: int) | Disconnected | TimedOut

  // ---- one replica ----

  /** The entries of `pending`, and what the promises that are no longer there were settled with. */
  datatype Replica = Replica(pending: map<CommandId, AgentId>, settled: map<CommandId, Outcome>)

  function Settle(r: Replica, c: CommandId, o: Outcome): Replica {
    if c in r.pending then Replica(r.pending - {c}, r.settled[c := o]) else r
  }

  function Wait(r: Replica, c: CommandId, a: AgentId): Replica {
    r.(pending := r.pending[c := a])
  }

  function Of(r: Replica, a: AgentId): set<CommandId> {
    set c | c in r.pending && r.pending[c] == a
  }

  function RejectAll(r: Replica, a: AgentId): Replica {
    var gone := Of(r, a);
    Replica(r.pending - gone, map c | c in r.settled.Keys + gone :: if c in gone then Disconnected else r.settled[c])
  }

  class EwsProxyService {
    var pending: map<CommandId, AgentId>
    var settled: map<CommandId, Outcome>

    function View(): Replica
      reads this
    {
      Replica(pending, settled)
    }

    constructor ()
      ensures View() == Replica(map[], map[])
    {
      pending, settled := map[], map[];
    }

    method WaitForResult(c: CommandId, a: AgentId)
      modifies this
      ensures View() == Wait(old(View()), c, a)
    {
      pending := pending[c := a];
    }

    /** The first to delete the entry decides; `settled` is what the promise of that entry got. */
    method SettleEntry(c: CommandId, o: Outcome)
      modifies this
      ensures View() == Settle(old(View()), c, o)
    {
      if c !in pending {
        return;
      }
      pending := pending - {c};
      settled := settled[c := o];
    }

    method RejectAllPendingForAgent(a: AgentId)
      modifies this
      ensures View() == RejectAll(old(View()), a)
    {
      ghost var start := View();
      var left := pending.Keys;
      while left != {}
        invariant left <= pending.Keys
        invariant forall c | c in pending && c !in left :: pending[c] != a
        invariant RejectAll(View(), a) == RejectAll(start, a)
        decreases left
      {
        var c :| c in left;
        left := left - {c};
        if pending[c] == a {
          ghost var before := View();
          SettleEntry(c, Disconnected);
          assert Of(before, a) == Of(View(), a) + {c};
        }
      }
      assert Of(View(), a) == {};
    }
  }

  // ---- the whole system ----

  datatype Message = ResultMsg(command: CommandId, outcome: Outcome) | DisconnectMsg(agent: AgentId)

  datatype Registered = Registered(replica: nat, agent: AgentId)

  /**
   * `sockets` are the agents connected to each replica; `pushes` and `bus`, everything ever published;
   * the rest is history: which agent a command was made for, which commands an agent has received, what
   * it answered, which agents dropped a connection, which timers ran out, which waits were registered.
   */
  datatype System = System(
    replicas: seq<Replica>,
    sockets: seq<set<AgentId>>,
    pushes: set<CommandId>,
    bus: set<Message>,
    madeFor: map<CommandId, AgentId>,
    received: set<CommandId>,
    answered: set<(CommandId, Outcome)>,
    dropped: set<AgentId>,
    expired: set<CommandId>,
    waits: map<CommandId, Registered>)

  datatype Event =
    | Connect(r: nat, a: AgentId)
    | Push(r: nat, c: CommandId, a: AgentId)
    | RelayPush(r: nat, c: CommandId)
    | Register(r: nat, c: CommandId)
    | Answer(r: nat, c: CommandId, o: Outcome, published: bool)
    | Deliver(r: nat, m: Message)
    | Disconnect(r: nat, a: AgentId, published: bool)
    | Timer(r: nat, c: CommandId)

  /** relayEwsResultLocally */
  function Relay(r: Replica, m: Message): Replica {
    match m
    case DisconnectMsg(a) => RejectAll(r, a)
    case ResultMsg(c, o) => Settle(r, c, o)
  }

  function Step(s: System, e: Event): System {
    if e.r >= |s.replicas| || |s.sockets| != |s.replicas| then s
    else
      match e
      case Connect(r, a) => s.(sockets := s.sockets[r := s.sockets[r] + {a}])
      case Push(r, c, a) =>
        // a command id is fresh when its command is made
        if c in s.madeFor then s
        else if a in s.sockets[r] then s.(madeFor := s.madeFor[c := a], received := s.received + {c})
        else s.(madeFor := s.madeFor[c := a], pushes := s.pushes + {c})
      case RelayPush(r, c) =>
        if c in s.pushes && c in s.madeFor && s.madeFor[c] in s.sockets[r] then s.(received := s.received + {c}) else s
      case Register(r, c) =>
        // the request that made the command waits for it, once
        if c !in s.madeFor || c in s.waits then s
        else s.(replicas := s.replicas[r := Wait(s.replicas[r], c, s.madeFor[c])], waits := s.waits[c := Registered(r, s.madeFor[c])])
      case Answer(r, c, o, published) =>
        if c !in s.received || !(o.Success? || o.AgentError?) then s
        else
          var t := s.(answered := s.answered + {(c, o)});
          if published then t.(bus := t.bus + {ResultMsg(c, o)})
          else t.(replicas := t.replicas[r := Relay(t.replicas[r], ResultMsg(c, o))])
      case Deliver(r, m) =>
        if m in s.bus then s.(replicas := s.replicas[r := Relay(s.replicas[r], m)]) else s
      case Disconnect(r, a, published) =>
        var t := s.(sockets := s.sockets[r := s.sockets[r] - {a}], dropped := s.dropped + {a},
                    replicas := s.replicas[r := RejectAll(s.replicas[r], a)]);
        if published then t.(bus := t.bus + {DisconnectMsg(a)}) else t
      case Timer(r, c) =>
        // a timer that was cleared does not run
        if c !in s.replicas[r].pending then s
        else s.(expired := s.expired + {c}, replicas := s.replicas[r := Settle(s.replicas[r], c, TimedOut)])
  }

  function Run(s: System, events: seq<Event>): System
    decreases |events|
  {
    if events == [] then s else Run(Step(s, events[0]), events[1..])
  }

  function Boot(n: nat): System {
    System(seq(n, _ => Replica(map[], map[])), seq(n, _ => {}), {}, {}, map[], {}, {}, {}, {}, map[])
  }

  // ---- invariants ----

  /** An outcome has a cause: an answer to this very command, a drop of its agent, or its timer. */
  ghost predicate Justified(s: System, c: CommandId, o: Outcome) {
    match o
    case Success(_) => (c, o) in s.answered
    case AgentError(_) => (c, o) in s.answered
    case Disconnected => c in s.waits && s.waits[c].agent in s.dropped
    case TimedOut => c in s.expired
  }

  /** A replica's pending entries are exactly its unsettled waits. */
  ghost predicate ReplicaOk(s: System, r: nat)
    requires r < |s.replicas|
  {
    var x := s.replicas[r];
    && (forall c :: c in x.pending <==> c in s.waits && s.waits[c].replica == r && c !in x.settled)
    && (forall c | c in x.pending :: x.pending[c] == s.waits[c].agent)
    && (forall c | c in x.settled :: c in s.waits && s.waits[c].replica == r && Justified(s, c, x.settled[c]))
  }

  ghost predicate Invariant(s: System) {
    && |s.sockets| == |s.replicas|
    && (forall r | 0 <= r < |s.replicas| :: ReplicaOk(s, r))
    && (forall c | c in s.waits :: c in s.madeFor && s.waits[c].agent == s.madeFor[c] && s.waits[c].replica < |s.replicas|)
    && (forall c | c in s.received :: c in s.madeFor)
    && (forall p | p in s.answered :: p.0 in s.received)
    && (forall m | m in s.bus && m.ResultMsg? :: (m.command, m.outcome) in s.answered && (m.outcome.Success? || m.outcome.AgentError?))
    && (forall m | m in s.bus && m.DisconnectMsg? :: m.agent in s.dropped)
  }

  /** Changing one replica by a justified relay keeps every replica right. */
  lemma RelayKeeps(s: System, r: nat, m: Message)
    requires Invariant(s) && r < |s.replicas|
    requires m.ResultMsg? ==> (m.command, m.outcome) in s.answered && (m.outcome.Success? || m.outcome.AgentError?)
    requires m.DisconnectMsg? ==> m.agent in s.dropped
    ensures Invariant(s.(replicas := s.replicas[r := Relay(s.replicas[r], m)]))
  {
    var t := s.(replicas := s.replicas[r := Relay(s.replicas[r], m)]);
    forall q | 0 <= q < |t.replicas|
      ensures ReplicaOk(t, q)
    {
      assert ReplicaOk(s, q);
    }
  }

  lemma HistoryKeeps(s: System, t: System)
    requires Invariant(s)
    requires t.replicas == s.replicas && t.waits == s.waits && |t.sockets| == |s.sockets|
    requires s.answered <= t.answered && s.dropped <= t.dropped && s.expired <= t.expired
    ensures forall r | 0 <= r < |t.replicas| :: ReplicaOk(t, r)
  {
    forall r | 0 <= r < |t.replicas|
      ensures ReplicaOk(t, r)
    {
      assert ReplicaOk(s, r);
    }
  }

  lemma RegisterKeeps(s: System, r: nat, c: CommandId)
    requires Invariant(s) && r < |s.replicas| && c in s.madeFor && c !in s.waits
    ensures Invariant(Step(s, Register(r, c)))
  {
    var t := Step(s, Register(r, c));
    forall q | 0 <= q < |t.replicas|
      ensures ReplicaOk(t, q)
    {
      assert ReplicaOk(s, q);
    }
  }

  lemma TimerKeeps(s: System, r: nat, c: CommandId)
    requires Invariant(s) && r < |s.replicas| && c in s.replicas[r].pending
    ensures Invariant(Step(s, Timer(r, c)))
  {
    var t := Step(s, Timer(r, c));
    forall q | 0 <= q < |t.replicas|
      ensures ReplicaOk(t, q)
    {
      assert ReplicaOk(s, q);
    }
  }

  lemma StepKeeps(s: System, e: Event)
    requires Invariant(s)
    ensures Invariant(Step(s, e))
  {
    hide ReplicaOk;
    if e.r < |s.replicas| {
      match e
      case Connect(r, a) => HistoryKeeps(s, Step(s, e));
      case Push(r, c, a) => HistoryKeeps(s, Step(s, e));
      case RelayPush(r, c) => HistoryKeeps(s, Step(s, e));
      case Register(r, c) => if c in s.madeFor && c !in s.waits { RegisterKeeps(s, r, c); }
      case Answer(r, c, o, published) =>
        if c in s.received && (o.Success? || o.AgentError?) {
          var t := s.(answered := s.answered + {(c, o)});
          HistoryKeeps(s, t);
          if published {
            HistoryKeeps(s, Step(s, e));
          } else {
            RelayKeeps(t, r, ResultMsg(c, o));
          }
        }
      case Deliver(r, m) => if m in s.bus { RelayKeeps(s, r, m); }
      case Disconnect(r, a, published) =>
        var t := s.(sockets := s.sockets[r := s.sockets[r] - {a}], dropped := s.dropped + {a});
        HistoryKeeps(s, t);
        RelayKeeps(t, r, DisconnectMsg(a));
        HistoryKeeps(t.(replicas := t.replicas[r := RejectAll(t.replicas[r], a)]), Step(s, e));
      case Timer(r, c) => if c in s.replicas[r].pending { TimerKeeps(s, r, c); }
    }
  }

  lemma {:induction false} RunKeeps(s: System, events: seq<Event>)
    requires Invariant(s)
    ensures Invariant(Run(s, events))
    decreases |events|
  {
    if events != [] {
      StepKeeps(s, events[0]);
      RunKeeps(Step(s, events[0]), events[1..]);
    }
  }

  // ---- the promises, over every run of any number of replicas ----

  /** `pending` of each replica holds exactly the waits registered there that are not settled. */
  lemma PendingIsExact(n: nat, events: seq<Event>, r: nat, c: CommandId)
    requires r < |Run(Boot(n), events).replicas|
    ensures var s := Run(Boot(n), events);
            c in s.replicas[r].pending <==> c in s.waits && s.waits[c].replica == r && c !in s.replicas[r].settled
  {
    RunKeeps(Boot(n), events);
    assert ReplicaOk(Run(Boot(n), events), r);
  }

  /** A wait is settled only on its own replica, and only by its own answer, its agent's drop or its timer. */
  lemma OutcomeIsItsOwn(n: nat, events: seq<Event>, r: nat, c: CommandId)
    requires r < |Run(Boot(n), events).replicas| && c in Run(Boot(n), events).replicas[r].settled
    ensures var s := Run(Boot(n), events);
            var o := s.replicas[r].settled[c];
            && c in s.waits && s.waits[c].replica == r
            && (o.Success? || o.AgentError? ==> (c, o) in s.answered && c in s.received && c in s.madeFor && s.madeFor[c] == s.waits[c].agent)
            && (o.Disconnected? ==> s.waits[c].agent in s.dropped)
            && (o.TimedOut? ==> c in s.expired)
  {
    RunKeeps(Boot(n), events);
    assert ReplicaOk(Run(Boot(n), events), r);
  }

  lemma SettledStays(s: System, e: Event, r: nat, c: CommandId)
    requires Invariant(s) && r < |s.replicas| && c in s.replicas[r].settled
    ensures var t := Step(s, e);
            r < |t.replicas| && c in t.replicas[r].settled && t.replicas[r].settled[c] == s.replicas[r].settled[c]
  {
    assert ReplicaOk(s, r);
  }

  /** Once settled, a wait keeps its outcome whatever happens next: no second message or late timer changes it. */
  lemma {:induction false} SettledIsFinal(s: System, events: seq<Event>, r: nat, c: CommandId)
    requires Invariant(s) && r < |s.replicas| && c in s.replicas[r].settled
    ensures var t := Run(s, events);
            r < |t.replicas| && c in t.replicas[r].settled && t.replicas[r].settled[c] == s.replicas[r].settled[c]
    decreases |events|
  {
    hide Invariant, Step;
    if events != [] {
      SettledStays(s, events[0], r, c);
      StepKeeps(s, events[0]);
      SettledIsFinal(Step(s, events[0]), events[1..], r, c);
    }
  }

  /** No wait hangs: one that is still unsettled when its timer runs is settled by it, and stays so. */
  lemma TimerEndsTheWait(n: nat, events: seq<Event>, c: CommandId, later: seq<Event>)
    requires c in Run(Boot(n), events).waits
    ensures var s := Run(Boot(n), events);
            var r := s.waits[c].replica;
            var t := Run(Step(s, Timer(r, c)), later);
            && r < |t.replicas| && c in t.replicas[r].settled
            && (r < |s.replicas| && c !in s.replicas[r].settled ==> t.replicas[r].settled[c] == TimedOut)
  {
    var s := Run(Boot(n), events);
    RunKeeps(Boot(n), events);
    var r := s.waits[c].replica;
    assert ReplicaOk(s, r);
    StepKeeps(s, Timer(r, c));
    SettledIsFinal(Step(s, Timer(r, c)), later, r, c);
  }

  /**
   * A drop of the agent ends its waits at once on the replica that held the socket, and on any other
   * when the message gets there, unless they were settled before.
   */
  lemma DropEndsTheWait(n: nat, events: seq<Event>, c: CommandId, at: nat)
    requires c in Run(Boot(n), events).waits && at < n
    ensures var s := Run(Boot(n), events);
            var w := s.waits[c];
            var t := Step(Step(s, Disconnect(at, w.agent, true)), Deliver(w.replica, DisconnectMsg(w.agent)));
            && w.replica < |t.replicas| && c in t.replicas[w.replica].settled && c !in t.replicas[w.replica].pending
  {
    var s := Run(Boot(n), events);
    RunKeeps(Boot(n), events);
    KeepsReplicas(Boot(n), events);
    var w := s.waits[c];
    var d := Step(s, Disconnect(at, w.agent, true));
    StepKeeps(s, Disconnect(at, w.agent, true));
    assert ReplicaOk(d, w.replica);
    StepKeeps(d, Deliver(w.replica, DisconnectMsg(w.agent)));
    assert ReplicaOk(Step(d, Deliver(w.replica, DisconnectMsg(w.agent))), w.replica);
  }

  predicate IsAnswer(o: Outcome) {
    o.Success? || o.AgentError?
  }

  /** A wait that an answer finds open ends with that answer, on the spot when it could not be published. */
  lemma AnswerSettles(s: System, c: CommandId, o: Outcome, at: nat)
    requires Invariant(s) && c in s.waits && c in s.received && IsAnswer(o) && at < |s.replicas|
    requires s.waits[c].replica < |s.replicas| && c !in s.replicas[s.waits[c].replica].settled
    ensures var w := s.waits[c].replica;
            var t := Step(Step(s, Answer(at, c, o, true)), Deliver(w, ResultMsg(c, o)));
            Invariant(t) && w < |t.replicas| && c !in t.replicas[w].pending && c in t.replicas[w].settled && t.replicas[w].settled[c] == o
    ensures var w := s.waits[c].replica;
            var t := Step(s, Answer(w, c, o, false));
            Invariant(t) && w < |t.replicas| && c !in t.replicas[w].pending && c in t.replicas[w].settled && t.replicas[w].settled[c] == o
  {
    var w := s.waits[c].replica;
    assert ReplicaOk(s, w);
    StepKeeps(s, Answer(at, c, o, true));
    StepKeeps(Step(s, Answer(at, c, o, true)), Deliver(w, ResultMsg(c, o)));
    StepKeeps(s, Answer(w, c, o, false));
    assert c in s.replicas[w].pending;
  }

  /**
   * In every run: once the agent's answer to a received command reaches the replica that waits for it, an open
   * wait is settled with exactly that answer, and whatever follows it stays so.
   */
  lemma AnswerEndsTheWait(n: nat, events: seq<Event>, c: CommandId, o: Outcome, at: nat, later: seq<Event>)
    requires c in Run(Boot(n), events).waits && c in Run(Boot(n), events).received
    requires (o.Success? || o.AgentError?) && at < n
    ensures var s := Run(Boot(n), events);
            var w := s.waits[c].replica;
            w < |s.replicas| && (c !in s.replicas[w].settled ==>
              var t := Step(Step(s, Answer(at, c, o, true)), Deliver(w, ResultMsg(c, o)));
              var u := Run(t, later);
              && w < |t.replicas| && c !in t.replicas[w].pending
              && w < |u.replicas| && c in u.replicas[w].settled && u.replicas[w].settled[c] == o)
    ensures var s := Run(Boot(n), events);
            var w := s.waits[c].replica;
            w < |s.replicas| && (c !in s.replicas[w].settled ==>
              var t := Step(s, Answer(w, c, o, false));
              var u := Run(t, later);
              && w < |t.replicas| && c !in t.replicas[w].pending
              && w < |u.replicas| && c in u.replicas[w].settled && u.replicas[w].settled[c] == o)
  {
    RunKeeps(Boot(n), events);
    KeepsReplicas(Boot(n), events);
    var s := Run(Boot(n), events);
    var w := s.waits[c].replica;
    hide Run, Step;
    if c !in s.replicas[w].settled {
      AnswerSettles(s, c, o, at);
      SettledIsFinal(Step(Step(s, Answer(at, c, o, true)), Deliver(w, ResultMsg(c, o))), later, w, c);
      SettledIsFinal(Step(s, Answer(w, c, o, false)), later, w, c);
    }
  }

  /** A new command reaches its agent: at once on the replica of its socket, on another once the push is relayed. */
  lemma PushArrives(s: System, r: nat, q: nat, c: CommandId, a: AgentId)
    requires Invariant(s) && r < |s.replicas| && q < |s.replicas| && c !in s.madeFor && a in s.sockets[q]
    ensures var t := Step(Step(s, Push(r, c, a)), RelayPush(q, c));
            && Invariant(t) && c in t.received && c in t.madeFor && t.madeFor[c] == a
            && t.replicas == s.replicas && t.sockets == s.sockets && t.waits == s.waits
    ensures a in s.sockets[r] ==> c in Step(s, Push(r, c, a)).received
  {
    StepKeeps(s, Push(r, c, a));
    StepKeeps(Step(s, Push(r, c, a)), RelayPush(q, c));
  }

  /** The whole way: a request on one replica for an agent on another gets the answer the agent gives. */
  lemma RequestIsServed(n: nat, events: seq<Event>, r: nat, q: nat, c: CommandId, a: AgentId, o: Outcome, later: seq<Event>)
    requires r < n && q < n && (o.Success? || o.AgentError?)
    ensures var s := Run(Boot(n), events);
            |s.sockets| == n && (c !in s.madeFor && a in s.sockets[q] ==>
              var asked := Step(Step(Step(s, Push(r, c, a)), RelayPush(q, c)), Register(r, c));
              var t := Run(Step(Step(asked, Answer(q, c, o, true)), Deliver(r, ResultMsg(c, o))), later);
              r < |t.replicas| && c in t.replicas[r].settled && t.replicas[r].settled[c] == o)
  {
    RunKeeps(Boot(n), events);
    KeepsReplicas(Boot(n), events);
    var s := Run(Boot(n), events);
    hide Run;
    if c !in s.madeFor && a in s.sockets[q] {
      PushArrives(s, r, q, c, a);
      var pushed := Step(Step(s, Push(r, c, a)), RelayPush(q, c));
      RegisteredIsOpen(pushed, r, c);
      var asked := Step(pushed, Register(r, c));
      AnswerSettles(asked, c, o, q);
      SettledIsFinal(Step(Step(asked, Answer(q, c, o, true)), Deliver(r, ResultMsg(c, o))), later, r, c);
    }
  }

  lemma RegisteredIsOpen(s: System, r: nat, c: CommandId)
    requires Invariant(s) && r < |s.replicas| && c in s.madeFor && c !in s.waits
    ensures var t := Step(s, Register(r, c));
            && Invariant(t) && |t.replicas| == |s.replicas| && c in t.waits && t.waits[c].replica == r
            && t.received == s.received && c in t.replicas[r].pending && c !in t.replicas[r].settled
  {
    assert ReplicaOk(s, r);
    StepKeeps(s, Register(r, c));
  }

  lemma {:induction false} KeepsReplicas(s: System, events: seq<Event>)
    ensures |Run(s, events).replicas| == |s.replicas|
    decreases |events|
  {
    if events != [] {
      KeepsReplicas(Step(s, events[0]), events[1..]);
    }
  }
}
