/** What reads return while servers crash.  Every read (Login, GetUsers,
    ReceiveMessage) is a function of the store of the server that answers it. */
module ReplicationReads {
  import opened ReplicatedStore
  import opened Replication
  import opened ReplicationInvariant
  import opened ReplicationSafety

  /** A read of client `c` is answered in this state. */
  ghost predicate Reads(w: World, c: nat) {
    && Enabled(w, Read(c)) && w.servers[w.clients[c]].alive
  }

  /** The server that answers, and with it the writes the read shows. */
  function Answering(w: World, c: nat): Server
    requires Reads(w, c)
  {
    w.servers[w.clients[c]]
  }

  /** A read is answered by the lowest live server, and shows the writes in the
      order of issue: each answered write at least once and, between writes, the
      accounts of performing each write once. */
  lemma ReadsShowAnsweredWrites(store: Store, clientCount: nat, states: seq<World>, events: seq<Event>, k: nat, c: nat)
    requires IsRun(store, clientCount, states, events) && k <= |events| && Reads(states[k], c)
    ensures var w, s := states[k], Answering(states[k], c);
            && Dead(w, w.clients[c])
            && s.store == ByRound(store, Ops(w.rounds), s.log, |w.rounds|)
            && (forall r :: 0 <= r < |w.rounds| && w.rounds[r].acked ==> Times(s.log, r) >= 1)
            && (w.phase.Idle? ==> s.store.passwords == OnceEach(store, Ops(w.rounds)).passwords)
  {
    RunKeepsInv(store, clientCount, states, events, k);
    StoreIsWritesInOrder(store, clientCount, states, events, k, states[k].clients[c]);
    assert Counted(Answering(states[k], c).log, states[k].rounds);
  }

  /* Two reads, one after the other. */

  lemma RpcGrowsLogs(w: World, i: nat, req: Request, j: nat)
    requires Roles(w) && w.phase.Serving? && w.phase.at + 1 + i < 3 && w.servers[w.phase.at].alive && j < 3
    ensures var servers := Rpc(w.servers, w.phase.at, i, req).0;
            |servers| == 3 && servers[j].alive == w.servers[j].alive && w.servers[j].log <= servers[j].log
  {
    RpcEffect(w, i, req);
  }

  lemma ServingGrowsLogs(w: World, j: nat)
    requires Roles(w) && w.phase.Serving? && w.servers[w.phase.at].alive && j < 3 && Sized(Serve(w))
    ensures Serve(w).servers[j].alive == w.servers[j].alive && w.servers[j].log <= Serve(w).servers[j].log
  {
    match w.phase.stage
    case Replaying(i, prev, _) => if i < 2 - w.phase.at { RpcGrowsLogs(w, i, prev, j); }
    case Forwarding(i, req) => if i < 2 - w.phase.at { RpcGrowsLogs(w, i, req, j); }
    case Applying(_) => LocalIsPerformed(w);
    case Replying(_) =>
  }

  lemma LogsOnlyGrow(w: World, e: Event, j: nat)
    requires Roles(w) && Enabled(w, e) && j < 3 && Sized(Step(w, e)) && Step(w, e).servers[j].alive
    ensures w.servers[j].alive && w.servers[j].log <= Step(w, e).servers[j].log
  {
    match e
    case Crash(i) => assert Step(w, e).servers[j] == w.servers[j].(alive := Step(w, e).servers[j].alive);
    case Progress => if w.phase.Serving? && w.servers[w.phase.at].alive { ServingGrowsLogs(w, j); }
    case _ =>
  }

  lemma {:induction false} LiveLogsGrow(store: Store, clientCount: nat, states: seq<World>, events: seq<Event>,
                                        k: nat, m: nat, j: nat)
    requires IsRun(store, clientCount, states, events) && k <= m <= |events| && j < 3
    requires |states[m].servers| == 3 && states[m].servers[j].alive
    ensures |states[k].servers| == 3 && states[k].servers[j].alive
    ensures states[k].servers[j].log <= states[m].servers[j].log
  {
    if k < m {
      RunKeepsInv(store, clientCount, states, events, m);
      RunKeepsInv(store, clientCount, states, events, m - 1);
      assert Enabled(states[m - 1], events[m - 1]) && states[m] == Step(states[m - 1], events[m - 1]);
      LogsOnlyGrow(states[m - 1], events[m - 1], j);
      LiveLogsGrow(store, clientCount, states, events, k, m - 1, j);
    }
  }

  /** Every live server holds what the read shows. */
  ghost predicate Lasts(w: World, c: nat)
    requires Reads(w, c)
  {
    forall j :: 0 <= j < 3 && w.servers[j].alive ==> Answering(w, c).log <= w.servers[j].log
  }

  /** A later read, of any client, shows everything a lasting read showed, and
      all but the last write of any read. */
  lemma LaterReadsShowMore(store: Store, clientCount: nat, states: seq<World>, events: seq<Event>,
                           k: nat, c: nat, m: nat, d: nat)
    requires IsRun(store, clientCount, states, events) && k <= m <= |events|
    requires Reads(states[k], c) && Reads(states[m], d)
    ensures var before, after := Answering(states[k], c).log, Answering(states[m], d).log;
            && (Lasts(states[k], c) ==> before <= after)
            && (before != [] ==> before[..|before| - 1] <= after)
  {
    var j := states[m].clients[d];
    LiveLogsGrow(store, clientCount, states, events, k, m, j);
    LiveLogsAgree(store, clientCount, states, events, k, states[k].clients[c], j);
  }

  /** Once no write is in flight every write an earlier read showed is shown. */
  lemma ReadsComeBack(store: Store, clientCount: nat, states: seq<World>, events: seq<Event>,
                      k: nat, c: nat, m: nat, d: nat)
    requires IsRun(store, clientCount, states, events) && k <= m <= |events|
    requires Reads(states[k], c) && Reads(states[m], d) && states[m].phase.Idle?
    ensures forall e :: e in Answering(states[k], c).log ==> e in Answering(states[m], d).log
  {
    RunKeepsInv(store, clientCount, states, events, k);
    forall e | e in Answering(states[k], c).log ensures e in Answering(states[m], d).log {
      RoundsOnlyGrowInRuns(store, clientCount, states, events, k, m, e.id);
      RunKeepsInv(store, clientCount, states, events, m);
      HeldWhenIdle(states[m], d, e.id);
    }
  }

  lemma {:induction false} RoundsOnlyGrowInRuns(store: Store, clientCount: nat, states: seq<World>, events: seq<Event>,
                                                k: nat, m: nat, r: nat)
    requires IsRun(store, clientCount, states, events) && k <= m <= |events| && r < |states[k].rounds|
    ensures r < |states[m].rounds| && states[m].rounds[r].op == states[k].rounds[r].op
  {
    if k < m {
      RoundsOnlyGrowInRuns(store, clientCount, states, events, k, m - 1, r);
      assert Enabled(states[m - 1], events[m - 1]) && states[m] == Step(states[m - 1], events[m - 1]);
      RoundsOnlyGrow(states[m - 1], events[m - 1], r);
    }
  }

  lemma HeldWhenIdle(w: World, d: nat, r: nat)
    requires Sized(w) && Counts(w) && Reads(w, d) && w.phase.Idle? && r < |w.rounds|
    ensures Entry(r, w.rounds[r].op) in Answering(w, d).log
  {
    var log := Answering(w, d).log;
    assert !Dead(w, 3) && w.rounds[r].acked;
    assert Counted(log, w.rounds);
    TimesPositive(log, r);
    var p :| 0 <= p < |log| && log[p].id == r;
    assert log[p] == Entry(r, w.rounds[r].op);
  }

  /* Which reads last. */

  /** Server 1 is ahead of a live server 2 only by the write in flight. */
  ghost predicate AheadInFlight(w: World)
    requires Sized(w)
  {
    var a, b := w.servers[1], w.servers[2];
    a.alive && b.alive && |a.log| > |b.log| ==>
      !w.phase.Idle? && a.log[|a.log| - 1] == Entry(|w.rounds| - 1, w.rounds[|w.rounds| - 1].op)
  }

  lemma SameLogsStayInFlight(w: World, v: World)
    requires Sized(w) && Sized(v) && AheadInFlight(w)
    requires forall j :: 1 <= j < 3 ==>
      (v.servers[j].alive ==> w.servers[j].alive) && v.servers[j].log == w.servers[j].log
    requires w.phase.Idle?
        || (|v.rounds| == |w.rounds| && (w.rounds != [] ==> v.rounds[|w.rounds| - 1].op == w.rounds[|w.rounds| - 1].op))
    requires v.phase.Idle? && !w.phase.Idle? ==>
      v.servers[1].alive && v.servers[2].alive ==> |v.servers[1].log| <= |v.servers[2].log|
    ensures AheadInFlight(v)
  {
  }

  lemma FailOverIsInFlight(w: World)
    requires Roles(w) && AheadInFlight(w) && !w.phase.Idle? && !w.servers[w.clients[w.phase.client]].alive
    requires Sized(Advance(w))
    ensures AheadInFlight(Advance(w))
  {
    SameLogsStayInFlight(w, Advance(w));
  }

  lemma AcceptIsInFlight(w: World)
    requires Roles(w) && AheadInFlight(w) && w.phase.Sending? && w.servers[w.clients[w.phase.client]].alive
    requires Sized(Advance(w))
    ensures AheadInFlight(Advance(w))
  {
    SameLogsStayInFlight(w, Advance(w));
  }

  lemma ForwardIsInFlight(w: World)
    requires Roles(w) && Shape(w) && AheadInFlight(w) && AtForward(w) && Sized(Advance(w))
    ensures AheadInFlight(Advance(w))
  {
    ForwardLogs(w);
    if w.phase.at == 0 && w.servers[1].alive && w.servers[2].alive {
      LogsUnderZero(w, 1);
      LogsUnderZero(w, 2);
    }
  }

  lemma ReplayIsInFlight(w: World)
    requires Roles(w) && Shape(w) && AheadInFlight(w) && AtReplay(w) && Sized(Advance(w))
    ensures AheadInFlight(Advance(w))
  {
    ReplayLogs(w);
  }

  lemma LocalIsInFlight(w: World)
    requires Roles(w) && Shape(w) && AheadInFlight(w) && w.phase.Serving? && w.phase.stage.Applying?
    requires w.servers[w.phase.at].alive && Sized(Advance(w))
    ensures AheadInFlight(Advance(w))
  {
    LocalIsPerformed(w);
    if w.phase.at == 0 {
      SameLogsStayInFlight(w, Advance(w));
    } else if w.phase.at == 1 && w.servers[2].alive {
      assert Dead(w, w.phase.at);
      assert Behind(w.servers[1], w.servers[2], EntryOf(w.phase.stage.req));
    } else {
      assert Dead(w, w.phase.at);
    }
  }

  lemma ReplyIsInFlight(w: World, store: Store)
    requires Inv(w, store) && AheadInFlight(w) && w.phase.Serving? && w.phase.stage.Replying?
    requires w.servers[w.phase.at].alive && Sized(Advance(w))
    ensures AheadInFlight(Advance(w))
  {
    ReplyFindsAgreement(w, store);
  }

  lemma AdvanceKeepsAheadInFlight(w: World, store: Store)
    requires Inv(w, store) && AheadInFlight(w) && !w.phase.Idle? && Sized(Advance(w))
    ensures AheadInFlight(Advance(w))
  {
    if !w.servers[w.clients[w.phase.client]].alive { FailOverIsInFlight(w); }
    else if w.phase.Sending? { AcceptIsInFlight(w); }
    else if w.phase.stage.Replaying? && w.phase.stage.i < 2 - w.phase.at { ReplayIsInFlight(w); }
    else if w.phase.stage.Forwarding? && w.phase.stage.i < 2 - w.phase.at { ForwardIsInFlight(w); }
    else if w.phase.stage.Applying? { LocalIsInFlight(w); }
    else if w.phase.stage.Replying? { ReplyIsInFlight(w, store); }
    else { SameLogsStayInFlight(w, Advance(w)); }
  }

  lemma StepKeepsAheadInFlight(w: World, store: Store, e: Event)
    requires Inv(w, store) && Enabled(w, e) && AheadInFlight(w) && Sized(Step(w, e))
    ensures AheadInFlight(Step(w, e))
  {
    if e.Progress? {
      AdvanceKeepsAheadInFlight(w, store);
    } else {
      SameLogsStayInFlight(w, Step(w, e));
    }
  }

  lemma {:induction false} RunKeepsAheadInFlight(store: Store, clientCount: nat, states: seq<World>, events: seq<Event>,
                                                 k: nat)
    requires IsRun(store, clientCount, states, events) && k <= |events|
    ensures Sized(states[k]) && AheadInFlight(states[k])
  {
    RunKeepsInv(store, clientCount, states, events, k);
    if k > 0 {
      RunKeepsAheadInFlight(store, clientCount, states, events, k - 1);
      RunKeepsInv(store, clientCount, states, events, k - 1);
      assert Enabled(states[k - 1], events[k - 1]) && states[k] == Step(states[k - 1], events[k - 1]);
      StepKeepsAheadInFlight(states[k - 1], store, events[k - 1]);
    }
  }

  /** The read is answered by server 1 after server 0 has died, and shows, last,
      the write in flight, which nobody has answered. */
  ghost predicate ShowsInFlight(w: World, c: nat)
    requires Reads(w, c)
  {
    var n := |w.rounds| - 1;
    && !w.phase.Idle? && w.rounds != [] && !w.rounds[n].acked
    && w.clients[c] == 1 && !w.servers[0].alive && w.servers[2].alive
    && w.servers[1].log == w.servers[2].log + [Entry(n, w.rounds[n].op)]
  }

  lemma HigherServer(w: World, c: nat, j: nat)
    requires Roles(w) && Shape(w) && Reads(w, c) && j < 3 && w.servers[j].alive
    requires !(Answering(w, c).log <= w.servers[j].log)
    ensures w.clients[c] == 1 && j == 2 && !w.servers[0].alive
    ensures PrefixByOne(w.servers[2].log, w.servers[1].log) && |w.servers[1].log| == |w.servers[2].log| + 1
  {
    assert Dead(w, w.clients[c]);
    LogsAgree(w, w.clients[c], j);
    if w.clients[c] == 0 && j > 0 { LogsUnderZero(w, j); }
  }

  lemma OneMoreEntry(a: seq<Entry>, b: seq<Entry>)
    requires PrefixByOne(b, a) && |a| == |b| + 1
    ensures a == b + [a[|a| - 1]]
  {
  }

  lemma InFlightIsUnanswered(w: World)
    requires Sized(w) && Counts(w) && !w.phase.Idle? && w.rounds != []
    ensures !w.rounds[|w.rounds| - 1].acked
  {
  }

  /** Every read that does not last is such a read, so a read between two writes lasts. */
  lemma UnlastingReads(store: Store, clientCount: nat, states: seq<World>, events: seq<Event>, k: nat, c: nat)
    requires IsRun(store, clientCount, states, events) && k <= |events| && Reads(states[k], c) && !Lasts(states[k], c)
    ensures ShowsInFlight(states[k], c)
  {
    RunKeepsAheadInFlight(store, clientCount, states, events, k);
    RunKeepsInv(store, clientCount, states, events, k);
    var w := states[k];
    var j :| 0 <= j < 3 && w.servers[j].alive && !(Answering(w, c).log <= w.servers[j].log);
    HigherServer(w, c, j);
    OneMoreEntry(w.servers[1].log, w.servers[2].log);
    InFlightIsUnanswered(w);
  }

  /** Such a read can be taken back: server 1 crashes, and the same client reads
      from server 2, which lacks the write. */
  lemma UnlastingReadIsLost(store: Store, clientCount: nat, states: seq<World>, events: seq<Event>, c: nat)
      returns (states': seq<World>, events': seq<Event>)
    requires IsRun(store, clientCount, states, events) && Reads(states[|events|], c) && !Lasts(states[|events|], c)
    ensures IsRun(store, clientCount, states', events')
    ensures events' == events + [Crash(1), Read(c)] && states' == states + states'[|states|..]
    ensures Reads(states'[|events'|], c)
    ensures var before, after := Answering(states[|events|], c).log, Answering(states'[|events'|], c).log;
            before != [] && after == before[..|before| - 1]
  {
    UnlastingReads(store, clientCount, states, events, |events|, c);
    var w := states[|events|];
    RunGrows(store, clientCount, states, events, Crash(1));
    var w1 := Step(w, Crash(1));
    RunGrows(store, clientCount, states + [w1], events + [Crash(1)], Read(c));
    states', events' := states + [w1] + [Step(w1, Read(c))], events + [Crash(1)] + [Read(c)];
  }

  /** There are such reads, of any write on any store. */
  lemma SomeReadsDoNotLast(s0: Store, op: Op) returns (states: seq<World>, events: seq<Event>)
    ensures IsRun(s0, 2, states, events) && |events| == 5
    ensures Reads(states[5], 1) && !Lasts(states[5], 1)
    ensures Answering(states[5], 1).store == Apply(s0, op) && |Answering(states[5], 1).log| == 1
  {
    states, events := EarlySteps(s0, op, [0, 0], 4);
    OneMore(s0, op);
    RunGrows(s0, 2, states, events, Read(1));
    states, events := states + [Step(states[4], Read(1))], events + [Read(1)];
    var w := states[5];
    assert w.clients == [0, 1] && w.servers == [First(s0, false, 1), Second(s0, op, false, 1, 1), Third(s0, op, 0, 0)];
    assert !(Answering(w, 1).log <= w.servers[2].log);
  }

  /** A run in which one client reads twice, and the second time finds the store
      as it was before the write that the first read showed. */
  lemma ReadsCanGoBack(s0: Store, op: Op) returns (states: seq<World>, events: seq<Event>)
    ensures IsRun(s0, 2, states, events) && |events| == 7
    ensures Reads(states[5], 1) && Answering(states[5], 1).store == Apply(s0, op)
    ensures Reads(states[7], 1) && Answering(states[7], 1).store == s0
  {
    var states5, events5 := SomeReadsDoNotLast(s0, op);
    states, events := UnlastingReadIsLost(s0, 2, states5, events5, 1);
    LiveLogsAgree(s0, 2, states, events, 7, states[7].clients[1], states[7].clients[1]);
  }
}
