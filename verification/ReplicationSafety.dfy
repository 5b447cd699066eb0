/** What the replication protocol guarantees in every run. */
module ReplicationSafety {
  import opened ReplicatedStore
  import opened Replication
  import opened ReplicationInvariant

  lemma {:induction false} RunKeepsInv(store: Store, clientCount: nat, states: seq<World>, events: seq<Event>, k: nat)
    requires IsRun(store, clientCount, states, events) && k <= |events|
    ensures Inv(states[k], store)
  {
    if k == 0 {
      InitInv(store, clientCount);
    } else {
      RunKeepsInv(store, clientCount, states, events, k - 1);
      StepKeepsInv(states[k - 1], store, events[k - 1]);
    }
  }

  ghost predicate PrefixByOne<T>(a: seq<T>, b: seq<T>) {
    a <= b && |b| <= |a| + 1
  }

  /** In every reachable state the logs of any two live servers are prefixes of one
      another and differ by at most one write. */
  lemma LiveLogsAgree(store: Store, clientCount: nat, states: seq<World>, events: seq<Event>, k: nat, i: nat, j: nat)
    requires IsRun(store, clientCount, states, events) && k <= |events| && i < 3 && j < 3
    requires |states[k].servers| == 3 && states[k].servers[i].alive && states[k].servers[j].alive
    ensures var a, b := states[k].servers[i].log, states[k].servers[j].log;
            PrefixByOne(a, b) || PrefixByOne(b, a)
    ensures states[k].servers[i].store == Replay(store, states[k].servers[i].log)
  {
    RunKeepsInv(store, clientCount, states, events, k);
    LogsAgree(states[k], i, j);
  }

  lemma LogsAgree(w: World, i: nat, j: nat)
    requires Roles(w) && Shape(w) && i < 3 && j < 3 && w.servers[i].alive && w.servers[j].alive
    ensures var a, b := w.servers[i].log, w.servers[j].log; PrefixByOne(a, b) || PrefixByOne(b, a)
  {
    if i == j {
    } else if i == 0 { LogsUnderZero(w, j);
    } else if j == 0 { LogsUnderZero(w, i);
    } else { LogsOfOneAndTwo(w);
    }
  }

  lemma LogsUnderZero(w: World, j: nat)
    requires Roles(w) && Shape(w) && w.servers[0].alive && 1 <= j <= 2 && w.servers[j].alive
    ensures PrefixByOne(w.servers[0].log, w.servers[j].log)
  {
    assert UnderZero(w.servers[0], w.servers[j], w.phase, j);
  }

  lemma LogsOfOneAndTwo(w: World)
    requires Roles(w) && Shape(w) && w.servers[1].alive && w.servers[2].alive
    ensures PrefixByOne(w.servers[1].log, w.servers[2].log) || PrefixByOne(w.servers[2].log, w.servers[1].log)
  {
    var a, b := w.servers[1], w.servers[2];
    assert Paired(a, b) || Ahead(a, b) || Level(a, b) || (exists e :: Behind(a, b, e));
  }

  /** The counters do their work in every run: a replay reaches a live server 2
      that has not performed the request and is dropped by one that has; a client
      write is never dropped, by a follower or by the handling server itself. */
  lemma CountersAreExact(store: Store, clientCount: nat, states: seq<World>, events: seq<Event>, k: nat)
    requires IsRun(store, clientCount, states, events) && k < |events| && events[k] == Progress
    requires states[k].phase.Serving? && states[k].servers[states[k].phase.at].alive
    ensures AtReplay(states[k]) && states[k].servers[2].alive ==>
      var b, b' := states[k].servers[2], states[k + 1].servers[2];
      b'.log == states[k].servers[1].log && (b'.log == b.log || b'.log == b.log + [EntryOf(states[k].phase.stage.prev)])
    ensures AtForward(states[k]) && states[k].servers[Target(states[k])].alive ==>
      states[k + 1].servers[Target(states[k])].log ==
        states[k].servers[Target(states[k])].log + [EntryOf(states[k].phase.stage.req)]
    ensures states[k].phase.stage.Applying? ==>
      states[k + 1].servers[states[k].phase.at].log ==
        states[k].servers[states[k].phase.at].log + [EntryOf(states[k].phase.stage.req)]
  {
    RunKeepsInv(store, clientCount, states, events, k);
    var w := states[k];
    if AtReplay(w) && w.servers[2].alive { ReplayIsExact(w); }
    if AtForward(w) && w.servers[Target(w)].alive {
      ForwardIsPerformed(w);
      ForwardIsFromEqualLogs(w);
    }
    if w.phase.stage.Applying? { LocalIsPerformed(w); }
  }

  lemma ForwardIsFromEqualLogs(w: World)
    requires Roles(w) && Shape(w) && AtForward(w) && w.servers[Target(w)].alive
    ensures w.servers[Target(w)].log == w.servers[w.phase.at].log
  {
    assert Dead(w, w.phase.at);
  }

  /** No forwarded request ever reaches a live server that believes it leads, so
      `Follow` covers every remote handler call there is. */
  lemma TargetsAreFollowers(store: Store, clientCount: nat, states: seq<World>, events: seq<Event>, k: nat)
    requires IsRun(store, clientCount, states, events) && k <= |events|
    ensures AtReplay(states[k]) || AtForward(states[k]) ==>
      Target(states[k]) < 3 && !states[k].servers[Target(states[k])].leader
  {
    RunKeepsInv(store, clientCount, states, events, k);
  }

  lemma RoundsOnlyGrow(w: World, e: Event, r: nat)
    requires Enabled(w, e) && r < |w.rounds|
    ensures var v := Step(w, e);
            |w.rounds| <= |v.rounds| && v.rounds[r].op == w.rounds[r].op && (w.rounds[r].acked ==> v.rounds[r].acked)
  {
  }

  lemma {:induction false} AckedStaysAcked(store: Store, clientCount: nat, states: seq<World>, events: seq<Event>,
                                           k: nat, m: nat, r: nat)
    requires IsRun(store, clientCount, states, events) && k <= m <= |events|
    requires r < |states[k].rounds| && states[k].rounds[r].acked
    ensures r < |states[m].rounds| && states[m].rounds[r].acked && states[m].rounds[r].op == states[k].rounds[r].op
  {
    if k < m {
      AckedStaysAcked(store, clientCount, states, events, k, m - 1, r);
      assert Enabled(states[m - 1], events[m - 1]) && states[m] == Step(states[m - 1], events[m - 1]);
      RoundsOnlyGrow(states[m - 1], events[m - 1], r);
    }
  }

  /** Durability: a write answered at time `k` is in the log of every server that
      is alive at any later time `m`, whatever crashes lie between. */
  lemma AnsweredWritesSurvive(store: Store, clientCount: nat, states: seq<World>, events: seq<Event>, k: nat, m: nat,
                              r: nat, i: nat)
    requires IsRun(store, clientCount, states, events) && k <= m <= |events| && i < 3
    requires r < |states[k].rounds| && states[k].rounds[r].acked
    requires |states[m].servers| == 3 && states[m].servers[i].alive
    ensures Entry(r, states[k].rounds[r].op) in states[m].servers[i].log
  {
    AckedStaysAcked(store, clientCount, states, events, k, m, r);
    RunKeepsInv(store, clientCount, states, events, m);
    var log := states[m].servers[i].log;
    assert Counted(log, states[m].rounds);
    TimesPositive(log, r);
    var p :| 0 <= p < |log| && log[p].id == r;
    assert log[p] == Entry(r, states[k].rounds[r].op);
  }

  /** At the moment of any reply all live servers hold the same store, the replier
      is the lowest live server, and it performed the write. */
  lemma ReplyMeansAgreement(store: Store, clientCount: nat, states: seq<World>, events: seq<Event>, k: nat)
    requires IsRun(store, clientCount, states, events) && k < |events| && events[k] == Progress
    requires states[k].phase.Serving? && states[k].phase.stage.Replying? && states[k].servers[states[k].phase.at].alive
    ensures var w, at := states[k], states[k].phase.at;
            && Dead(w, at)
            && (forall j :: 0 <= j < 3 && w.servers[j].alive ==>
                  w.servers[j].store == w.servers[at].store && w.servers[j].log == w.servers[at].log)
            && Times(w.servers[at].log, |w.rounds| - 1) >= 1
            && states[k + 1].phase == Idle && states[k + 1].rounds[|w.rounds| - 1].acked
  {
    RunKeepsInv(store, clientCount, states, events, k);
    ReplyFindsAgreement(states[k], store);
  }

  /** Retry bound: an answered write whose leader crashed `c` times under it is in
      every live log between 1 and 1 + c times, all next to one another; a write
      in flight is there at most 1 + c times. */
  lemma RetriesAreBounded(store: Store, clientCount: nat, states: seq<World>, events: seq<Event>, k: nat, r: nat,
                          i: nat)
    requires IsRun(store, clientCount, states, events) && k <= |events| && i < 3
    requires |states[k].servers| == 3 && states[k].servers[i].alive && r < |states[k].rounds|
    ensures Times(states[k].servers[i].log, r) <= 1 + states[k].rounds[r].crashes
    ensures states[k].rounds[r].acked ==> Times(states[k].servers[i].log, r) >= 1
    ensures var log := states[k].servers[i].log;
            forall p, q, t :: 0 <= p <= q <= t < |log| && log[p].id == log[t].id ==> log[q] == log[p]
  {
    RunKeepsInv(store, clientCount, states, events, k);
    CountedIsContiguous(states[k].servers[i].log, states[k].rounds, r);
  }

  lemma CountedIsContiguous(log: seq<Entry>, rounds: seq<Round>, r: nat)
    requires Counted(log, rounds) && r < |rounds|
    ensures Times(log, r) <= 1 + rounds[r].crashes && (rounds[r].acked ==> Times(log, r) >= 1)
    ensures forall p, q, t :: 0 <= p <= q <= t < |log| && log[p].id == log[t].id ==> log[q] == log[p]
  {
    forall p, q, t | 0 <= p <= q <= t < |log| && log[p].id == log[t].id ensures log[q] == log[p] {
      assert log[p].id <= log[q].id <= log[t].id;
    }
  }

  function Ops(rounds: seq<Round>): seq<Op> {
    seq(|rounds|, r requires 0 <= r < |rounds| => rounds[r].op)
  }

  /** Exactly what a live server stores: the client writes in the order they were
      issued, each performed between 1 and 1 + c times.  For accounts that is the
      same as performing each write once. */
  lemma StoreIsWritesInOrder(store: Store, clientCount: nat, states: seq<World>, events: seq<Event>, k: nat, i: nat)
    requires IsRun(store, clientCount, states, events) && k <= |events| && i < 3
    requires |states[k].servers| == 3 && states[k].servers[i].alive
    ensures var w, s := states[k], states[k].servers[i];
            && s.store == ByRound(store, Ops(w.rounds), s.log, |w.rounds|)
            && (forall r :: 0 <= r < |w.rounds| ==> Times(s.log, r) <= 1 + w.rounds[r].crashes)
            && (w.phase.Idle? ==>
                  && (forall r :: 0 <= r < |w.rounds| ==> Times(s.log, r) >= 1)
                  && s.store.passwords == OnceEach(store, Ops(w.rounds)).passwords)
  {
    RunKeepsInv(store, clientCount, states, events, k);
    var w, s := states[k], states[k].servers[i];
    assert Counted(s.log, w.rounds);
    ReplayIsByRound(store, Ops(w.rounds), s.log, |w.rounds|);
    if w.phase.Idle? {
      forall r | 0 <= r < |w.rounds| ensures Times(s.log, r) >= 1 {
        assert !Dead(w, 3);
        assert w.rounds[r].acked;
      }
      RetriesLeaveAccountsAlone(store, Ops(w.rounds), s.log, |w.rounds|);
      assert Ops(w.rounds)[..|w.rounds|] == Ops(w.rounds);
    }
  }

  /* What an answer says. */

  /** The store a write finds: the earlier writes, each as often as the log holds it. */
  function FoundBy(store: Store, rounds: seq<Round>, log: seq<Entry>): Store
    requires rounds != []
  {
    ByRound(store, Ops(rounds), log, |rounds| - 1)
  }

  /** The answer tells what became of the last write exactly if it is a text, or
      fails anyway, or has been performed once; so always if no leader has crashed
      under it.  A Register or DeleteAccount that is performed again is answered as
      a failure although it has taken effect. */
  ghost predicate Tells(store: Store, rounds: seq<Round>, log: seq<Entry>, success: bool)
    requires rounds != []
  {
    var n, found := |rounds| - 1, FoundBy(store, rounds, log);
    var op := rounds[n].op;
    && (success == Succeeds(found, op) <==> op.SendMessage? || !Succeeds(found, op) || Times(log, n) == 1)
    && (rounds[n].crashes == 0 ==> success == Succeeds(found, op))
  }

  lemma LastCopyTells(store: Store, rounds: seq<Round>, log: seq<Entry>, success: bool)
    requires rounds != [] && Counted(log, rounds)
    requires OfLastCopy(log, store, Entry(|rounds| - 1, rounds[|rounds| - 1].op), success)
    ensures Tells(store, rounds, log, success)
  {
    var n, front := |rounds| - 1, log[..|log| - 1];
    assert log == front + [Entry(n, Ops(rounds)[n])];
    BeforeLastCopy(store, Ops(rounds), front, Entry(n, Ops(rounds)[n]), log);
    LastOutcome(FoundBy(store, rounds, log), rounds[n].op, Times(log, n));
  }

  /** In every run, exactly when an answer tells what became of its write. */
  lemma AnswersAreExact(store: Store, clientCount: nat, states: seq<World>, events: seq<Event>, k: nat)
    requires IsRun(store, clientCount, states, events) && k <= |events|
    requires states[k].phase.Serving? && states[k].phase.stage.Replying? && states[k].phase.at < |states[k].servers|
    requires states[k].servers[states[k].phase.at].alive
    ensures states[k].rounds != []
    ensures Tells(store, states[k].rounds, states[k].servers[states[k].phase.at].log, states[k].phase.stage.success)
  {
    RunKeepsInv(store, clientCount, states, events, k);
    var w := states[k];
    assert Counted(w.servers[w.phase.at].log, w.rounds);
    LastCopyTells(store, w.rounds, w.servers[w.phase.at].log, w.phase.stage.success);
  }

  /* A run in which a write is performed twice: server 0 crashes after it has
     forwarded the write to server 1; server 1 takes over, replays it, is asked
     again, and performs it again. */

  /** The servers, by the counters and copies the run gives them. */
  function First(s0: Store, alive: bool, counter: nat): Server {
    Server(alive, true, counter, None, [true, true], [true, true], s0, [])
  }

  function Copies(op: Op, k: nat): seq<Entry> { seq(k, _ => Entry(0, op)) }

  function Second(s0: Store, op: Op, leader: bool, counter: nat, k: nat): Server {
    Server(true, leader, counter, if k == 0 then None else Some(Request(0, op, false, 1)), [true], [true],
           ApplyTimes(s0, op, k), Copies(op, k))
  }

  function Third(s0: Store, op: Op, counter: nat, k: nat): Server {
    Server(true, false, counter, if k == 0 then None else Some(Request(0, op, false, counter)), [], [],
           ApplyTimes(s0, op, k), Copies(op, k))
  }

  function WorldOf(a: Server, b: Server, c: Server, clients: seq<nat>, phase: Phase, rounds: seq<Round>): World {
    World([a, b, c], clients, phase, rounds)
  }

  /** Server 0 leads; client 0 writes. */
  function EarlyState(s0: Store, op: Op, clients: seq<nat>, i: nat): World {
    var rounds := [Round(op, 0, false)];
    var b, c, asked := Second(s0, op, false, 0, 0), Third(s0, op, 0, 0), Request(0, op, true, 0);
    if i == 0 then WorldOf(First(s0, true, 0), b, c, clients, Idle, [])
    else if i == 1 then WorldOf(First(s0, true, 0), b, c, clients, Sending(0), rounds)
    else if i == 2 then WorldOf(First(s0, true, 0), b, c, clients, Serving(0, 0, Forwarding(0, asked)), rounds)
    else WorldOf(First(s0, i == 3, 1), Second(s0, op, false, 1, 1), c, clients,
                 Serving(0, 0, Forwarding(1, Request(0, op, true, 1))), rounds)
  }

  /** Server 0 has crashed. */
  function LateState(s0: Store, op: Op, i: nat): World {
    var rounds, dead := [Round(op, 1, false)], First(s0, false, 1);
    var asked, again := Request(0, op, true, 0), Request(0, op, true, 3);
    if i == 5 then WorldOf(dead, Second(s0, op, false, 1, 1), Third(s0, op, 0, 0), [1], Sending(0), rounds)
    else if i == 6 then
      WorldOf(dead, Second(s0, op, true, 1, 1), Third(s0, op, 0, 0), [1],
              Serving(0, 1, Replaying(0, Request(0, op, false, 1), asked)), rounds)
    else if i == 7 then
      WorldOf(dead, Second(s0, op, true, 2, 1), Third(s0, op, 2, 1), [1],
              Serving(0, 1, Replaying(1, Request(0, op, true, 2), asked)), rounds)
    else if i == 8 then
      WorldOf(dead, Second(s0, op, true, 2, 1), Third(s0, op, 2, 1), [1], Serving(0, 1, Forwarding(0, asked)), rounds)
    else if i == 9 then
      WorldOf(dead, Second(s0, op, true, 3, 1), Third(s0, op, 3, 2), [1], Serving(0, 1, Forwarding(1, again)), rounds)
    else if i == 10 then
      WorldOf(dead, Second(s0, op, true, 3, 1), Third(s0, op, 3, 2), [1], Serving(0, 1, Applying(again)), rounds)
    else
      WorldOf(dead, Second(s0, op, true, 3, 2), Third(s0, op, 3, 2), [1],
              Serving(0, 1, Replying(Succeeds(Apply(s0, op), op))), rounds)
  }

  function StateOfRun(s0: Store, op: Op, i: nat): World {
    if i < 5 then EarlyState(s0, op, [0], i) else LateState(s0, op, i)
  }

  function EventOfRun(op: Op, i: nat): Event {
    if i == 0 then Issue(0, op) else if i == 3 then Crash(0) else Progress
  }

  ghost predicate IsStep(s0: Store, op: Op, i: nat) {
    && Enabled(StateOfRun(s0, op, i), EventOfRun(op, i))
    && Step(StateOfRun(s0, op, i), EventOfRun(op, i)) == StateOfRun(s0, op, i + 1)
  }

  lemma Lists3<T>(a: T, b: T, c: T, x: T)
    ensures [a, b, c][0 := x] == [x, b, c] && [a, b, c][1 := x] == [a, x, c] && [a, b, c][2 := x] == [a, b, x]
    ensures [a][0 := x] == [x] && [] + [a] == [a] && [a] + [b] == [a, b]
  {
  }

  lemma OneMore(s0: Store, op: Op)
    ensures ApplyTimes(s0, op, 0) == s0 && ApplyTimes(s0, op, 1) == Apply(s0, op)
    ensures ApplyTimes(s0, op, 2) == Apply(Apply(s0, op), op)
    ensures Copies(op, 0) == [] && Copies(op, 1) == Copies(op, 0) + [Entry(0, op)]
    ensures Copies(op, 2) == Copies(op, 1) + [Entry(0, op)]
  {
    assert ApplyTimes(s0, op, 0) == s0;
    assert ApplyTimes(s0, op, 1) == Apply(s0, op);
  }

  ghost predicate IsEarlyStep(s0: Store, op: Op, clients: seq<nat>, i: nat) {
    && Enabled(EarlyState(s0, op, clients, i), EventOfRun(op, i))
    && Step(EarlyState(s0, op, clients, i), EventOfRun(op, i)) == EarlyState(s0, op, clients, i + 1)
  }

  ghost predicate AllAtFirst(clients: seq<nat>) {
    clients != [] && forall c :: 0 <= c < |clients| ==> clients[c] == 0
  }

  lemma Starts(s0: Store, op: Op, clients: seq<nat>)
    requires AllAtFirst(clients)
    ensures Init(s0, |clients|) == EarlyState(s0, op, clients, 0)
  {
    OneMore(s0, op);
    assert seq(2, _ => true) == [true, true] && seq(1, _ => true) == [true] && seq(0, _ => true) == [];
    assert seq(|clients|, _ => 0) == clients;
  }

  lemma Asks(s0: Store, op: Op, clients: seq<nat>)
    requires AllAtFirst(clients)
    ensures IsEarlyStep(s0, op, clients, 0) && IsEarlyStep(s0, op, clients, 1)
  {
    var w := EarlyState(s0, op, clients, 1);
    Lists3(w.servers[0], w.servers[1], w.servers[2], w.servers[0]);
    assert [] + [Round(op, 0, false)] == [Round(op, 0, false)];
  }

  lemma ReachesSecond(s0: Store, op: Op, clients: seq<nat>)
    requires AllAtFirst(clients)
    ensures IsEarlyStep(s0, op, clients, 2)
  {
    var v, w := EarlyState(s0, op, clients, 2), EarlyState(s0, op, clients, 3);
    OneMore(s0, op);
    Lists3(v.servers[0], v.servers[1], v.servers[2], w.servers[0]);
    Lists3(w.servers[0], v.servers[1], v.servers[2], w.servers[1]);
  }

  lemma FirstCrashes(s0: Store, op: Op, clients: seq<nat>)
    requires AllAtFirst(clients)
    ensures IsEarlyStep(s0, op, clients, 3)
  {
    var v, w := EarlyState(s0, op, clients, 3), EarlyState(s0, op, clients, 4);
    Lists3(v.servers[0], v.servers[1], v.servers[2], w.servers[0]);
  }

  lemma {:induction false} EarlySteps(s0: Store, op: Op, clients: seq<nat>, n: nat)
      returns (states: seq<World>, events: seq<Event>)
    requires AllAtFirst(clients) && n <= 4
    ensures IsRun(s0, |clients|, states, events) && |events| == n && states[n] == EarlyState(s0, op, clients, n)
  {
    if n == 0 {
      Starts(s0, op, clients);
      states, events := [EarlyState(s0, op, clients, 0)], [];
    } else {
      states, events := EarlySteps(s0, op, clients, n - 1);
      if n <= 2 { Asks(s0, op, clients); }
      else if n == 3 { ReachesSecond(s0, op, clients); }
      else { FirstCrashes(s0, op, clients); }
      RunGrows(s0, |clients|, states, events, EventOfRun(op, n - 1));
      states, events := states + [EarlyState(s0, op, clients, n)], events + [EventOfRun(op, n - 1)];
    }
  }

  lemma ClientMovesOn(s0: Store, op: Op)
    ensures IsStep(s0, op, 4)
  {
    assert [0][0 := 1] == [1];
    assert [Round(op, 0, false)][0 := Round(op, 1, false)] == [Round(op, 1, false)];
  }

  lemma SecondTakesOver(s0: Store, op: Op)
    ensures IsStep(s0, op, 5)
  {
    var v, w := StateOfRun(s0, op, 5), StateOfRun(s0, op, 6);
    Lists3(v.servers[0], v.servers[1], v.servers[2], w.servers[1]);
  }

  lemma SecondReplays(s0: Store, op: Op)
    ensures IsStep(s0, op, 6) && IsStep(s0, op, 7)
  {
    var v, w := StateOfRun(s0, op, 6), StateOfRun(s0, op, 7);
    OneMore(s0, op);
    Lists3(v.servers[0], v.servers[1], v.servers[2], w.servers[1]);
    Lists3(v.servers[0], w.servers[1], v.servers[2], w.servers[2]);
  }

  lemma SecondForwards(s0: Store, op: Op)
    ensures IsStep(s0, op, 8) && IsStep(s0, op, 9)
  {
    var v, w := StateOfRun(s0, op, 8), StateOfRun(s0, op, 9);
    OneMore(s0, op);
    Lists3(v.servers[0], v.servers[1], v.servers[2], w.servers[1]);
    Lists3(v.servers[0], w.servers[1], v.servers[2], w.servers[2]);
  }

  lemma SecondPerforms(s0: Store, op: Op)
    ensures IsStep(s0, op, 10)
  {
    var v, w := StateOfRun(s0, op, 10), StateOfRun(s0, op, 11);
    OneMore(s0, op);
    Lists3(v.servers[0], v.servers[1], v.servers[2], w.servers[1]);
  }

  lemma AllSteps(s0: Store, op: Op, i: nat)
    requires 4 <= i < 11
    ensures IsStep(s0, op, i)
  {
    if i == 4 { ClientMovesOn(s0, op); }
    else if i == 5 { SecondTakesOver(s0, op); }
    else if i < 8 { SecondReplays(s0, op); }
    else if i < 10 { SecondForwards(s0, op); }
    else { SecondPerforms(s0, op); }
  }

  lemma {:induction false} StepsMakeRun(s0: Store, op: Op, n: nat) returns (states: seq<World>, events: seq<Event>)
    requires 4 <= n <= 11
    ensures IsRun(s0, 1, states, events) && |events| == n && states[n] == StateOfRun(s0, op, n)
  {
    if n == 4 {
      states, events := EarlySteps(s0, op, [0], 4);
    } else {
      states, events := StepsMakeRun(s0, op, n - 1);
      AllSteps(s0, op, n - 1);
      RunGrows(s0, 1, states, events, EventOfRun(op, n - 1));
      states, events := states + [StateOfRun(s0, op, n)], events + [EventOfRun(op, n - 1)];
    }
  }

  lemma RunGrows(store: Store, clientCount: nat, states: seq<World>, events: seq<Event>, e: Event)
    requires IsRun(store, clientCount, states, events) && Enabled(states[|events|], e)
    ensures IsRun(store, clientCount, states + [Step(states[|events|], e)], events + [e])
  {
  }

  /** Servers 1 and 2 are alive, both have performed the only write twice, and
      server 1 is about to answer it. */
  ghost predicate PerformedTwice(s0: Store, op: Op, w: World, success: bool) {
    && w.phase == Serving(0, 1, Replying(success)) && w.rounds == [Round(op, 1, false)]
    && |w.servers| == 3 && w.servers[1].alive && w.servers[2].alive
    && w.servers[1].store == w.servers[2].store == Apply(Apply(s0, op), op)
  }

  /** Any write on any store can be performed twice under one answer, which is then
      the outcome of the second time. */
  lemma WriteIsRetried(s0: Store, op: Op) returns (states: seq<World>, events: seq<Event>)
    ensures IsRun(s0, 1, states, events)
    ensures PerformedTwice(s0, op, states[|events|], Succeeds(Apply(s0, op), op))
  {
    states, events := StepsMakeRun(s0, op, 11);
    OneMore(s0, op);
  }

  /** So any registration or deletion that would succeed can be answered as a
      failure although every live server has done it. */
  lemma RetriedAccountWriteIsRefused(s0: Store, op: Op) returns (states: seq<World>, events: seq<Event>)
    requires !op.SendMessage? && Succeeds(s0, op)
    ensures IsRun(s0, 1, states, events)
    ensures PerformedTwice(s0, op, states[|events|], false)
    ensures states[|events|].servers[1].store == Apply(s0, op) != s0
  {
    states, events := WriteIsRetried(s0, op);
    AccountWritesAreIdempotent(s0, op);
    match op
    case Register(u, _) => assert u in Apply(s0, op).passwords;
    case DeleteAccount(u, _) => assert u !in Apply(s0, op).passwords;
  }

  /** And any text that is accepted can be stored twice under one answer. */
  lemma RetriedTextIsDoubled(s0: Store, op: Op) returns (states: seq<World>, events: seq<Event>)
    requires op.SendMessage? && Succeeds(s0, op)
    ensures IsRun(s0, 1, states, events)
    ensures PerformedTwice(s0, op, states[|events|], true)
    ensures var t := Text(op.sender, op.receiver, op.body);
            Inbox(states[|events|].servers[1].store, op.receiver) == Inbox(s0, op.receiver) + [t, t]
  {
    states, events := WriteIsRetried(s0, op);
    var t := Text(op.sender, op.receiver, op.body);
    assert Inbox(Apply(s0, op), op.receiver) == Inbox(s0, op.receiver) + [t];
    assert (Inbox(s0, op.receiver) + [t]) + [t] == Inbox(s0, op.receiver) + [t, t];
  }

  /* How a request ends. */

  function StageRank(at: nat, stage: Stage): nat
    requires at < 3 && (stage.Replaying? || stage.Forwarding? ==> stage.i <= 2 - at)
  {
    match stage
    case Replaying(i, _, _) => 6 + (2 - at - i)
    case Forwarding(i, _) => 3 + (2 - at - i)
    case Applying(_) => 2
    case Replying(_) => 1
  }

  /** A bound on the steps left until the client has an answer or gives up. */
  ghost function Rank(w: World): (n: nat)
    requires Sized(w)
    ensures n < 40
  {
    match w.phase
    case Idle => 0
    case Sending(c) => (3 - w.clients[c]) * 10 + 9
    case Serving(_, at, stage) => (3 - at) * 10 + StageRank(at, stage)
  }

  lemma ServeLowersRank(w: World)
    requires Sized(w) && w.phase.Serving? && w.servers[w.phase.at].alive
    requires Sized(Serve(w))
    ensures Rank(Serve(w)) < Rank(w)
  {
  }

  lemma AdvanceLowersRank(w: World)
    requires Sized(w) && !w.phase.Idle? && Sized(Advance(w))
    ensures Rank(Advance(w)) < Rank(w)
  {
    var at := w.clients[w.phase.client];
    if w.phase.Serving? && w.servers[at].alive { ServeLowersRank(w); }
  }

  /** Every step of the write in flight brings its end nearer, and no other event
      delays it: fewer than 40 steps of its own end any client write. */
  lemma RequestsEnd(w: World, store: Store, e: Event)
    requires Inv(w, store) && Enabled(w, e) && !w.phase.Idle?
    ensures Sized(Step(w, e))
    ensures e.Progress? ==> Rank(Step(w, e)) < Rank(w)
    ensures !e.Progress? ==> Rank(Step(w, e)) == Rank(w)
  {
    StepKeepsInv(w, store, e);
    if e.Progress? { AdvanceLowersRank(w); }
  }

  /** When a client write ends, either the lowest live server, at or above the
      leader the client knew, has answered it, or all three servers are dead and
      the client has given up. */
  lemma RequestsEndWell(w: World, store: Store)
    requires Inv(w, store) && !w.phase.Idle? && Advance(w).phase.Idle?
    ensures var n, c, v := |w.rounds| - 1, w.phase.client, Advance(w);
      if v.rounds[n].acked
      then v.clients[c] == w.clients[c] < 3 && Dead(v, v.clients[c]) && v.servers[v.clients[c]].alive
      else Dead(v, 3) && v.clients[c] == 3
  {
    StepKeepsInv(w, store, Progress);
    var v, c := Advance(w), w.phase.client;
    assert Dead(v, v.clients[c]);
    assert Dead(w, w.clients[c]);
  }
}
