/** What a server knows of a write when the write reaches it, and what that says of
    its answer. */
module ReplicationRetries {
  import opened ReplicatedStore
  import opened Replication
  import opened ReplicationInvariant
  import opened ReplicationSafety

  /** A server that would take over has last seen write `id`: its `last_request` is
      a forwarded copy of that write. */
  predicate HasSeen(s: Server, id: nat) { !s.leader && s.last.Some? && s.last.value.id == id }

  ghost predicate SeenIsLogged(s: Server) { s.last.Some? ==> Times(s.log, s.last.value.id) >= 1 }

  ghost predicate LoggedIsSeen(s: Server, id: nat) { Times(s.log, id) >= 1 ==> HasSeen(s, id) }

  /** Among the servers the write in flight may still reach, those that hold it are
      those that have last seen it. */
  ghost predicate Seen(w: World)
    requires Sized(w)
  {
    && (forall i :: 0 <= i < 3 && w.servers[i].alive ==> SeenIsLogged(w.servers[i]))
    && (w.phase.Sending? ==> forall i :: 0 <= i < 3 && w.servers[i].alive ==>
        LoggedIsSeen(w.servers[i], |w.rounds| - 1))
    && (w.phase.Serving? ==>
          && (forall i :: w.phase.at < i < 3 && w.servers[i].alive ==> LoggedIsSeen(w.servers[i], |w.rounds| - 1))
          && (w.phase.stage.Replaying? && Times(w.servers[w.phase.at].log, |w.rounds| - 1) >= 1 ==>
                w.phase.stage.prev.id == |w.rounds| - 1))
  }

  lemma CrashKeepsSeen(w: World, i: nat)
    requires Sized(w) && Seen(w) && i < 3 && Sized(Step(w, Crash(i)))
    ensures Seen(Step(w, Crash(i)))
  {
    var v := Step(w, Crash(i));
    forall j | 0 <= j < 3
      ensures (v.servers[j].alive ==> w.servers[j].alive) && v.servers[j] == w.servers[j].(alive := v.servers[j].alive)
    {}
    assert v.phase == w.phase && v.rounds == w.rounds;
  }

  lemma IssueKeepsSeen(w: World, store: Store, c: nat, op: Op)
    requires Inv(w, store) && Seen(w) && Enabled(w, Issue(c, op))
    ensures Seen(Step(w, Issue(c, op)))
  {
    forall i | 0 <= i < 3 && w.servers[i].alive ensures Times(w.servers[i].log, |w.rounds|) == 0 {
      CountedWithNewRound(w.servers[i].log, w.rounds, op);
    }
  }

  lemma FailOverKeepsSeen(w: World, store: Store)
    requires Inv(w, store) && Seen(w) && !w.phase.Idle? && !w.servers[w.clients[w.phase.client]].alive
    requires Sized(Advance(w))
    ensures Seen(Advance(w))
  {
    assert Dead(w, w.clients[w.phase.client]);
  }

  lemma AcceptKeepsSeen(w: World)
    requires Sized(w) && Seen(w) && w.phase.Sending? && w.servers[w.clients[w.phase.client]].alive && Sized(Advance(w))
    ensures Seen(Advance(w))
  {
    var v, at := Advance(w), w.clients[w.phase.client];
    forall j | 0 <= j < 3
      ensures v.servers[j] == w.servers[j].(leader := v.servers[j].leader) && (j != at ==> v.servers[j] == w.servers[j])
    {}
  }

  /** A step that changes what server `j` has seen and logged. */
  lemma SeenCarriesOver(w: World, v: World, j: nat)
    requires Sized(w) && Sized(v) && Seen(w) && w.phase.Serving? && v.phase.Serving? && |v.rounds| == |w.rounds|
    requires v.phase.at == w.phase.at < j < 3
    requires forall k :: 0 <= k < 3 && k != j ==>
      && v.servers[k].alive == w.servers[k].alive && v.servers[k].leader == w.servers[k].leader
      && v.servers[k].last == w.servers[k].last && v.servers[k].log == w.servers[k].log
    requires v.servers[j].alive ==> SeenIsLogged(v.servers[j]) && LoggedIsSeen(v.servers[j], |v.rounds| - 1)
    requires v.phase.stage.Replaying? ==> w.phase.stage.Replaying? && v.phase.stage.prev.id == w.phase.stage.prev.id
    ensures Seen(v)
  {
  }

  lemma FollowerHasSeen(s: Server, r: Request, n: nat)
    requires s.log != [] && s.last == Some(r) && Times(s.log, r.id) >= 1 && !s.leader
    requires Times(s.log, n) >= 1 ==> r.id == n
    ensures SeenIsLogged(s) && LoggedIsSeen(s, n)
  {
  }

  lemma ForwardKeepsSeen(w: World)
    requires Roles(w) && Shape(w) && Seen(w) && AtForward(w) && Sized(Advance(w))
    ensures Seen(Advance(w))
  {
    var j, v := Target(w), Advance(w);
    RpcEffect(w, w.phase.stage.i, w.phase.stage.req);
    if w.servers[j].alive {
      ForwardIsPerformed(w);
      TimesAppend(w.servers[w.phase.at].log, EntryOf(w.phase.stage.req), |w.rounds| - 1);
      FollowerHasSeen(v.servers[j], v.servers[j].last.value, |w.rounds| - 1);
    }
    SeenCarriesOver(w, v, j);
  }

  /** What server 2 has seen and logged after a replay that reaches it. */
  lemma ReplaySeen(w: World)
    requires Roles(w) && Shape(w) && AtReplay(w) && w.servers[2].alive
    ensures w.phase.at == 1 && Target(w) == 2
    ensures var s := Advance(w).servers[2];
            s.log == w.servers[1].log && !s.leader && s.last.Some? && s.last.value.id == w.phase.stage.prev.id
  {
    RpcEffect(w, w.phase.stage.i, w.phase.stage.prev);
    ReplayIsExact(w);
  }

  lemma ReplaySeenIsLogged(w: World)
    requires Roles(w) && Seen(w) && AtReplay(w) && w.phase.at == 1
    ensures Times(w.servers[1].log, w.phase.stage.prev.id) >= 1
  {
    assert SeenIsLogged(w.servers[1]);
  }

  lemma ReplayKeepsSeen(w: World)
    requires Roles(w) && Shape(w) && Seen(w) && AtReplay(w) && Sized(Advance(w))
    ensures Seen(Advance(w))
  {
    var j, v, prev := Target(w), Advance(w), w.phase.stage.prev;
    RpcEffect(w, w.phase.stage.i, prev);
    if w.servers[j].alive {
      assert w.phase.at == 1 && j == 2;
      ReplaySeen(w);
      ReplaySeenIsLogged(w);
      FollowerHasSeen(v.servers[2], v.servers[2].last.value, |w.rounds| - 1);
    }
    SeenCarriesOver(w, v, j);
  }

  /** Only the handling server `at` has performed a write. */
  lemma SeenOnceApplied(w: World, v: World, at: nat)
    requires Sized(w) && Sized(v) && Seen(w) && w.phase.Serving? && v.phase.Serving? && |v.rounds| == |w.rounds|
    requires v.phase.at == w.phase.at == at && v.phase.stage.Replying?
    requires forall k :: 0 <= k < 3 && k != at ==> v.servers[k] == w.servers[k]
    requires SeenIsLogged(v.servers[at])
    ensures Seen(v)
  {
  }

  lemma OwnWriteKeepsSeen(me: Server, s: Server, e: Entry)
    requires SeenIsLogged(me) && s.last == me.last && s.log == me.log + [e]
    ensures SeenIsLogged(s)
  {
    if me.last.Some? { TimesAppend(me.log, e, me.last.value.id); }
  }

  lemma LocalKeepsSeen(w: World)
    requires Roles(w) && Seen(w) && w.phase.Serving? && w.phase.stage.Applying? && w.servers[w.phase.at].alive
    requires Sized(Advance(w))
    ensures Seen(Advance(w))
  {
    var at, v := w.phase.at, Advance(w);
    LocalIsPerformed(w);
    OwnWriteKeepsSeen(w.servers[at], v.servers[at], EntryOf(w.phase.stage.req));
    SeenOnceApplied(w, v, at);
  }

  lemma QuietStepKeepsSeen(w: World, v: World)
    requires Sized(w) && Sized(v) && Seen(w) && v.servers == w.servers && |v.rounds| == |w.rounds|
    requires v.phase.Idle? || v.phase == w.phase ||
             (w.phase.Serving? && v.phase.Serving? && v.phase.at == w.phase.at && !v.phase.stage.Replaying?)
    ensures Seen(v)
  {
  }

  lemma StepKeepsSeen(w: World, store: Store, e: Event)
    requires Inv(w, store) && Seen(w) && Enabled(w, e)
    ensures Sized(Step(w, e)) && Seen(Step(w, e))
  {
    StepKeepsInv(w, store, e);
    match e
    case Crash(i) => CrashKeepsSeen(w, i);
    case Read(c) => QuietStepKeepsSeen(w, Step(w, e));
    case Issue(c, op) => IssueKeepsSeen(w, store, c, op);
    case Progress => AdvanceKeepsSeen(w, store);
  }

  lemma AdvanceKeepsSeen(w: World, store: Store)
    requires Inv(w, store) && Seen(w) && !w.phase.Idle? && Sized(Advance(w))
    ensures Seen(Advance(w))
  {
    if !w.servers[w.clients[w.phase.client]].alive { FailOverKeepsSeen(w, store); }
    else if w.phase.Sending? { AcceptKeepsSeen(w); }
    else if w.phase.stage.Replaying? && w.phase.stage.i < 2 - w.phase.at { ReplayKeepsSeen(w); }
    else if w.phase.stage.Forwarding? && w.phase.stage.i < 2 - w.phase.at { ForwardKeepsSeen(w); }
    else if w.phase.stage.Applying? { LocalKeepsSeen(w); }
    else { QuietStepKeepsSeen(w, Advance(w)); }
  }

  lemma {:induction false} RunKeepsSeen(store: Store, clientCount: nat, states: seq<World>, events: seq<Event>, k: nat)
    requires IsRun(store, clientCount, states, events) && k <= |events|
    ensures Inv(states[k], store) && Seen(states[k])
  {
    RunKeepsInv(store, clientCount, states, events, k);
    if k > 0 {
      RunKeepsSeen(store, clientCount, states, events, k - 1);
      StepKeepsSeen(states[k - 1], store, events[k - 1]);
    }
  }

  /** When a write reaches a server, the server holds it already exactly if it is not
      the leader and the write is the last request it has seen. */
  lemma HeldMeansSeen(w: World, store: Store)
    requires Inv(w, store) && Seen(w) && w.phase.Sending? && w.servers[w.clients[w.phase.client]].alive
    ensures var me, n := w.servers[w.clients[w.phase.client]], |w.rounds| - 1;
            Times(me.log, n) >= 1 <==> HasSeen(me, n)
  {
  }

  /** From step `j`, in which the write reaches server `at`, to state `k`, the
      server is at work on it. */
  ghost predicate AtWork(states: seq<World>, events: seq<Event>, j: nat, k: nat, at: nat)
  {
    && j < k < |states| && j < |events| && events[j] == Progress
    && states[j].phase.Sending? && states[j].phase.client < |states[j].clients|
    && states[j].clients[states[j].phase.client] == at < 3 == |states[j].servers| && states[j].servers[at].alive
    && states[j].rounds != []
    && forall i :: j < i <= k ==> states[i].phase.Serving? && states[i].phase.at == at
  }

  /** Until it performs the write itself the server's log stays as it was. */
  ghost predicate LogWaits(v: World, w: World, at: nat)
    requires v.rounds != []
  {
    var n := |v.rounds| - 1;
    && w.rounds == v.rounds && at < |v.servers| && at < |w.servers| && w.phase.Serving?
    && w.servers[at].log == if w.phase.stage.Replying? then v.servers[at].log + [Entry(n, v.rounds[n].op)]
                            else v.servers[at].log
  }

  lemma ServeKeepsLog(v: World, w: World, at: nat)
    requires v.rounds != [] && Roles(w) && LogWaits(v, w, at) && w.phase.at == at && w.servers[at].alive
    requires Serve(w).phase.Serving?
    ensures LogWaits(v, Serve(w), at)
  {
    match w.phase.stage
    case Replaying(i, prev, _) => if i < 2 - at { RpcEffect(w, i, prev); }
    case Forwarding(i, req) => if i < 2 - at { RpcEffect(w, i, req); }
    case Applying(_) => LocalIsPerformed(w);
    case Replying(_) =>
  }

  lemma StepKeepsLog(v: World, w: World, e: Event, at: nat)
    requires v.rounds != [] && Roles(w) && Enabled(w, e) && LogWaits(v, w, at) && w.phase.at == at
    requires Step(w, e).phase.Serving?
    ensures LogWaits(v, Step(w, e), at)
  {
    if e.Progress? { ServeKeepsLog(v, w, at); }
  }

  lemma AcceptWaits(w: World, e: Event, at: nat)
    requires Enabled(w, e) && w.phase.Sending? && w.servers[w.clients[w.phase.client]].alive
    requires e == Progress && at == w.clients[w.phase.client]
    ensures LogWaits(w, Step(w, e), at) && Step(w, e).phase.at == at
  {
  }

  /** Serving goes on at one server, and begins with a write that reaches it. */
  lemma ServingStays(w: World, e: Event)
    requires Enabled(w, e) && Step(w, e).phase.Serving?
    ensures w.phase.Serving? ==> Step(w, e).phase.at == w.phase.at
    ensures !w.phase.Serving? ==>
      && e == Progress && w.phase.Sending? && w.servers[w.clients[w.phase.client]].alive
      && Step(w, e).phase.at == w.clients[w.phase.client]
  {
  }

  lemma RunStep(store: Store, clientCount: nat, states: seq<World>, events: seq<Event>, k: nat)
    requires IsRun(store, clientCount, states, events) && 0 < k <= |events|
    ensures Enabled(states[k - 1], events[k - 1]) && states[k] == Step(states[k - 1], events[k - 1])
  {
    var i := k - 1;
    assert states[i + 1] == Step(states[i], events[i]);
  }

  lemma AtWorkBefore(states: seq<World>, events: seq<Event>, j: nat, k: nat, at: nat)
    requires AtWork(states, events, j, k, at) && j < k - 1
    ensures AtWork(states, events, j, k - 1, at) && states[k - 1].phase.Serving? && states[k - 1].phase.at == at
    ensures states[k].phase.Serving?
  {
  }

  lemma RunKeepsRoles(store: Store, clientCount: nat, states: seq<World>, events: seq<Event>, k: nat)
    requires IsRun(store, clientCount, states, events) && k <= |events|
    ensures Roles(states[k])
  {
    RunKeepsInv(store, clientCount, states, events, k);
  }

  lemma RunKeepsLog(store: Store, clientCount: nat, states: seq<World>, events: seq<Event>, v: World, k: nat, at: nat)
    requires IsRun(store, clientCount, states, events) && 0 < k <= |events|
    requires v.rounds != [] && LogWaits(v, states[k - 1], at) && states[k - 1].phase.at == at
    requires states[k].phase.Serving?
    ensures LogWaits(v, states[k], at)
  {
    RunStep(store, clientCount, states, events, k);
    RunKeepsRoles(store, clientCount, states, events, k - 1);
    StepKeepsLog(v, states[k - 1], events[k - 1], at);
  }

  lemma {:induction false} WorkKeepsLog(store: Store, clientCount: nat, states: seq<World>, events: seq<Event>,
                                        j: nat, k: nat, at: nat)
    requires IsRun(store, clientCount, states, events) && AtWork(states, events, j, k, at)
    ensures LogWaits(states[j], states[k], at)
  {
    if j == k - 1 {
      RunStep(store, clientCount, states, events, k);
      AcceptWaits(states[j], events[j], at);
    } else {
      AtWorkBefore(states, events, j, k, at);
      WorkKeepsLog(store, clientCount, states, events, j, k - 1, at);
      RunKeepsLog(store, clientCount, states, events, states[j], k, at);
    }
  }

  /** Every write at a server has reached it in one step. */
  lemma {:induction false} WorkHasBegun(store: Store, clientCount: nat, states: seq<World>, events: seq<Event>, k: nat)
      returns (j: nat)
    requires IsRun(store, clientCount, states, events) && k <= |events| && states[k].phase.Serving?
    ensures AtWork(states, events, j, k, states[k].phase.at)
  {
    assert k > 0;
    RunStep(store, clientCount, states, events, k);
    ServingStays(states[k - 1], events[k - 1]);
    if states[k - 1].phase.Serving? {
      j := WorkHasBegun(store, clientCount, states, events, k - 1);
    } else {
      j := k - 1;
    }
  }

  /** What an answer says, by what could be known when the write reached the server:
      the answering server stores the write exactly once if the write was not the
      last request it had seen, and the answer is wrong exactly if it was, and the
      write is an account write that succeeds on the store the earlier writes leave. */
  ghost predicate ToldBefore(store: Store, v: World, w: World, at: nat)
    requires v.rounds != [] && at < |v.servers| && at < |w.servers| && w.phase.Serving? && w.phase.stage.Replying?
  {
    var n, me := |v.rounds| - 1, v.servers[at];
    var op, found := v.rounds[n].op, ByRound(store, Ops(v.rounds), me.log, n);
    && (Times(me.log, n) >= 1 <==> HasSeen(me, n))
    && w.servers[at].log == me.log + [Entry(n, op)]
    && (Times(w.servers[at].log, n) == 1 <==> !HasSeen(me, n))
    && (w.phase.stage.success != Succeeds(found, op) <==> !op.SendMessage? && Succeeds(found, op) && HasSeen(me, n))
  }

  /** A log that gains the last write once, and whether it held that write before. */
  lemma LogTells(store: Store, rounds: seq<Round>, before: seq<Entry>, success: bool, seen: bool)
    requires rounds != []
    requires Tells(store, rounds, before + [Entry(|rounds| - 1, rounds[|rounds| - 1].op)], success)
    requires Times(before, |rounds| - 1) >= 1 <==> seen
    ensures var n, op := |rounds| - 1, rounds[|rounds| - 1].op;
            var found := ByRound(store, Ops(rounds), before, n);
            && (Times(before + [Entry(n, op)], n) == 1 <==> !seen)
            && (success != Succeeds(found, op) <==> !op.SendMessage? && Succeeds(found, op) && seen)
  {
    var n := |rounds| - 1;
    var e := Entry(n, rounds[n].op);
    TimesAppend(before, e, n);
    ByRoundIgnoresLater(store, Ops(rounds), before, e, n);
  }

  lemma AnswersAreForeseen(store: Store, clientCount: nat, states: seq<World>, events: seq<Event>, k: nat)
      returns (j: nat)
    requires IsRun(store, clientCount, states, events) && k <= |events|
    requires states[k].phase.Serving? && states[k].phase.stage.Replying? && states[k].phase.at < |states[k].servers|
    requires states[k].servers[states[k].phase.at].alive
    ensures AtWork(states, events, j, k, states[k].phase.at)
    ensures states[k].phase.at < |states[j].servers| && ToldBefore(store, states[j], states[k], states[k].phase.at)
  {
    j := WorkHasBegun(store, clientCount, states, events, k);
    var v, w, at := states[j], states[k], states[k].phase.at;
    WorkKeepsLog(store, clientCount, states, events, j, k, at);
    AnswersAreExact(store, clientCount, states, events, k);
    RunKeepsSeen(store, clientCount, states, events, j);
    HeldMeansSeen(v, store);
    LogTells(store, v.rounds, v.servers[at].log, w.phase.stage.success, HasSeen(v.servers[at], |v.rounds| - 1));
  }
}
