/** The server processes and the retrying client as running code: the handlers and
    `replicate` of server.py over mutable process state, and `send_request` of
    client.py.  Every execution, under every choice of crashes, is proved to be a
    run of the machine in Replication. */
module ReplicationProcess {
  import opened ReplicatedStore
  import opened Replication
  import opened ReplicationInvariant
  import opened ReplicationSafety

  /** `g_params` of one server process.  `log` is bookkeeping. */
  class ServerParams {
    var alive: bool
    var amILeader: bool
    var counter: nat
    var lastRequest: Option<Request>
    var authStubs: seq<bool>
    var chatStubs: seq<bool>
    var passwords: map<string, string>
    var messages: map<string, seq<Text>>
    ghost var log: seq<Entry>

    ghost function View(): Server
      reads this
    {
      Server(alive, amILeader, counter, lastRequest, authStubs, chatStubs, Store(passwords, messages), log)
    }

    constructor (myId: nat, store: Store)
      requires myId < 3
      ensures View() == InitServer(myId, store)
    {
      alive, amILeader, counter, lastRequest := true, myId == 0, 0, None;
      authStubs, chatStubs := seq(2 - myId, _ => true), seq(2 - myId, _ => true);
      passwords, messages, log := store.passwords, store.messages, [];
    }

    /** The database part of Register, DeleteAccount and SendMessage. */
    method Perform(request: Request) returns (success: bool)
      modifies this`passwords, this`messages, this`log
      ensures View() == Replication.Perform(old(View()), request)
      ensures success == Succeeds(old(View()).store, request.op)
    {
      match request.op {
        case Register(u, p) =>
          success := u !in passwords;
          if success { passwords := passwords[u := p]; }
        case DeleteAccount(u, p) =>
          success := u in passwords && p == passwords[u];
          if success { passwords := passwords - {u}; }
        case SendMessage(s, r, b) =>
          success := s in passwords && r in passwords;
          if success {
            var inbox := if r in messages then messages[r] else [];
            messages := messages[r := inbox + [Text(s, r, b)]];
          }
      }
      log := log + [EntryOf(request)];
    }

    /** The part of a write handler that follows its call of `replicate`. */
    method ApplyRequest(request: Request) returns (success: bool)
      modifies this`passwords, this`messages, this`log, this`counter
      ensures View() == ApplyLocally(old(View()), request)
      ensures success == AnswersSuccess(old(View()), request)
    {
      if !request.isClient {
        if request.counter <= counter { return true; }
        counter := request.counter;
      }
      success := Perform(request);
    }

    /** A write handler run for a forwarded request by a server that does not lead. */
    method HandleForwarded(request: Request) returns (success: bool)
      requires !request.isClient && !amILeader
      modifies this`passwords, this`messages, this`log, this`counter, this`lastRequest
      ensures View() == Follow(old(View()), request)
    {
      lastRequest := Some(request);
      success := ApplyRequest(request);
    }

    method ForgetStub(op: Op, i: nat)
      requires i < |Stubs(View(), op)|
      modifies this`authStubs, this`chatStubs
      ensures View() == DropStub(old(View()), op, i)
    {
      if op.SendMessage? { chatStubs := chatStubs[i := false]; } else { authStubs := authStubs[i := false]; }
    }
  }

  /** One pass of the loop in `replicate`, over two processes. */
  method CallTarget(me: ServerParams, target: ServerParams, i: nat, request: Request) returns (request': Request)
    requires me != target && i < |Stubs(me.View(), request.op)|
    requires !target.amILeader
    modifies me`counter, me`authStubs, me`chatStubs
    modifies target`lastRequest, target`counter, target`passwords, target`messages, target`log
    ensures (me.View(), target.View(), request') == Call(old(me.View()), old(target.View()), i, request)
  {
    var stubs := if request.op.SendMessage? then me.chatStubs else me.authStubs;
    request' := request;
    if stubs[i] {
      request' := request.(isClient := false, counter := me.counter + 1);
      if target.alive {
        var _ := target.HandleForwarded(request');
        request' := request'.(isClient := true);
        me.counter := me.counter + 1;
      } else {
        me.ForgetStub(request.op, i);
      }
    }
  }

  /** The stage of a forwarding loop: of the replay that precedes `waiting`, or of
      the client's own request. */
  function LoopStage(waiting: Option<Request>, i: nat, r: Request): Stage {
    match waiting
    case None => Forwarding(i, r)
    case Some(q) => Replaying(i, r, q)
  }

  ghost predicate OnlyCrashes(w: World, v: World) {
    && v == w.(servers := v.servers)
    && |v.servers| == |w.servers|
    && forall i :: 0 <= i < |w.servers| ==>
         v.servers[i] == w.servers[i].(alive := v.servers[i].alive) && (v.servers[i].alive ==> w.servers[i].alive)
  }

  lemma LoopStep(w: World, waiting: Option<Request>, i: nat, r: Request)
    requires Sized(w) && w.phase.Serving? && w.phase.stage == LoopStage(waiting, i, r)
    requires i < 2 - w.phase.at && w.servers[w.phase.at].alive
    ensures var (servers, r') := Rpc(w.servers, w.phase.at, i, r);
            && EntryOf(r') == EntryOf(r)
            && Enabled(w, Progress)
            && Step(w, Progress) == w.(servers := servers, phase := w.phase.(stage := LoopStage(waiting, i + 1, r')))
  {
  }

  lemma AcceptStep(w: World, c: nat)
    requires Sized(w) && w.phase == Sending(c) && w.servers[w.clients[c]].alive
    ensures var at, id := w.clients[c], |w.rounds| - 1;
            var me, req := w.servers[at], Request(id, w.rounds[id].op, true, 0);
            && Enabled(w, Progress)
            && Step(w, Progress) ==
                 w.(servers := w.servers[at := me.(leader := true)],
                    phase := Serving(c, at, if !me.leader && me.last.Some? then Replaying(0, me.last.value, req)
                                            else Forwarding(0, req)))
  {
  }

  lemma ApplyStep(w: World)
    requires Sized(w) && w.phase.Serving? && w.phase.stage.Applying? && w.servers[w.phase.at].alive
    ensures var at, req := w.phase.at, w.phase.stage.req;
            && Enabled(w, Progress)
            && Step(w, Progress) ==
                 w.(servers := w.servers[at := ApplyLocally(w.servers[at], req)],
                    phase := w.phase.(stage := Replying(AnswersSuccess(w.servers[at], req))))
  {
  }

  lemma FailStep(w: World, c: nat)
    requires Sized(w) && !w.phase.Idle? && w.phase.client == c && !w.servers[w.clients[c]].alive
    ensures var at := w.clients[c];
            && Enabled(w, Progress)
            && Step(w, Progress) ==
                 w.(clients := w.clients[c := at + 1], phase := if at + 1 == 3 then Idle else Sending(c),
                    rounds := if w.phase.Serving? then CountCrash(w.rounds) else w.rounds)
  {
  }

  /** Server `at`, the lowest live one, has answered the last client write: all
      live servers agree, and hold it between once and once more than its leader
      has crashed.  The answer is the outcome of the last copy they performed, which
      is the outcome of the write unless it is an account write that took effect
      and was performed again. */
  ghost predicate Answered(w: World, at: nat, store: Store, success: bool)
    requires Sized(w)
  {
    && at < 3 && w.servers[at].alive && Dead(w, at)
    && (forall j :: 0 <= j < 3 && w.servers[j].alive ==>
          w.servers[j].store == w.servers[at].store && w.servers[j].log == w.servers[at].log)
    && w.rounds != []
    && 1 <= Times(w.servers[at].log, |w.rounds| - 1) <= 1 + w.rounds[|w.rounds| - 1].crashes
    && OfLastCopy(w.servers[at].log, store, Entry(|w.rounds| - 1, w.rounds[|w.rounds| - 1].op), success)
    && Tells(store, w.rounds, w.servers[at].log, success)
  }

  lemma ReplyStep(w: World, store: Store)
    requires Inv(w, store) && w.phase.Serving? && w.phase.stage.Replying? && w.servers[w.phase.at].alive
    ensures Enabled(w, Progress)
    ensures Step(w, Progress) == w.(phase := Idle, rounds := Acknowledge(w.rounds))
    ensures Sized(Step(w, Progress)) && Answered(Step(w, Progress), w.phase.at, store, w.phase.stage.success)
  {
    ReplyFindsAgreement(w, store);
    assert Dead(w, w.clients[w.phase.client]);
    assert Counted(w.servers[w.phase.at].log, w.rounds);
    LastCopyTells(store, w.rounds, w.servers[w.phase.at].log, w.phase.stage.success);
    AcknowledgedTells(store, w.rounds, w.servers[w.phase.at].log, w.phase.stage.success);
  }

  lemma AcknowledgedTells(store: Store, rounds: seq<Round>, log: seq<Entry>, success: bool)
    requires rounds != [] && Tells(store, rounds, log, success)
    ensures Tells(store, Acknowledge(rounds), log, success)
  {
    assert Ops(Acknowledge(rounds)) == Ops(rounds);
  }

  lemma AllDeadAtTheEnd(w: World, store: Store, c: nat)
    requires Inv(w, store) && c < |w.clients| && w.clients[c] == 3
    ensures Dead(w, 3)
  {
  }

  /** Counting a crash and acknowledging change the last round alone. */
  lemma LastRoundOnly(rounds: seq<Round>, op: Op)
    requires rounds != [] && rounds[|rounds| - 1].op == op && !rounds[|rounds| - 1].acked
    ensures var n := |rounds| - 1;
            && |CountCrash(rounds)| == |Acknowledge(rounds)| == |rounds|
            && CountCrash(rounds)[..n] == rounds[..n] == Acknowledge(rounds)[..n]
            && CountCrash(rounds)[n] == Round(op, rounds[n].crashes + 1, false)
            && Acknowledge(rounds)[n] == Round(op, rounds[n].crashes, true)
  {
  }

  /** A run of the machine, said step by step. */
  ghost predicate Recorded(store: Store, clientCount: nat, states: seq<World>, events: seq<Event>) {
    && |states| == |events| + 1 && states[0] == Init(store, clientCount)
    && forall k :: 0 <= k < |events| ==> StepAt(states, events, k)
  }

  ghost predicate StepAt(states: seq<World>, events: seq<Event>, k: nat)
    requires k < |events| < |states|
  {
    Enabled(states[k], events[k]) && states[k + 1] == Step(states[k], events[k])
  }

  lemma RecordedIsRun(store: Store, clientCount: nat, states: seq<World>, events: seq<Event>)
    requires Recorded(store, clientCount, states, events)
    ensures IsRun(store, clientCount, states, events)
  {
    forall k | 0 <= k < |events| ensures Enabled(states[k], events[k]) && states[k + 1] == Step(states[k], events[k]) {
      assert StepAt(states, events, k);
    }
  }

  lemma RecordedGrows(store: Store, clientCount: nat, states: seq<World>, events: seq<Event>, e: Event)
    requires Recorded(store, clientCount, states, events) && Enabled(states[|events|], e)
    ensures Recorded(store, clientCount, states + [Step(states[|events|], e)], events + [e])
  {
    var states', events' := states + [Step(states[|events|], e)], events + [e];
    forall k | 0 <= k < |events'| ensures StepAt(states', events', k) {
      assert k < |events| ==> StepAt(states, events, k);
    }
  }

  /** Three servers and their clients.  `phase`, `rounds`, `states` and `events` are
      bookkeeping: the run of the machine that has been executed so far. */
  class Deployment {
    const server0: ServerParams
    const server1: ServerParams
    const server2: ServerParams
    var currLeader: seq<nat>
    ghost var phase: Phase
    ghost var rounds: seq<Round>
    ghost const initial: Store
    ghost const clientCount: nat
    ghost var states: seq<World>
    ghost var events: seq<Event>

    ghost const Repr: set<object> := {this, server0, server1, server2}

    function Node(i: nat): ServerParams
      requires i < 3
    {
      if i == 0 then server0 else if i == 1 then server1 else server2
    }

    ghost function Now(): World
      reads this, server0, server1, server2
    {
      World([server0.View(), server1.View(), server2.View()], currLeader, phase, rounds)
    }

    /** The state is the end of a run of the machine. */
    ghost predicate Valid()
      reads this, server0, server1, server2
    {
      && server0 != server1 && server0 != server2 && server1 != server2
      && Recorded(initial, clientCount, states, events)
      && states[|events|] == Now()
      && Sized(Now())
    }

    /** Whatever has been executed is a run of the machine. */
    lemma ExecutionIsRun()
      requires Valid()
      ensures IsRun(initial, clientCount, states, events) && states[|events|] == Now()
    {
      RecordedIsRun(initial, clientCount, states, events);
    }

    static lemma Invariant(store: Store, clientCount: nat, states: seq<World>, events: seq<Event>)
      requires Recorded(store, clientCount, states, events)
      ensures Inv(states[|events|], store)
    {
      RecordedIsRun(store, clientCount, states, events);
      RunKeepsInv(store, clientCount, states, events, |events|);
    }

    constructor (store: Store, clients: nat)
      ensures Valid() && fresh(Repr)
      ensures Now() == Init(store, clients) && initial == store && events == []
    {
      server0 := new ServerParams(0, store);
      server1 := new ServerParams(1, store);
      server2 := new ServerParams(2, store);
      currLeader := seq(clients, _ => 0);
      phase, rounds, initial, clientCount := Idle, [], store, clients;
      states, events := [Init(store, clients)], [];
    }

    /** Enter the step that has just been taken into the run. */
    ghost method Record(e: Event)
      requires server0 != server1 && server0 != server2 && server1 != server2
      requires Recorded(initial, clientCount, states, events)
      requires Enabled(states[|events|], e) && Now() == Step(states[|events|], e)
      modifies this`states, this`events
      ensures Valid() && Now() == old(Now()) && events == old(events) + [e] && states == old(states) + [Now()]
    {
      RecordedGrows(initial, clientCount, states, events, e);
      states := states + [Now()];
      events := events + [e];
      Invariant(initial, clientCount, states, events);
    }

    method CrashOne(i: nat)
      requires Valid() && i < 3
      modifies Node(i)`alive, this`states, this`events
      ensures Valid() && OnlyCrashes(old(Now()), Now())
      ensures old(states) <= states && old(events) <= events
    {
      Node(i).alive := false;
      assert Now().servers == Step(old(Now()), Crash(i)).servers;
      Record(Crash(i));
    }

    method MaybeCrash(i: nat)
      requires Valid() && i < 3
      modifies Node(i)`alive, this`states, this`events
      ensures Valid() && OnlyCrashes(old(Now()), Now())
      ensures old(states) <= states && old(events) <= events
    {
      if * { CrashOne(i); }
    }

    /** Any servers may stop here. */
    method CrashSome()
      requires Valid()
      modifies server0`alive, server1`alive, server2`alive, this`states, this`events
      ensures Valid() && OnlyCrashes(old(Now()), Now())
      ensures old(states) <= states && old(events) <= events
    {
      MaybeCrash(0);
      MaybeCrash(1);
      MaybeCrash(2);
    }

    /** One pass of the loop in `replicate`, over the three processes. */
    method CallBetween(at: nat, i: nat, request: Request) returns (request': Request)
      requires server0 != server1 && server0 != server2 && server1 != server2
      requires at < 3 && i < 2 - at && |Stubs(Node(at).View(), request.op)| == 2 - at
      requires !Node(at + 1 + i).amILeader
      modifies Node(at)`counter, Node(at)`authStubs, Node(at)`chatStubs
      modifies Node(at + 1 + i)`lastRequest, Node(at + 1 + i)`counter, Node(at + 1 + i)`passwords,
               Node(at + 1 + i)`messages, Node(at + 1 + i)`log
      ensures (Now().servers, request') == Rpc(old(Now()).servers, at, i, request)
      ensures Now() == old(Now()).(servers := Now().servers)
    {
      ghost var servers, j := Now().servers, at + 1 + i;
      request' := CallTarget(Node(at), Node(at + 1 + i), i, request);
      assert servers[at := Node(at).View()][j := Node(j).View()] == Now().servers;
    }

    /** One pass of the loop in `replicate`, entered into the run. */
    method CallStub(at: nat, i: nat, request: Request, ghost waiting: Option<Request>) returns (request': Request)
      requires Valid() && at < 3 && i < 2 - at && Node(at).alive
      requires phase.Serving? && phase.at == at && phase.stage == LoopStage(waiting, i, request)
      modifies Node(at)`counter, Node(at)`authStubs, Node(at)`chatStubs
      modifies Node(at + 1 + i)`lastRequest, Node(at + 1 + i)`counter, Node(at + 1 + i)`passwords,
               Node(at + 1 + i)`messages, Node(at + 1 + i)`log, this`phase, this`states, this`events
      ensures Valid() && phase == old(phase).(stage := LoopStage(waiting, i + 1, request'))
      ensures old(states) <= states && old(events) <= events
      ensures EntryOf(request') == EntryOf(request)
    {
      LoopStep(Now(), waiting, i, request);
      RecordedIsRun(initial, clientCount, states, events);
      TargetsAreFollowers(initial, clientCount, states, events, |events|);
      request' := CallBetween(at, i, request);
      phase := phase.(stage := LoopStage(waiting, i + 1, request'));
      Record(Progress);
    }

    /** One pass of the loop; any servers may stop before it. */
    method ForwardOne(at: nat, i: nat, request: Request, ghost waiting: Option<Request>) returns (request': Request)
      requires Valid() && at < 3 && i < 2 - at && Node(at).alive
      requires phase.Serving? && phase.at == at && phase.stage == LoopStage(waiting, i, request)
      modifies server0, server1, server2, this`phase, this`states, this`events
      ensures Valid() && phase.Serving? && phase == old(phase).(stage := phase.stage)
      ensures old(states) <= states && old(events) <= events
      ensures Node(at).alive ==> phase.stage == LoopStage(waiting, i + 1, request')
      ensures EntryOf(request') == EntryOf(request)
    {
      request' := request;
      CrashSome();
      if !Node(at).alive { return; }
      request' := CallStub(at, i, request, waiting);
    }

    /** The loop of `replicate`.  When the server stops, so does the loop. */
    method ForwardAll(at: nat, request: Request, ghost waiting: Option<Request>) returns (request': Request)
      requires Valid() && at < 3 && Node(at).alive
      requires phase.Serving? && phase.at == at && phase.stage == LoopStage(waiting, 0, request)
      modifies server0, server1, server2, this`phase, this`states, this`events
      ensures Valid() && phase.Serving? && phase == old(phase).(stage := phase.stage)
      ensures old(states) <= states && old(events) <= events
      ensures Node(at).alive ==> phase.stage == LoopStage(waiting, 2 - at, request')
      ensures EntryOf(request') == EntryOf(request)
    {
      request' := request;
      var i := 0;
      while i < 2 - at
        invariant i <= 2 - at && Valid() && Node(at).alive
        invariant old(states) <= states && old(events) <= events
        invariant phase.Serving? && phase == old(phase).(stage := LoopStage(waiting, i, request'))
        invariant EntryOf(request') == EntryOf(request)
      {
        request' := ForwardOne(at, i, request', waiting);
        if !Node(at).alive { return; }
        i := i + 1;
      }
    }

    /** A change to one process changes one entry of the machine's state. */
    twostate lemma OneNodeChanged(at: nat)
      requires at < 3
      requires at != 0 ==> unchanged(server0)
      requires at != 1 ==> unchanged(server1)
      requires at != 2 ==> unchanged(server2)
      ensures Now().servers == old(Now().servers)[at := Node(at).View()]
    {
    }

    method Promote(at: nat)
      requires server0 != server1 && server0 != server2 && server1 != server2 && at < 3
      modifies Node(at)`amILeader
      ensures Now() == old(Now()).(servers := old(Now()).servers[at := old(Now()).servers[at].(leader := true)])
    {
      assert Now().servers[at] == Node(at).View();
      Node(at).amILeader := true;
      OneNodeChanged(at);
    }

    method BecomeLeader(ghost c: nat, at: nat, request: Request)
      requires Valid() && phase == Sending(c) && at < 3 && currLeader[c] == at && Node(at).alive
      requires request == Request(|rounds| - 1, rounds[|rounds| - 1].op, true, 0)
      modifies Node(at)`amILeader, this`phase, this`states, this`events
      ensures Valid()
      ensures old(states) <= states && old(events) <= events
      ensures phase == Serving(c, at, if old(!Node(at).amILeader && Node(at).lastRequest.Some?)
                                      then Replaying(0, Node(at).lastRequest.value, request)
                                      else Forwarding(0, request))
    {
      ghost var me := Node(at).View();
      AcceptStep(Now(), c);
      Promote(at);
      phase := Serving(c, at, if !me.leader && me.last.Some? then Replaying(0, me.last.value, request)
                              else Forwarding(0, request));
      Record(Progress);
    }

    ghost method NextStage(stage: Stage)
      requires Valid() && phase.Serving? && Now().servers[phase.at].alive
      requires phase.stage.Replaying? || phase.stage.Forwarding?
      requires phase.stage.i == 2 - phase.at
      requires stage == if phase.stage.Replaying? then Forwarding(0, phase.stage.req) else Applying(phase.stage.req)
      modifies this`phase, this`states, this`events
      ensures Valid() && phase == old(phase).(stage := stage)
      ensures old(states) <= states && old(events) <= events
    {
      phase := phase.(stage := stage);
      Record(Progress);
    }

    /** `replicate` when the request comes from a client: take over if need be,
        replay the last request seen, then forward this one. */
    method ReplicateForClient(ghost c: nat, at: nat, request: Request) returns (request': Request)
      requires Valid() && phase == Sending(c) && at < 3 && currLeader[c] == at && Node(at).alive
      requires request == Request(|rounds| - 1, rounds[|rounds| - 1].op, true, 0)
      modifies server0, server1, server2, this`phase, this`states, this`events
      ensures Valid() && phase.Serving? && phase.client == c && phase.at == at
      ensures old(states) <= states && old(events) <= events
      ensures Node(at).alive ==> phase.stage == Applying(request')
    {
      var me := Node(at);
      request' := request;
      var takesOver := !me.amILeader && me.lastRequest.Some?;
      BecomeLeader(c, at, request);
      if takesOver {
        ReplayLast(at, me.lastRequest.value, request);
        if !me.alive { return; }
      }
      request' := ForwardClientWrite(at, request);
    }

    /** The replay of the last request seen, after a takeover. */
    method ReplayLast(at: nat, last: Request, ghost request: Request)
      requires Valid() && at < 3 && Node(at).alive
      requires phase.Serving? && phase.at == at && phase.stage == Replaying(0, last, request)
      modifies server0, server1, server2, this`phase, this`states, this`events
      ensures Valid() && phase.Serving? && phase == old(phase).(stage := phase.stage)
      ensures old(states) <= states && old(events) <= events
      ensures Node(at).alive ==> phase.stage == Forwarding(0, request)
    {
      var _ := ForwardAll(at, last, Some(request));
      if Node(at).alive { NextStage(Forwarding(0, request)); }
    }

    method ForwardClientWrite(at: nat, request: Request) returns (request': Request)
      requires Valid() && at < 3 && Node(at).alive
      requires phase.Serving? && phase.at == at && phase.stage == Forwarding(0, request)
      modifies server0, server1, server2, this`phase, this`states, this`events
      ensures Valid() && phase.Serving? && phase == old(phase).(stage := phase.stage)
      ensures old(states) <= states && old(events) <= events
      ensures Node(at).alive ==> phase.stage == Applying(request')
    {
      request' := ForwardAll(at, request, None);
      if Node(at).alive { NextStage(Applying(request')); }
    }

    method ApplyAt(at: nat, request: Request) returns (success: bool)
      requires server0 != server1 && server0 != server2 && server1 != server2 && at < 3
      modifies Node(at)`passwords, Node(at)`messages, Node(at)`log, Node(at)`counter
      ensures Now() == old(Now()).(servers := old(Now()).servers[at := ApplyLocally(old(Now()).servers[at], request)])
      ensures success == AnswersSuccess(old(Now()).servers[at], request)
    {
      assert Now().servers[at] == Node(at).View();
      success := Node(at).ApplyRequest(request);
      OneNodeChanged(at);
    }

    method ApplyHere(at: nat, request: Request) returns (success: bool)
      requires Valid() && phase.Serving? && phase.at == at < 3 && phase.stage == Applying(request) && Node(at).alive
      modifies Node(at)`passwords, Node(at)`messages, Node(at)`log, Node(at)`counter, this`phase, this`states,
               this`events
      ensures Valid() && phase == old(phase).(stage := Replying(success))
      ensures old(states) <= states && old(events) <= events
    {
      ApplyStep(Now());
      success := ApplyAt(at, request);
      phase := phase.(stage := Replying(success));
      Record(Progress);
    }

    ghost method Reply(at: nat, success: bool)
      requires Valid() && phase.Serving? && phase.at == at < 3 && phase.stage == Replying(success) && Node(at).alive
      modifies this`phase, this`rounds, this`states, this`events
      ensures Valid() && phase == Idle && rounds == Acknowledge(old(rounds)) && Answered(Now(), at, initial, success)
      ensures old(states) <= states && old(events) <= events
    {
      Invariant(initial, clientCount, states, events);
      ReplyStep(Now(), initial);
      phase, rounds := Idle, Acknowledge(rounds);
      Record(Progress);
    }

    /** The local write and the reply; any servers may stop before each. */
    method ApplyAndReply(at: nat, request: Request) returns (answered: bool, success: bool)
      requires Valid() && phase.Serving? && phase.at == at < 3 && phase.stage == Applying(request) && Node(at).alive
      modifies server0, server1, server2, this`phase, this`rounds, this`states, this`events
      ensures Valid()
      ensures old(states) <= states && old(events) <= events
      ensures answered ==> phase == Idle && rounds == Acknowledge(old(rounds)) && Answered(Now(), at, initial, success)
      ensures !answered ==> phase.Serving? && phase == old(phase).(stage := phase.stage)
      ensures !answered ==> rounds == old(rounds) && !Node(at).alive
    {
      answered, success := false, false;
      CrashSome();
      if !Node(at).alive { return; }
      success := ApplyHere(at, request);
      answered := TryReply(at, success);
    }

    method TryReply(at: nat, success: bool) returns (answered: bool)
      requires Valid() && phase.Serving? && phase.at == at < 3 && phase.stage == Replying(success) && Node(at).alive
      modifies server0, server1, server2, this`phase, this`rounds, this`states, this`events
      ensures Valid()
      ensures old(states) <= states && old(events) <= events
      ensures answered ==> phase == Idle && rounds == Acknowledge(old(rounds)) && Answered(Now(), at, initial, success)
      ensures !answered ==> phase == old(phase) && rounds == old(rounds) && !Node(at).alive
    {
      answered := false;
      CrashSome();
      if Node(at).alive {
        Reply(at, success);
        answered := true;
      }
    }

    /** A client write is handled by server `at`: the body of Register,
        DeleteAccount or SendMessage.  No answer means that the server stopped. */
    method HandleWrite(ghost c: nat, at: nat, request: Request) returns (answered: bool, success: bool)
      requires Valid() && phase == Sending(c) && at < 3 && currLeader[c] == at && Node(at).alive
      requires request == Request(|rounds| - 1, rounds[|rounds| - 1].op, true, 0)
      modifies server0, server1, server2, this`phase, this`rounds, this`states, this`events
      ensures Valid()
      ensures old(states) <= states && old(events) <= events
      ensures answered ==> phase == Idle && rounds == Acknowledge(old(rounds)) && Answered(Now(), at, initial, success)
      ensures !answered ==> phase.Serving? && phase.client == c && phase.at == at
      ensures !answered ==> rounds == old(rounds) && !Node(at).alive
    {
      answered, success := false, false;
      var request' := ReplicateForClient(c, at, request);
      if !Node(at).alive { return; }
      answered, success := ApplyAndReply(at, request');
    }

    ghost method Issue(c: nat, op: Op)
      requires Valid() && phase == Idle && c < |currLeader| && currLeader[c] < 3
      modifies this`phase, this`rounds, this`states, this`events
      ensures Valid() && phase == Sending(c) && rounds == old(rounds) + [Round(op, 0, false)]
      ensures old(states) <= states && old(events) <= events
    {
      phase, rounds := Sending(c), rounds + [Round(op, 0, false)];
      Record(Event.Issue(c, op));
    }

    /** The exception branch of `send_request`: move to the next server. */
    method NextLeader(c: nat)
      requires Valid() && c < |currLeader| && currLeader[c] < 3 && !Node(currLeader[c]).alive
      requires !phase.Idle? && phase.client == c
      modifies this`currLeader, this`phase, this`rounds, this`states, this`events
      ensures Valid() && currLeader == old(currLeader)[c := old(currLeader)[c] + 1]
      ensures old(states) <= states && old(events) <= events
      ensures phase == if currLeader[c] == 3 then Idle else Sending(c)
      ensures rounds == if old(phase).Serving? then CountCrash(old(rounds)) else old(rounds)
      ensures currLeader[c] == 3 ==> Dead(Now(), 3)
    {
      ghost var at := currLeader[c];
      assert Now().servers[at] == Node(at).View();
      FailStep(Now(), c);
      currLeader := currLeader[c := currLeader[c] + 1];
      rounds := if phase.Serving? then CountCrash(rounds) else rounds;
      phase := if at + 1 == 3 then Idle else Sending(c);
      Record(Progress);
      Invariant(initial, clientCount, states, events);
      if currLeader[c] == 3 { AllDeadAtTheEnd(Now(), initial, c); }
    }

    /** One turn of the loop of `send_request`. */
    method TryLeader(c: nat, op: Op, tag: nat) returns (answered: bool, success: bool)
      requires Valid() && c < |currLeader| && phase == Sending(c)
      requires tag == |rounds| - 1 && rounds[tag] == Round(op, rounds[tag].crashes, false)
      modifies Repr
      ensures Valid() && |currLeader| == |old(currLeader)|
      ensures old(states) <= states && old(events) <= events
      ensures |rounds| == |old(rounds)| && rounds[..tag] == old(rounds)[..tag]
      ensures rounds[tag] == Round(op, rounds[tag].crashes, answered)
      ensures answered ==> phase == Idle && currLeader == old(currLeader)
      ensures answered ==> Answered(Now(), currLeader[c], initial, success)
      ensures !answered ==> currLeader[c] == old(currLeader)[c] + 1
      ensures !answered ==> if currLeader[c] < 3 then phase == Sending(c) else phase == Idle && Dead(Now(), 3)
    {
      LastRoundOnly(rounds, op);
      answered, success := AskLeader(c, op, tag);
      if !answered { NextLeader(c); }
    }

    /** The call of the current leader; any servers may stop before it. */
    method AskLeader(c: nat, op: Op, tag: nat) returns (answered: bool, success: bool)
      requires Valid() && c < |currLeader| && phase == Sending(c)
      requires tag == |rounds| - 1 && rounds[tag].op == op
      modifies server0, server1, server2, this`phase, this`rounds, this`states, this`events
      ensures Valid()
      ensures old(states) <= states && old(events) <= events
      ensures answered ==> phase == Idle && rounds == Acknowledge(old(rounds))
      ensures answered ==> Answered(Now(), currLeader[c], initial, success)
      ensures !answered ==> !phase.Idle? && phase.client == c && rounds == old(rounds) && !Node(currLeader[c]).alive
    {
      CrashSome();
      var at := currLeader[c];
      answered, success := false, false;
      if Node(at).alive { answered, success := HandleWrite(c, at, Request(tag, op, true, 0)); }
    }

    /** `send_request` for a write: try the current leader, and the next server
        each time a call fails, until one answers or none is left.  `tag` is the
        bookkeeping number of this write. */
    method SendRequest(c: nat, op: Op, tag: nat) returns (response: Option<bool>)
      requires tag == |rounds| && Valid() && phase == Idle && c < |currLeader| && currLeader[c] < 3
      modifies Repr
      ensures Valid() && phase == Idle && |currLeader| == |old(currLeader)|
      ensures old(states) <= states && old(events) <= events
      ensures |rounds| == tag + 1 && rounds[..tag] == old(rounds)
      ensures rounds[tag] == Round(op, rounds[tag].crashes, response.Some?)
      ensures old(currLeader[c]) <= currLeader[c] <= 3
      ensures response.Some? ==> Answered(Now(), currLeader[c], initial, response.value)
      ensures response.None? ==> currLeader[c] == 3 && Dead(Now(), 3)
    {
      Issue(c, op);
      var first := currLeader[c];
      while true
        invariant Valid() && phase == Sending(c) && |currLeader| == |old(currLeader)|
        invariant old(states) <= states && old(events) <= events
        invariant first <= currLeader[c] < 3
        invariant |rounds| == tag + 1 && rounds[..tag] == old(rounds)
        invariant rounds[tag] == Round(op, rounds[tag].crashes, false)
        decreases 3 - currLeader[c]
      {
        var answered, success := TryLeader(c, op, tag);
        if answered { return Some(success); }
        if currLeader[c] > 2 { return None; }
      }
    }
  }
}
