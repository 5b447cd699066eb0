/** The invariant of the replication machine, and its proof step by step. */
module ReplicationInvariant {
  import opened ReplicatedStore
  import opened Replication

  ghost predicate Dead(w: World, below: nat)
    requires |w.servers| == 3 && below <= 3
  {
    forall j :: 0 <= j < below ==> !w.servers[j].alive
  }

  /** Who may lead, whose stubs may be gone, and what the request in flight carries. */
  ghost predicate Roles(w: World) {
    && Sized(w)
    && w.servers[0].leader
    && (forall i :: 0 <= i < 3 && w.servers[i].leader ==> Dead(w, i))
    && (forall c :: 0 <= c < |w.clients| ==> Dead(w, w.clients[c]))
    && StubsFit(w.servers)
    && (w.phase.Serving? ==>
          && w.servers[w.phase.at].leader
          && (forall j :: w.phase.at < j < 3 ==> !w.servers[j].leader)
          && StageFits(w.servers[w.phase.at], w.phase.at, w.phase.stage, |w.rounds| - 1, w.rounds[|w.rounds| - 1].op))
  }

  /** Only stubs of dead servers have been dropped. */
  ghost predicate StubsFit(s: seq<Server>)
    requires |s| == 3
    requires forall i :: 0 <= i < 3 ==> |s[i].authUp| == |s[i].chatUp| == 2 - i
  {
    forall i, k :: 0 <= i < 3 && 0 <= k < 2 - i && (!s[i].authUp[k] || !s[i].chatUp[k]) ==> !s[i + 1 + k].alive
  }

  ghost predicate StageFits(me: Server, at: nat, stage: Stage, id: nat, op: Op) {
    match stage
    case Replaying(_, prev, req) =>
      at > 0 && req == Request(id, op, true, 0) && me.last.Some? && EntryOf(prev) == EntryOf(me.last.value)
    case Forwarding(_, req) => EntryOf(req) == Entry(id, op) && (!req.isClient ==> req.counter == me.counter + 1)
    case Applying(req) => EntryOf(req) == Entry(id, op) && (!req.isClient ==> req.counter == me.counter + 1)
    case Replying(_) => true
  }

  /* How servers 1 and 2 compare while server 0 leads or after it has died. */

  /** Same writes; server 2's counter is the number a replay from server 1 would carry. */
  ghost predicate Paired(a: Server, b: Server) {
    && a.log == b.log
    && (a.last.None? ==> a.counter == 0 && b.counter == 0)
    && (a.last.Some? ==> b.counter == a.counter + 1)
  }

  /** Server 1 has one write more, the last request it has seen; a replay is new to server 2. */
  ghost predicate Ahead(a: Server, b: Server) {
    a.last.Some? && a.log == b.log + [EntryOf(a.last.value)] && b.counter <= a.counter
  }

  ghost predicate Level(a: Server, b: Server) { a.log == b.log && b.counter <= a.counter }

  ghost predicate Behind(a: Server, b: Server, e: Entry) { b.log == a.log + [e] && b.counter <= a.counter }

  /** The write in flight, while its server has not performed it itself. */
  ghost predicate Given(stage: Stage, j: nat) {
    (stage.Forwarding? && stage.i >= j) || stage.Applying?
  }

  /** Server 0 leads and server `j` is alive. */
  ghost predicate UnderZero(lead: Server, s: Server, phase: Phase, j: nat)
    requires phase.Serving? ==> phase.stage.Forwarding? || phase.stage.Applying? || phase.stage.Replying?
  {
    if phase.Serving? && Given(phase.stage, j)
    then Behind(lead, s, EntryOf(phase.stage.req)) && s.last.Some? && EntryOf(s.last.value) == EntryOf(phase.stage.req)
    else Level(lead, s)
  }

  ghost predicate ShapeZero(s: seq<Server>, phase: Phase)
    requires |s| == 3
    requires phase.Serving? ==> phase.stage.Forwarding? || phase.stage.Applying? || phase.stage.Replying?
  {
    && (s[1].alive ==> UnderZero(s[0], s[1], phase, 1))
    && (s[2].alive ==> UnderZero(s[0], s[2], phase, 2))
    && (s[1].alive && s[2].alive ==>
          if phase.Serving? && phase.stage.Forwarding? && phase.stage.i == 1
          then Ahead(s[1], s[2]) && s[1].counter == s[0].counter
          else Paired(s[1], s[2]))
  }

  /** Server 0 is dead, servers 1 and 2 are alive. */
  ghost predicate ShapeOne(a: Server, b: Server, phase: Phase) {
    if !a.leader then Paired(a, b) || Ahead(a, b)
    else if phase.Serving? then
      match phase.stage
      case Replaying(i, _, _) => if i == 0 then Paired(a, b) || Ahead(a, b) else Level(a, b)
      case Forwarding(i, req) => if i == 0 then Level(a, b) else Behind(a, b, EntryOf(req))
      case Applying(req) => Behind(a, b, EntryOf(req))
      case Replying(_) => Level(a, b)
    else Level(a, b)
  }

  ghost predicate Shape(w: World)
    requires Roles(w)
  {
    var s := w.servers;
    if s[0].alive then (w.phase.Serving? ==> w.phase.at == 0) && ShapeZero(s, w.phase)
    else s[1].alive && s[2].alive ==> (w.phase.Serving? ==> w.phase.at < 2) && ShapeOne(s[1], s[2], w.phase)
  }

  /** A log lists writes of known rounds, in round order. */
  ghost predicate LogFits(log: seq<Entry>, rounds: seq<Round>) {
    && Ascending(log)
    && forall k :: 0 <= k < |log| ==> log[k].id < |rounds| && log[k].op == rounds[log[k].id].op
  }

  /** How often a live log holds the write of each round. */
  ghost predicate Counted(log: seq<Entry>, rounds: seq<Round>) {
    && LogFits(log, rounds)
    && forall r :: 0 <= r < |rounds| ==>
         Times(log, r) <= rounds[r].crashes + 1 && (rounds[r].acked ==> Times(log, r) >= 1)
  }

  ghost predicate Current(w: World, log: seq<Entry>)
    requires w.rounds != []
  {
    Times(log, |w.rounds| - 1) <= w.rounds[|w.rounds| - 1].crashes
  }

  ghost predicate Counts(w: World)
    requires Sized(w)
  {
    && (forall i :: 0 <= i < 3 && w.servers[i].alive ==> Counted(w.servers[i].log, w.rounds))
    && (w.phase.Sending? ==> forall i :: 0 <= i < 3 && w.servers[i].alive ==> Current(w, w.servers[i].log))
    && (w.phase.Serving? && w.servers[w.phase.at].alive ==>
          if w.phase.stage.Replying? then Times(w.servers[w.phase.at].log, |w.rounds| - 1) >= 1
          else Current(w, w.servers[w.phase.at].log))
    && (!w.phase.Idle? ==> !w.rounds[|w.rounds| - 1].acked)
    && (forall r :: 0 <= r < |w.rounds| && !w.rounds[r].acked && (w.phase.Idle? || r < |w.rounds| - 1) ==> Dead(w, 3))
  }

  ghost predicate StoresMatch(w: World, store: Store) {
    forall i :: 0 <= i < |w.servers| ==> w.servers[i].store == Replay(store, w.servers[i].log)
  }

  /** The answer a server is about to give is the outcome of the last entry of its
      log, which is a copy of the write in flight. */
  ghost predicate OfLastCopy(log: seq<Entry>, store: Store, e: Entry, success: bool) {
    && log != [] && log[|log| - 1] == e
    && success == Succeeds(Replay(store, log[..|log| - 1]), e.op)
  }

  ghost predicate Reported(w: World, store: Store)
    requires Sized(w)
  {
    w.phase.Serving? && w.phase.stage.Replying? ==>
      var n := |w.rounds| - 1;
      OfLastCopy(w.servers[w.phase.at].log, store, Entry(n, w.rounds[n].op), w.phase.stage.success)
  }

  ghost predicate Inv(w: World, store: Store) {
    Roles(w) && Shape(w) && Counts(w) && StoresMatch(w, store) && Reported(w, store)
  }

  lemma InitInv(store: Store, clientCount: nat)
    ensures Inv(Init(store, clientCount), store)
  {
  }

  /** What one pass of the forwarding loop does. */
  lemma RpcEffect(w: World, i: nat, req: Request)
    requires Roles(w) && w.phase.Serving? && w.phase.at + 1 + i < 3
    requires w.servers[w.phase.at].alive
    ensures var (servers, sent) := Rpc(w.servers, w.phase.at, i, req);
            var at, j := w.phase.at, w.phase.at + 1 + i;
            && |servers| == 3 && EntryOf(sent) == EntryOf(req)
            && (forall k :: 0 <= k < 3 && k != at && k != j ==> servers[k] == w.servers[k])
            && servers[at] == w.servers[at].(counter := servers[at].counter, authUp := servers[at].authUp,
                chatUp := servers[at].chatUp)
            && (w.servers[j].alive ==>
                  && sent.isClient
                  && servers[at].counter == w.servers[at].counter + 1
                  && servers[at] == w.servers[at].(counter := w.servers[at].counter + 1)
                  && servers[j] == Follow(w.servers[j], Request(req.id, req.op, false, w.servers[at].counter + 1)))
            && (!w.servers[j].alive ==>
                  && servers[at].counter == w.servers[at].counter && servers[j] == w.servers[j]
                  && (sent == req || sent == req.(isClient := false, counter := w.servers[at].counter + 1))
                  && |servers[at].authUp| == |servers[at].chatUp| == 2 - at
                  && (forall k :: 0 <= k < 2 - at && k != i ==>
                      servers[at].authUp[k] == w.servers[at].authUp[k]
                        && servers[at].chatUp[k] == w.servers[at].chatUp[k]))
  {
  }

  /* Crashes and the steps of clients. */

  lemma CrashKeepsInv(w: World, store: Store, i: nat)
    requires Inv(w, store) && i < 3
    ensures Inv(Step(w, Crash(i)), store)
  {
    CrashKeepsRoles(w, i);
    CrashKeepsShape(w, i);
    CrashKeepsCounts(w, i);
  }

  lemma CrashKeepsCounts(w: World, i: nat)
    requires Sized(w) && Counts(w) && i < 3 && Sized(Step(w, Crash(i)))
    ensures Counts(Step(w, Crash(i)))
  {
    var v := Step(w, Crash(i));
    forall j | 0 <= j < 3
      ensures v.servers[j].log == w.servers[j].log && (v.servers[j].alive ==> w.servers[j].alive)
    {}
    assert v.phase == w.phase && v.rounds == w.rounds;
  }

  lemma CrashKeepsRoles(w: World, i: nat)
    requires Roles(w) && i < 3
    ensures Roles(Step(w, Crash(i)))
  {
    var v := Step(w, Crash(i));
    forall j | 0 <= j < 3
      ensures (v.servers[j].alive ==> w.servers[j].alive) && v.servers[j] == w.servers[j].(alive := v.servers[j].alive)
    {}
  }

  lemma CrashKeepsShape(w: World, i: nat)
    requires Roles(w) && Shape(w) && i < 3 && Roles(Step(w, Crash(i)))
    ensures Shape(Step(w, Crash(i)))
  {
    var v := Step(w, Crash(i));
    assert v.phase == w.phase;
    if w.servers[0].alive && !v.servers[0].alive && v.servers[1].alive && v.servers[2].alive {
      assert v.servers[1] == w.servers[1] && v.servers[2] == w.servers[2];
      assert !w.servers[1].leader;
    }
  }

  lemma ReadKeepsInv(w: World, store: Store, c: nat)
    requires Inv(w, store) && Enabled(w, Read(c))
    ensures Inv(Step(w, Read(c)), store)
  {
    ReadKeepsRoles(w, c);
    var v := Step(w, Read(c));
    assert v.servers == w.servers && v.phase == w.phase && v.rounds == w.rounds;
    SameServersKeepCounts(w, v);
  }

  lemma SameServersKeepCounts(w: World, v: World)
    requires Sized(w) && Sized(v) && Counts(w) && v.servers == w.servers && v.rounds == w.rounds
    requires v.phase == w.phase ||
             (w.phase.Serving? && v.phase.Serving? && !w.phase.stage.Replying? && !v.phase.stage.Replying?
               && v.phase.at == w.phase.at)
    ensures Counts(v)
  {
  }

  lemma ReadKeepsRoles(w: World, c: nat)
    requires Roles(w) && Enabled(w, Read(c))
    ensures Roles(Step(w, Read(c)))
  {
    var v := Step(w, Read(c));
    assert Dead(w, w.clients[c]);
    forall k | 0 <= k < |v.clients| ensures Dead(v, v.clients[k]) && v.clients[k] <= 3 {
      if k != c { assert v.clients[k] == w.clients[k]; }
    }
  }

  lemma IssueKeepsInv(w: World, store: Store, c: nat, op: Op)
    requires Inv(w, store) && Enabled(w, Issue(c, op))
    ensures Inv(Step(w, Issue(c, op)), store)
  {
    IssueKeepsCounts(w, c, op);
  }

  lemma CountedWithNewRound(log: seq<Entry>, rounds: seq<Round>, op: Op)
    requires Counted(log, rounds)
    ensures Counted(log, rounds + [Round(op, 0, false)]) && Times(log, |rounds|) == 0
  {
    TimesPositive(log, |rounds|);
  }

  lemma IssueKeepsCounts(w: World, c: nat, op: Op)
    requires Sized(w) && Counts(w) && Enabled(w, Issue(c, op)) && Sized(Step(w, Issue(c, op)))
    ensures Counts(Step(w, Issue(c, op)))
  {
    forall i | 0 <= i < 3 && w.servers[i].alive
      ensures Counted(w.servers[i].log, w.rounds + [Round(op, 0, false)]) && Times(w.servers[i].log, |w.rounds|) == 0
    {
      CountedWithNewRound(w.servers[i].log, w.rounds, op);
    }
  }

  lemma FailOverKeepsInv(w: World, store: Store)
    requires Inv(w, store) && !w.phase.Idle? && !w.servers[w.clients[w.phase.client]].alive
    ensures Inv(Advance(w), store)
  {
    var v := Advance(w);
    assert v.servers == w.servers;
    FailOverKeepsRoles(w);
    assert Shape(v);
    FailOverKeepsCounts(w);
  }

  lemma FailOverKeepsRoles(w: World)
    requires Roles(w) && !w.phase.Idle? && !w.servers[w.clients[w.phase.client]].alive
    ensures Roles(Advance(w))
  {
    var v, c := Advance(w), w.phase.client;
    assert Dead(w, w.clients[c]);
    forall k | 0 <= k < |v.clients| ensures Dead(v, v.clients[k]) {
      if k != c { assert v.clients[k] == w.clients[k]; }
    }
  }

  lemma CountedAfterCrash(log: seq<Entry>, rounds: seq<Round>)
    requires rounds != [] && Counted(log, rounds) && !rounds[|rounds| - 1].acked
    ensures Counted(log, CountCrash(rounds))
    ensures Times(log, |rounds| - 1) <= CountCrash(rounds)[|rounds| - 1].crashes
  {
    var later, n := CountCrash(rounds), |rounds| - 1;
    assert forall r :: 0 <= r < n ==> later[r] == rounds[r];
    assert later[n] == rounds[n].(crashes := rounds[n].crashes + 1);
  }

  lemma FailOverKeepsCounts(w: World)
    requires Roles(w) && Counts(w) && !w.phase.Idle? && !w.servers[w.clients[w.phase.client]].alive
    requires Roles(Advance(w))
    ensures Counts(Advance(w))
  {
    var v, n := Advance(w), |w.rounds| - 1;
    if w.phase.Serving? {
      assert v.rounds == CountCrash(w.rounds);
      forall i | 0 <= i < 3 && v.servers[i].alive
        ensures Counted(v.servers[i].log, v.rounds) && Current(v, v.servers[i].log)
      {
        assert Counted(w.servers[i].log, w.rounds);
        CountedAfterCrash(w.servers[i].log, w.rounds);
      }
    }
    if v.phase.Idle? { assert Dead(v, v.clients[w.phase.client]); }
  }

  lemma AcceptKeepsInv(w: World, store: Store)
    requires Inv(w, store) && w.phase.Sending? && w.servers[w.clients[w.phase.client]].alive
    ensures Inv(Advance(w), store)
  {
    var v, at := Advance(w), w.clients[w.phase.client];
    forall j | 0 <= j < 3
      ensures v.servers[j] == w.servers[j].(leader := v.servers[j].leader)
      ensures v.servers[j].leader == (w.servers[j].leader || j == at)
    {}
    AcceptKeepsRoles(w);
    AcceptKeepsShape(w);
    assert Counts(v) by {
      assert forall j :: 0 <= j < 3 ==>
        v.servers[j].log == w.servers[j].log && v.servers[j].alive == w.servers[j].alive;
    }
  }

  lemma AcceptKeepsRoles(w: World)
    requires Roles(w) && w.phase.Sending? && w.servers[w.clients[w.phase.client]].alive
    ensures Roles(Advance(w))
  {
    var v, at := Advance(w), w.clients[w.phase.client];
    assert Dead(w, at);
    forall j | 0 <= j < 3
      ensures v.servers[j] == w.servers[j].(leader := v.servers[j].leader)
      ensures v.servers[j].leader == (w.servers[j].leader || j == at)
    {}
  }

  lemma AcceptKeepsShape(w: World)
    requires Roles(w) && Shape(w) && w.phase.Sending? && w.servers[w.clients[w.phase.client]].alive
    requires Roles(Advance(w))
    ensures Shape(Advance(w))
  {
    var at := w.clients[w.phase.client];
    assert Dead(w, at);
  }

  /* The forwarding loop. */

  ghost predicate AtForward(w: World) {
    && Sized(w) && w.phase.Serving? && w.phase.stage.Forwarding? && w.phase.stage.i < 2 - w.phase.at
    && w.servers[w.phase.at].alive
  }

  function Target(w: World): nat
    requires w.phase.Serving? && (w.phase.stage.Forwarding? || w.phase.stage.Replaying?)
  {
    w.phase.at + 1 + w.phase.stage.i
  }

  /** A forwarded client write is never dropped: a live target has the leader's
      log and a smaller counter than the one sent, and ends with the write added. */
  lemma ForwardIsPerformed(w: World)
    requires Roles(w) && Shape(w) && AtForward(w) && w.servers[Target(w)].alive
    ensures !w.servers[Target(w)].leader
    ensures w.servers[Target(w)].counter <= w.servers[w.phase.at].counter
    ensures var s := Advance(w).servers[Target(w)];
            && s.log == w.servers[w.phase.at].log + [EntryOf(w.phase.stage.req)]
            && s.counter == w.servers[w.phase.at].counter + 1
            && s.last.Some? && EntryOf(s.last.value) == EntryOf(w.phase.stage.req)
            && s.store == Apply(w.servers[Target(w)].store, w.phase.stage.req.op)
  {
    var at := w.phase.at;
    assert Dead(w, at) && at < 2;
    RpcEffect(w, w.phase.stage.i, w.phase.stage.req);
  }

  /** Roles survive a change of the servers that crashes nobody, promotes nobody
      and forgets only stubs of dead servers. */
  lemma RolesCarryOver(w: World, v: World)
    requires Roles(w) && w.phase.Serving? && v.phase.Serving? && |v.servers| == 3
    requires v == w.(servers := v.servers, phase := w.phase.(stage := v.phase.stage))
    requires forall k :: 0 <= k < 3 ==>
      && v.servers[k].alive == w.servers[k].alive && v.servers[k].leader == w.servers[k].leader
      && |v.servers[k].authUp| == |v.servers[k].chatUp| == 2 - k
    requires StubsFit(v.servers)
    requires v.phase.stage.Replaying? || v.phase.stage.Forwarding? ==> v.phase.stage.i <= 2 - w.phase.at
    requires StageFits(v.servers[w.phase.at], w.phase.at, v.phase.stage, |w.rounds| - 1, w.rounds[|w.rounds| - 1].op)
    ensures Roles(v)
  {
    assert forall k :: 0 <= k <= 3 && Dead(w, k) ==> Dead(v, k);
  }

  lemma CallKeepsStubs(me: Server, target: Server, i: nat, req: Request)
    requires i < |me.authUp| == |me.chatUp|
    ensures var (me', target', _) := Call(me, target, i, req);
            && me'.alive == me.alive && target'.alive == target.alive
            && target'.authUp == target.authUp && target'.chatUp == target.chatUp
            && |me'.authUp| == |me'.chatUp| == |me.authUp|
            && forall k :: 0 <= k < |me.authUp| && (k != i || target.alive) ==>
                 me'.authUp[k] == me.authUp[k] && me'.chatUp[k] == me.chatUp[k]
  {
  }

  lemma RpcKeepsStubs(w: World, i: nat, req: Request)
    requires Sized(w) && StubsFit(w.servers) && w.phase.Serving? && w.phase.at + 1 + i < 3
    ensures var s := Rpc(w.servers, w.phase.at, i, req).0;
            (forall k :: 0 <= k < 3 ==> |s[k].authUp| == |s[k].chatUp| == 2 - k) && StubsFit(s)
  {
    var at, j := w.phase.at, w.phase.at + 1 + i;
    CallKeepsStubs(w.servers[at], w.servers[j], i, req);
    var (me, target, _) := Call(w.servers[at], w.servers[j], i, req);
    StubsAfterCall(w.servers, at, i, me, target);
  }

  lemma StubsAfterCall(s: seq<Server>, at: nat, i: nat, me: Server, target: Server)
    requires |s| == 3 && at + 1 + i < 3
    requires forall k :: 0 <= k < 3 ==> |s[k].authUp| == |s[k].chatUp| == 2 - k
    requires StubsFit(s)
    requires var j := at + 1 + i;
             && me.alive == s[at].alive && target.alive == s[j].alive
             && target.authUp == s[j].authUp && target.chatUp == s[j].chatUp
             && |me.authUp| == |me.chatUp| == 2 - at
             && forall k :: 0 <= k < 2 - at && (k != i || s[j].alive) ==>
                  me.authUp[k] == s[at].authUp[k] && me.chatUp[k] == s[at].chatUp[k]
    ensures var s' := s[at := me][at + 1 + i := target];
            (forall k :: 0 <= k < 3 ==> |s'[k].authUp| == |s'[k].chatUp| == 2 - k) && StubsFit(s')
  {
    var j := at + 1 + i;
    var s' := s[at := me][j := target];
    forall k | 0 <= k < 3 ensures |s'[k].authUp| == |s'[k].chatUp| == 2 - k && s'[k].alive == s[k].alive {}
    forall p, k | 0 <= p < 3 && 0 <= k < 2 - p && (!s'[p].authUp[k] || !s'[p].chatUp[k]) ensures !s'[p + 1 + k].alive {
      if p == at {
        assert (k == i && !s[j].alive) || (s'[p].authUp[k] == s[p].authUp[k] && s'[p].chatUp[k] == s[p].chatUp[k]);
      } else {
        assert s'[p].authUp == s[p].authUp && s'[p].chatUp == s[p].chatUp;
      }
    }
  }

  lemma RpcKeepsRoles(w: World, i: nat, req: Request, stage: Stage)
    requires Roles(w) && w.phase.Serving? && w.phase.at + 1 + i < 3 && w.servers[w.phase.at].alive
    requires var (servers, sent) := Rpc(w.servers, w.phase.at, i, req);
             && (stage.Replaying? || stage.Forwarding? ==> stage.i <= 2 - w.phase.at)
             && StageFits(servers[w.phase.at], w.phase.at, stage, |w.rounds| - 1, w.rounds[|w.rounds| - 1].op)
    ensures Roles(w.(servers := Rpc(w.servers, w.phase.at, i, req).0, phase := w.phase.(stage := stage)))
  {
    RpcEffect(w, i, req);
    RpcKeepsStubs(w, i, req);
    RolesCarryOver(w, w.(servers := Rpc(w.servers, w.phase.at, i, req).0, phase := w.phase.(stage := stage)));
  }

  lemma ForwardKeepsInv(w: World, store: Store)
    requires Inv(w, store) && AtForward(w)
    ensures Inv(Advance(w), store)
  {
    ForwardKeepsRoles(w);
    ForwardKeepsShape(w);
    ForwardKeepsCounts(w);
    ForwardLogs(w);
    StoresCarryOver(w, Advance(w), store, Target(w), EntryOf(w.phase.stage.req));
  }

  lemma ForwardKeepsRoles(w: World)
    requires Roles(w) && Shape(w) && AtForward(w)
    ensures Roles(Advance(w))
  {
    RpcEffect(w, w.phase.stage.i, w.phase.stage.req);
    RpcKeepsRoles(w, w.phase.stage.i, w.phase.stage.req, Advance(w).phase.stage);
  }

  /** Stores keep matching logs when one server performs one write. */
  lemma StoresCarryOver(w: World, v: World, store: Store, j: nat, e: Entry)
    requires |v.servers| == |w.servers| == 3 && j < 3 && StoresMatch(w, store)
    requires forall k :: 0 <= k < 3 && k != j ==>
      v.servers[k].log == w.servers[k].log && v.servers[k].store == w.servers[k].store
    requires (v.servers[j].log == w.servers[j].log && v.servers[j].store == w.servers[j].store) ||
             (v.servers[j].log == w.servers[j].log + [e] && v.servers[j].store == Apply(w.servers[j].store, e.op))
    ensures StoresMatch(v, store)
  {
    ReplayAppend(store, w.servers[j].log, e);
  }

  lemma ForwardKeepsShape(w: World)
    requires Roles(w) && Shape(w) && AtForward(w) && Roles(Advance(w))
    ensures Shape(Advance(w))
  {
    RpcEffect(w, w.phase.stage.i, w.phase.stage.req);
    if w.servers[Target(w)].alive { ForwardIsPerformed(w); }
  }

  lemma CountedAppend(log: seq<Entry>, rounds: seq<Round>)
    requires rounds != [] && Counted(log, rounds) && Times(log, |rounds| - 1) <= rounds[|rounds| - 1].crashes
    ensures Counted(log + [Entry(|rounds| - 1, rounds[|rounds| - 1].op)], rounds)
    ensures Times(log + [Entry(|rounds| - 1, rounds[|rounds| - 1].op)], |rounds| - 1) >= 1
  {
    var e := Entry(|rounds| - 1, rounds[|rounds| - 1].op);
    forall r | 0 <= r < |rounds|
      ensures Times(log + [e], r) == Times(log, r) + if r == e.id then 1 else 0
    {
      TimesAppend(log, e, r);
    }
  }

  /** One server `j` gains the write in flight on top of the handling server's log,
      or takes over that log. */
  ghost predicate OneGains(w: World, v: World, j: nat)
    requires Sized(w) && Sized(v) && j < 3
  {
    && v.rounds == w.rounds && w.phase.Serving? && v.phase.Serving? && v.phase.at == w.phase.at != j
    && w.servers[w.phase.at].alive && !w.phase.stage.Replying? && !v.phase.stage.Replying?
    && (forall k :: 0 <= k < 3 ==> v.servers[k].alive == w.servers[k].alive)
    && (forall k :: 0 <= k < 3 && k != j ==> v.servers[k].log == w.servers[k].log)
    && var lead := w.servers[w.phase.at].log;
       v.servers[j].log in {w.servers[j].log, lead, lead + [Entry(|w.rounds| - 1, w.rounds[|w.rounds| - 1].op)]}
  }

  lemma GainIsCounted(lead: seq<Entry>, before: seq<Entry>, after: seq<Entry>, rounds: seq<Round>, alive: bool)
    requires rounds != [] && Counted(lead, rounds) && Times(lead, |rounds| - 1) <= rounds[|rounds| - 1].crashes
    requires alive ==> Counted(before, rounds)
    requires after in {before, lead, lead + [Entry(|rounds| - 1, rounds[|rounds| - 1].op)]}
    ensures alive ==> Counted(after, rounds)
  {
    CountedAppend(lead, rounds);
  }

  lemma LogsStayCounted(w: World, v: World, j: nat)
    requires Sized(w) && Sized(v) && Counts(w) && j < 3 && OneGains(w, v, j)
    ensures forall i :: 0 <= i < 3 && v.servers[i].alive ==> Counted(v.servers[i].log, v.rounds)
  {
    GainIsCounted(w.servers[w.phase.at].log, w.servers[j].log, v.servers[j].log, w.rounds, w.servers[j].alive);
  }

  /** Counts survive that. */
  lemma CountsCarryOver(w: World, v: World, j: nat)
    requires Sized(w) && Sized(v) && Counts(w) && j < 3 && OneGains(w, v, j)
    ensures Counts(v)
  {
    LogsStayCounted(w, v, j);
    assert v.servers[v.phase.at].log == w.servers[w.phase.at].log;
    assert !Dead(w, 3) && !Dead(v, 3);
  }

  lemma ForwardKeepsCounts(w: World)
    requires Roles(w) && Shape(w) && Counts(w) && AtForward(w) && Roles(Advance(w))
    ensures Counts(Advance(w))
  {
    ForwardLogs(w);
    CountsCarryOver(w, Advance(w), Target(w));
  }

  lemma ForwardLogs(w: World)
    requires Roles(w) && Shape(w) && AtForward(w)
    ensures var v, at, j := Advance(w), w.phase.at, Target(w);
            && v.rounds == w.rounds && v.phase.Serving? && v.phase.at == at != j && v.phase.stage.Forwarding?
            && |v.servers| == 3
            && (forall k :: 0 <= k < 3 ==> v.servers[k].alive == w.servers[k].alive)
            && (forall k :: 0 <= k < 3 && k != j ==>
                v.servers[k].log == w.servers[k].log && v.servers[k].store == w.servers[k].store)
            && v.servers[j].log == (if w.servers[j].alive
                                    then w.servers[at].log + [Entry(|w.rounds| - 1, w.rounds[|w.rounds| - 1].op)]
                                    else w.servers[j].log)
            && (if w.servers[j].alive
                then v.servers[j].log == w.servers[j].log + [EntryOf(w.phase.stage.req)]
                  && v.servers[j].store == Apply(w.servers[j].store, w.phase.stage.req.op)
                else v.servers[j].store == w.servers[j].store)
  {
    RpcEffect(w, w.phase.stage.i, w.phase.stage.req);
    if w.servers[Target(w)].alive { ForwardIsPerformed(w); }
  }

  /* The replay after a takeover. */

  ghost predicate AtReplay(w: World) {
    && Sized(w) && w.phase.Serving? && w.phase.stage.Replaying? && w.phase.stage.i < 2 - w.phase.at
    && w.servers[w.phase.at].alive
  }

  /** A replay is performed by a live server 2 exactly when server 2 has not
      performed the request already, and it always leaves both with one log. */
  lemma ReplayIsExact(w: World)
    requires Roles(w) && Shape(w) && AtReplay(w) && w.servers[2].alive
    ensures w.phase.at == 1 && Target(w) == 2 && !w.servers[2].leader
    ensures var b, v := w.servers[2], Advance(w);
            && v.servers[2].log == v.servers[1].log == w.servers[1].log
            && v.servers[2].counter <= v.servers[1].counter
            && (v.servers[2].log == b.log + [EntryOf(w.phase.stage.prev)] <==> b.log != w.servers[1].log)
            && (v.servers[2].log == b.log <==> b.log == w.servers[1].log)
            && v.servers[2].store == if b.log == w.servers[1].log then b.store
                                     else Apply(b.store, w.phase.stage.prev.op)
  {
    assert Dead(w, w.phase.at);
    RpcEffect(w, w.phase.stage.i, w.phase.stage.prev);
  }

  lemma ReplayLogs(w: World)
    requires Roles(w) && Shape(w) && AtReplay(w)
    ensures var v, at, j := Advance(w), w.phase.at, Target(w);
            && v.rounds == w.rounds && v.phase.Serving? && v.phase.at == at != j && v.phase.stage.Replaying?
            && |v.servers| == 3
            && (forall k :: 0 <= k < 3 ==> v.servers[k].alive == w.servers[k].alive)
            && (forall k :: 0 <= k < 3 && k != j ==>
                v.servers[k].log == w.servers[k].log && v.servers[k].store == w.servers[k].store)
            && v.servers[j].log == (if w.servers[j].alive then w.servers[at].log else w.servers[j].log)
            && ((v.servers[j].log == w.servers[j].log && v.servers[j].store == w.servers[j].store) ||
                (v.servers[j].log == w.servers[j].log + [EntryOf(w.phase.stage.prev)]
                  && v.servers[j].store == Apply(w.servers[j].store, w.phase.stage.prev.op)))
  {
    RpcEffect(w, w.phase.stage.i, w.phase.stage.prev);
    assert w.phase.at == 1 && Target(w) == 2;
    if w.servers[2].alive { ReplayIsExact(w); }
  }

  lemma ReplayKeepsInv(w: World, store: Store)
    requires Inv(w, store) && AtReplay(w)
    ensures Inv(Advance(w), store)
  {
    ReplayKeepsRoles(w);
    ReplayKeepsShape(w);
    ReplayLogs(w);
    CountsCarryOver(w, Advance(w), Target(w));
    StoresCarryOver(w, Advance(w), store, Target(w), EntryOf(w.phase.stage.prev));
  }

  lemma ReplayKeepsRoles(w: World)
    requires Roles(w) && Shape(w) && AtReplay(w)
    ensures Roles(Advance(w))
  {
    RpcEffect(w, w.phase.stage.i, w.phase.stage.prev);
    RpcKeepsRoles(w, w.phase.stage.i, w.phase.stage.prev, Advance(w).phase.stage);
  }

  lemma ReplayKeepsShape(w: World)
    requires Roles(w) && Shape(w) && AtReplay(w) && Roles(Advance(w))
    ensures Shape(Advance(w))
  {
    assert Dead(w, w.phase.at);
    RpcEffect(w, w.phase.stage.i, w.phase.stage.prev);
    if w.servers[2].alive { ReplayIsExact(w); }
  }

  /* The remaining steps of the handling server. */

  /** The handling server always performs the write itself, whatever the failed
      calls have left in `isClient` and `counter`. */
  lemma LocalIsPerformed(w: World)
    requires Roles(w) && w.phase.Serving? && w.phase.stage.Applying? && w.servers[w.phase.at].alive
    ensures var me, s, req := w.servers[w.phase.at], Advance(w).servers[w.phase.at], w.phase.stage.req;
            && s.log == me.log + [EntryOf(req)] && s.store == Apply(me.store, req.op)
            && s.counter in {me.counter, me.counter + 1}
            && s == me.(log := s.log, store := s.store, counter := s.counter)
    ensures Advance(w).phase.stage == Replying(Succeeds(w.servers[w.phase.at].store, w.phase.stage.req.op))
  {
  }

  lemma LocalKeepsInv(w: World, store: Store)
    requires Inv(w, store) && w.phase.Serving? && w.phase.stage.Applying? && w.servers[w.phase.at].alive
    ensures Inv(Advance(w), store)
  {
    LocalIsPerformed(w);
    LocalKeepsRoles(w);
    LocalKeepsShape(w);
    LocalKeepsCounts(w);
    StoresCarryOver(w, Advance(w), store, w.phase.at, EntryOf(w.phase.stage.req));
  }

  lemma LocalKeepsRoles(w: World)
    requires Roles(w) && w.phase.Serving? && w.phase.stage.Applying? && w.servers[w.phase.at].alive
    ensures Roles(Advance(w))
  {
    LocalIsPerformed(w);
    RolesCarryOver(w, Advance(w));
  }

  lemma LocalKeepsShape(w: World)
    requires Roles(w) && Shape(w) && w.phase.Serving? && w.phase.stage.Applying? && w.servers[w.phase.at].alive
    requires Roles(Advance(w))
    ensures Shape(Advance(w))
  {
    LocalIsPerformed(w);
    assert Dead(w, w.phase.at);
  }

  lemma LocalKeepsCounts(w: World)
    requires Roles(w) && Counts(w) && w.phase.Serving? && w.phase.stage.Applying? && w.servers[w.phase.at].alive
    requires Sized(Advance(w))
    ensures Counts(Advance(w))
  {
    LocalIsPerformed(w);
    CountedAppend(w.servers[w.phase.at].log, w.rounds);
    CountsOnceApplied(w, Advance(w));
  }

  lemma CountsOnceApplied(w: World, v: World)
    requires Sized(w) && Sized(v) && Counts(w) && v.rounds == w.rounds
    requires w.phase.Serving? && v.phase.Serving? && v.phase.at == w.phase.at && v.phase.stage.Replying?
    requires w.servers[w.phase.at].alive && v.servers[w.phase.at].alive
    requires forall k :: 0 <= k < 3 && k != w.phase.at ==> v.servers[k] == w.servers[k]
    requires Counted(v.servers[w.phase.at].log, w.rounds) && Times(v.servers[w.phase.at].log, |w.rounds| - 1) >= 1
    ensures Counts(v)
  {
    assert !Dead(w, 3);
  }

  /** When the reply leaves, every live server has the replier's log. */
  lemma ReplyFindsAgreement(w: World, store: Store)
    requires Inv(w, store) && w.phase.Serving? && w.phase.stage.Replying? && w.servers[w.phase.at].alive
    ensures forall j :: 0 <= j < 3 && w.servers[j].alive ==>
      w.servers[j].log == w.servers[w.phase.at].log && w.servers[j].store == w.servers[w.phase.at].store
  {
    assert Dead(w, w.phase.at);
  }

  lemma CountedAfterAck(log: seq<Entry>, rounds: seq<Round>)
    requires rounds != [] && Counted(log, rounds) && Times(log, |rounds| - 1) >= 1
    ensures Counted(log, Acknowledge(rounds))
  {
    var later, n := Acknowledge(rounds), |rounds| - 1;
    assert forall r :: 0 <= r < n ==> later[r] == rounds[r];
    assert later[n] == rounds[n].(acked := true);
  }

  lemma ReplyKeepsInv(w: World, store: Store)
    requires Inv(w, store) && w.phase.Serving? && w.phase.stage.Replying? && w.servers[w.phase.at].alive
    ensures Inv(Advance(w), store)
  {
    ReplyFindsAgreement(w, store);
    ReplyKeepsCounts(w);
  }

  lemma ReplyKeepsCounts(w: World)
    requires Sized(w) && Counts(w) && w.phase.Serving? && w.phase.stage.Replying? && w.servers[w.phase.at].alive
    requires forall j :: 0 <= j < 3 && w.servers[j].alive ==> w.servers[j].log == w.servers[w.phase.at].log
    ensures Counts(Advance(w))
  {
    var v := Advance(w);
    CountedAfterAck(w.servers[w.phase.at].log, w.rounds);
    assert v.servers == w.servers && v.rounds == Acknowledge(w.rounds);
    assert forall r :: 0 <= r < |w.rounds| - 1 ==> v.rounds[r] == w.rounds[r];
  }

  lemma TurnKeepsInv(w: World, store: Store)
    requires Inv(w, store) && w.phase.Serving? && w.servers[w.phase.at].alive
    requires (w.phase.stage.Replaying? || w.phase.stage.Forwarding?) && w.phase.stage.i == 2 - w.phase.at
    ensures Inv(Advance(w), store)
  {
    var v := Advance(w);
    assert v.servers == w.servers;
    RolesCarryOver(w, v);
    TurnKeepsShape(w);
    SameServersKeepCounts(w, v);
  }

  lemma TurnKeepsShape(w: World)
    requires Roles(w) && Shape(w) && w.phase.Serving? && w.servers[w.phase.at].alive
    requires (w.phase.stage.Replaying? || w.phase.stage.Forwarding?) && w.phase.stage.i == 2 - w.phase.at
    requires Roles(Advance(w))
    ensures Shape(Advance(w))
  {
    assert Dead(w, w.phase.at);
  }

  /** Every transition keeps the invariant. */
  lemma StepKeepsInv(w: World, store: Store, e: Event)
    requires Inv(w, store) && Enabled(w, e)
    ensures Inv(Step(w, e), store)
  {
    match e
    case Crash(i) => CrashKeepsInv(w, store, i);
    case Read(c) => ReadKeepsInv(w, store, c);
    case Issue(c, op) => IssueKeepsInv(w, store, c, op);
    case Progress =>
      if !w.servers[w.clients[w.phase.client]].alive { FailOverKeepsInv(w, store); }
      else if w.phase.Sending? { AcceptKeepsInv(w, store); }
      else {
        match w.phase.stage
        case Replaying(i, _, _) => if i < 2 - w.phase.at { ReplayKeepsInv(w, store); } else { TurnKeepsInv(w, store); }
        case Forwarding(i, _) => if i < 2 - w.phase.at { ForwardKeepsInv(w, store); } else { TurnKeepsInv(w, store); }
        case Applying(_) => LocalKeepsInv(w, store);
        case Replying(_) => ReplyKeepsInv(w, store);
      }
  }
}
