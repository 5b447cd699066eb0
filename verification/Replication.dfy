/** Primary/backup replication over exactly three servers (server.py) and the
    retrying client (client.py), as a state machine.  One transition is one remote
    call, one local step or one crash; a crash may fall between any two of them. */
module Replication {
  import opened ReplicatedStore

  /** A write request; `isClient` and `counter` are overwritten while it is
      forwarded, `id` is the bookkeeping tag of ReplicatedStore. */
  datatype Request = Request(id: nat, op: Op, isClient: bool, counter: nat)

  function EntryOf(r: Request): Entry { Entry(r.id, r.op) }

  /** `g_params` of one server process.  `authUp[i]`/`chatUp[i]` say that the stub
      for server `myId + 1 + i` has not been set to None. */
  datatype Server = Server(alive: bool, leader: bool, counter: nat, last: Option<Request>,
                           authUp: seq<bool>, chatUp: seq<bool>, store: Store, log: seq<Entry>)

  function Stubs(s: Server, op: Op): seq<bool> {
    if op.SendMessage? then s.chatUp else s.authUp
  }

  function DropStub(s: Server, op: Op, i: nat): Server
    requires i < |Stubs(s, op)|
  {
    if op.SendMessage? then s.(chatUp := s.chatUp[i := false]) else s.(authUp := s.authUp[i := false])
  }

  function Perform(s: Server, r: Request): Server {
    s.(store := Apply(s.store, r.op), log := s.log + [EntryOf(r)])
  }

  /** What every write handler does after `replicate` returns: drop a request that
      is not from a client and not new, else take over its counter and perform it. */
  function ApplyLocally(s: Server, r: Request): Server {
    if r.isClient then Perform(s, r)
    else if r.counter <= s.counter then s
    else Perform(s.(counter := r.counter), r)
  }

  predicate AnswersSuccess(s: Server, r: Request) {
    (!r.isClient && r.counter <= s.counter) || Succeeds(s.store, r.op)
  }

  /** A handler run by a server that is not the leader, for a forwarded request. */
  function Follow(s: Server, r: Request): Server {
    ApplyLocally(s.(last := Some(r)), r)
  }

  /** A client write: how often its leader crashed under it, and whether it was answered. */
  datatype Round = Round(op: Op, crashes: nat, acked: bool)

  /** How far the server that handles the write in flight has come; `i` is the
      index of the next stub. */
  datatype Stage =
    | Replaying(i: nat, prev: Request, req: Request)
    | Forwarding(i: nat, req: Request)
    | Applying(req: Request)
    | Replying(success: bool)

  /** Where the one write in flight is: nowhere, at its client, or at server `at`. */
  datatype Phase = Idle | Sending(client: nat) | Serving(client: nat, at: nat, stage: Stage)

  /** `clients[c]` is client c's `curr_leader`; 3 means it has given up. */
  datatype World = World(servers: seq<Server>, clients: seq<nat>, phase: Phase, rounds: seq<Round>)

  ghost predicate Sized(w: World) {
    && |w.servers| == 3
    && (forall i :: 0 <= i < 3 ==> |w.servers[i].authUp| == |w.servers[i].chatUp| == 2 - i)
    && (forall c :: 0 <= c < |w.clients| ==> w.clients[c] <= 3)
    && (w.phase.Sending? ==> w.phase.client < |w.clients| && w.clients[w.phase.client] < 3 && w.rounds != [])
    && (w.phase.Serving? ==>
          && w.phase.client < |w.clients| && w.clients[w.phase.client] == w.phase.at < 3 && w.rounds != []
          && (w.phase.stage.Replaying? || w.phase.stage.Forwarding? ==> w.phase.stage.i <= 2 - w.phase.at))
  }

  /** One pass of the forwarding loop of `me` for its stub `i`, which leads to
      `target`: skip a missing stub, run the handler of a live target, or forget a
      dead one.  The request object is overwritten on the way. */
  function Call(me: Server, target: Server, i: nat, req: Request): (Server, Server, Request)
    requires i < |Stubs(me, req.op)|
  {
    if !Stubs(me, req.op)[i] then (me, target, req)
    else
      var sent := req.(isClient := false, counter := me.counter + 1);
      if target.alive then (me.(counter := me.counter + 1), Follow(target, sent), sent.(isClient := true))
      else (DropStub(me, req.op, i), target, sent)
  }

  function Rpc(servers: seq<Server>, at: nat, i: nat, req: Request): (seq<Server>, Request)
    requires |servers| == 3 && at + 1 + i < 3 && |Stubs(servers[at], req.op)| == 2 - at
  {
    var j := at + 1 + i;
    var (me, target, req') := Call(servers[at], servers[j], i, req);
    (servers[at := me][j := target], req')
  }

  /** The client's call has failed: it moves to the next server, or gives up. */
  function FailOver(w: World, c: nat, at: nat): World
    requires c < |w.clients|
  {
    w.(clients := w.clients[c := at + 1], phase := if at + 1 == 3 then Idle else Sending(c))
  }

  function CountCrash(rounds: seq<Round>): seq<Round>
    requires rounds != []
  {
    var r := rounds[|rounds| - 1];
    rounds[|rounds| - 1 := r.(crashes := r.crashes + 1)]
  }

  function Acknowledge(rounds: seq<Round>): seq<Round>
    requires rounds != []
  {
    rounds[|rounds| - 1 := rounds[|rounds| - 1].(acked := true)]
  }

  /** A client write reaches server `at`: a server that was not the leader becomes
      it, and first replays the last forwarded request it has seen. */
  function Accept(w: World, c: nat): World
    requires Sized(w) && c < |w.clients| && w.clients[c] < 3 && w.rounds != []
  {
    var at, id := w.clients[c], |w.rounds| - 1;
    var me, req := w.servers[at], Request(id, w.rounds[id].op, true, 0);
    var takesOver := !me.leader && me.last.Some?;
    w.(servers := w.servers[at := me.(leader := true)],
       phase := Serving(c, at, if takesOver then Replaying(0, me.last.value, req) else Forwarding(0, req)))
  }

  /** The next step of the server that handles the write in flight. */
  function Serve(w: World): World
    requires Sized(w) && w.phase.Serving?
  {
    var at, stage := w.phase.at, w.phase.stage;
    match stage
    case Replaying(i, prev, req) =>
      if i == 2 - at then w.(phase := w.phase.(stage := Forwarding(0, req)))
      else
        var (servers, prev') := Rpc(w.servers, at, i, prev);
        w.(servers := servers, phase := w.phase.(stage := Replaying(i + 1, prev', req)))
    case Forwarding(i, req) =>
      if i == 2 - at then w.(phase := w.phase.(stage := Applying(req)))
      else
        var (servers, req') := Rpc(w.servers, at, i, req);
        w.(servers := servers, phase := w.phase.(stage := Forwarding(i + 1, req')))
    case Applying(req) =>
      var me := w.servers[at];
      w.(servers := w.servers[at := ApplyLocally(me, req)],
         phase := w.phase.(stage := Replying(AnswersSuccess(me, req))))
    case Replying(_) =>
      w.(phase := Idle, rounds := Acknowledge(w.rounds))
  }

  /** The next step of the write in flight, at its client or at its server. */
  function Advance(w: World): World
    requires Sized(w) && w.phase != Idle
  {
    var c := w.phase.client;
    var at := w.clients[c];
    if w.servers[at].alive then
      if w.phase.Sending? then Accept(w, c) else Serve(w)
    else
      FailOver(if w.phase.Sending? then w else w.(rounds := CountCrash(w.rounds)), c, at)
  }

  /** Crash stops a server for good.  Read is a client's read request, which
      changes no server, and moves its client on when the server is dead.  Issue
      is a new client write. */
  datatype Event = Crash(server: nat) | Read(client: nat) | Issue(client: nat, op: Op) | Progress

  ghost predicate Enabled(w: World, e: Event) {
    Sized(w) &&
    match e
    case Crash(i) => i < 3
    case Read(c) => c < |w.clients| && w.clients[c] < 3 && (w.phase.Idle? || w.phase.client != c)
    case Issue(c, _) => w.phase.Idle? && c < |w.clients| && w.clients[c] < 3
    case Progress => !w.phase.Idle?
  }

  function Step(w: World, e: Event): World
    requires Enabled(w, e)
  {
    match e
    case Crash(i) => w.(servers := w.servers[i := w.servers[i].(alive := false)])
    case Read(c) =>
      if w.servers[w.clients[c]].alive then w else w.(clients := w.clients[c := w.clients[c] + 1])
    case Issue(c, op) => w.(phase := Sending(c), rounds := w.rounds + [Round(op, 0, false)])
    case Progress => Advance(w)
  }

  function InitServer(i: nat, store: Store): Server
    requires i < 3
  {
    Server(true, i == 0, 0, None, seq(2 - i, _ => true), seq(2 - i, _ => true), store, [])
  }

  function Init(store: Store, clientCount: nat): World {
    World([InitServer(0, store), InitServer(1, store), InitServer(2, store)],
          seq(clientCount, _ => 0), Idle, [])
  }

  /** A run from the initial state: the states it passes and the events between them. */
  ghost predicate IsRun(store: Store, clientCount: nat, states: seq<World>, events: seq<Event>) {
    && |states| == |events| + 1
    && states[0] == Init(store, clientCount)
    && forall k :: 0 <= k < |events| ==> Enabled(states[k], events[k]) && states[k + 1] == Step(states[k], events[k])
  }
}
