/** The accounts and inboxes of the replicas, read off the client writes alone:
    what a write meets, and what it leaves, without asking the store. */
module ReplicatedAccounts {
  import opened ReplicatedStore
  import opened Replication
  import opened ReplicationInvariant
  import opened ReplicationSafety
  import opened ReplicationRetries

  /** None of these writes deletes `u` with its password. */
  ghost predicate Kept(ops: seq<Op>, from: nat, to: nat, u: string, p: string)
    requires to <= |ops|
  {
    forall k :: from <= k < to ==> ops[k] != DeleteAccount(u, p)
  }

  /** After the first `n` writes `u` is registered with password `p`: from the
      start, or since a registration that found the name free; and it has not been
      deleted with that password since. */
  ghost predicate Registered(initial: map<string, string>, ops: seq<Op>, n: nat, u: string, p: string)
    requires n <= |ops|
  {
    || (u in initial && initial[u] == p && Kept(ops, 0, n, u, p))
    || exists i :: 0 <= i < n && ops[i] == Register(u, p) && Kept(ops, i + 1, n, u, p)
                && forall q :: !Registered(initial, ops, i, u, q)
  }

  ghost predicate IsRegistered(initial: map<string, string>, ops: seq<Op>, n: nat, u: string)
    requires n <= |ops|
  {
    exists p :: Registered(initial, ops, n, u, p)
  }

  /** The writes that succeed: a registration of a free name, a deletion with the
      password of the account, a text between two registered users. */
  ghost predicate Accepted(initial: map<string, string>, ops: seq<Op>, n: nat, op: Op)
    requires n <= |ops|
  {
    match op
    case Register(u, _) => !IsRegistered(initial, ops, n, u)
    case DeleteAccount(u, q) => Registered(initial, ops, n, u, q)
    case SendMessage(a, b, _) => IsRegistered(initial, ops, n, a) && IsRegistered(initial, ops, n, b)
  }

  lemma KeptOneMore(ops: seq<Op>, from: nat, n: nat, u: string, p: string)
    requires from <= n < |ops|
    ensures Kept(ops, from, n + 1, u, p) <==> Kept(ops, from, n, u, p) && ops[n] != DeleteAccount(u, p)
  {
  }

  lemma RegisteredOneMore(initial: map<string, string>, ops: seq<Op>, n: nat, u: string, p: string)
    requires n < |ops|
    ensures Registered(initial, ops, n + 1, u, p) <==>
      || (Registered(initial, ops, n, u, p) && ops[n] != DeleteAccount(u, p))
      || (ops[n] == Register(u, p) && !IsRegistered(initial, ops, n, u))
  {
    KeptOneMore(ops, 0, n, u, p);
    if Registered(initial, ops, n + 1, u, p) && !(u in initial && initial[u] == p && Kept(ops, 0, n + 1, u, p)) {
      var i :| 0 <= i < n + 1 && ops[i] == Register(u, p) && Kept(ops, i + 1, n + 1, u, p)
            && forall q :: !Registered(initial, ops, i, u, q);
      if i < n { assert Kept(ops, i + 1, n, u, p); }
    }
    if Registered(initial, ops, n, u, p) && ops[n] != DeleteAccount(u, p)
       && !(u in initial && initial[u] == p && Kept(ops, 0, n, u, p)) {
      var i :| 0 <= i < n && ops[i] == Register(u, p) && Kept(ops, i + 1, n, u, p)
            && forall q :: !Registered(initial, ops, i, u, q);
      assert Kept(ops, i + 1, n + 1, u, p);
    }
    if ops[n] == Register(u, p) && !IsRegistered(initial, ops, n, u) {
      assert Kept(ops, n + 1, n + 1, u, p);
    }
  }

  predicate Holds(s: Store, u: string, p: string) { u in s.passwords && s.passwords[u] == p }

  /** A store holds exactly the accounts that the first `n` writes leave. */
  ghost predicate HoldsAccounts(s: Store, initial: map<string, string>, ops: seq<Op>, n: nat)
    requires n <= |ops|
  {
    forall u, p :: Holds(s, u, p) <==> Registered(initial, ops, n, u, p)
  }

  /** What a write finds decides whether it succeeds. */
  lemma AcceptedSucceeds(s: Store, initial: map<string, string>, ops: seq<Op>, n: nat, op: Op)
    requires n <= |ops| && HoldsAccounts(s, initial, ops, n)
    ensures Succeeds(s, op) <==> Accepted(initial, ops, n, op)
  {
    forall u ensures u in s.passwords <==> IsRegistered(initial, ops, n, u) {
      if u in s.passwords { assert Holds(s, u, s.passwords[u]); }
      if p :| Registered(initial, ops, n, u, p) { assert Holds(s, u, p); }
    }
  }

  lemma WriteKeepsAccounts(s: Store, initial: map<string, string>, ops: seq<Op>, n: nat)
    requires n < |ops| && HoldsAccounts(s, initial, ops, n)
    ensures HoldsAccounts(Apply(s, ops[n]), initial, ops, n + 1)
  {
    AcceptedSucceeds(s, initial, ops, n, ops[n]);
    forall u, p ensures Holds(Apply(s, ops[n]), u, p) <==> Registered(initial, ops, n + 1, u, p) {
      RegisteredOneMore(initial, ops, n, u, p);
      assert Holds(s, u, p) <==> Registered(initial, ops, n, u, p);
    }
  }

  /** Performing each write once leaves exactly the accounts that the writes say. */
  lemma {:induction false} AccountsAreRegistrations(s0: Store, ops: seq<Op>, n: nat)
    requires n <= |ops|
    ensures HoldsAccounts(OnceEach(s0, ops[..n]), s0.passwords, ops, n)
  {
    if n > 0 {
      AccountsAreRegistrations(s0, ops, n - 1);
      WriteKeepsAccounts(OnceEach(s0, ops[..n - 1]), s0.passwords, ops, n - 1);
      assert ops[..n][..n - 1] == ops[..n - 1];
    } else {
      assert OnceEach(s0, ops[..0]) == s0;
    }
  }

  /** A registered account is deleted with its password only; a deletion with another
      one is refused and changes nothing. */
  lemma DeletionTakesThePassword(s0: Store, ops: seq<Op>, i: nat, k: nat, u: string, p: string, q: string)
    requires i < k < |ops| && ops[i] == Register(u, p) && !IsRegistered(s0.passwords, ops, i, u)
    requires Kept(ops, i + 1, k, u, p) && ops[k] == DeleteAccount(u, q)
    ensures var before, after := OnceEach(s0, ops[..k]), OnceEach(s0, ops[..k + 1]);
            && (Succeeds(before, ops[k]) <==> q == p)
            && Holds(before, u, p)
            && after.passwords == if q == p then before.passwords - {u} else before.passwords
  {
    assert Registered(s0.passwords, ops, k, u, p);
    AccountsAreRegistrations(s0, ops, k);
    assert ops[..k + 1][..k] == ops[..k];
  }

  /* The inboxes. */

  /** What write `op`, accepted, puts into the inbox of `r` each time it is performed. */
  function TextFor(op: Op, r: string): seq<Text> {
    if op.SendMessage? && op.receiver == r then [Text(op.sender, op.receiver, op.body)] else []
  }

  function Repeat(t: seq<Text>, k: nat): seq<Text> {
    if k == 0 then [] else Repeat(t, k - 1) + t
  }

  /** The texts that the first `n` writes leave for `r`, each as often as the log holds it. */
  ghost function Received(s0: Store, ops: seq<Op>, log: seq<Entry>, n: nat, r: string): seq<Text>
    requires n <= |ops|
  {
    if n == 0 then Inbox(s0, r)
    else Received(s0, ops, log, n - 1, r) +
         if Accepted(s0.passwords, ops, n - 1, ops[n - 1])
         then Repeat(TextFor(ops[n - 1], r), Times(log, n - 1)) else []
  }

  lemma {:induction false} DeliveriesAreRepeated(s: Store, op: Op, k: nat, r: string)
    ensures op.SendMessage? ==> ApplyTimes(s, op, k).passwords == s.passwords
    ensures Inbox(ApplyTimes(s, op, k), r) == Inbox(s, r) + if Succeeds(s, op) then Repeat(TextFor(op, r), k) else []
  {
    if k > 0 {
      DeliveriesAreRepeated(s, op, k - 1, r);
      assert Inbox(s, r) + Repeat(TextFor(op, r), k - 1) + TextFor(op, r) ==
             Inbox(s, r) + (Repeat(TextFor(op, r), k - 1) + TextFor(op, r));
    }
    RepeatNothing(k);
  }

  lemma {:induction false} RepeatNothing(k: nat)
    ensures Repeat([], k) == []
  {
    if k > 0 { RepeatNothing(k - 1); }
  }

  /** The writes whose accounts a log leaves: all, or all but a last one it lacks. */
  function Performed(log: seq<Entry>, n: nat): nat {
    if n > 0 && Times(log, n - 1) == 0 then n - 1 else n
  }

  lemma RoundsLeave(s0: Store, ops: seq<Op>, log: seq<Entry>, n: nat)
    requires n <= |ops| && forall r :: 0 <= r < n - 1 ==> Times(log, r) >= 1
    ensures HoldsAccounts(ByRound(s0, ops, log, n), s0.passwords, ops, Performed(log, n))
  {
    var m := Performed(log, n);
    RetriesLeaveAccountsAlone(s0, ops, log, m);
    AccountsAreRegistrations(s0, ops, m);
    assert ByRound(s0, ops, log, n) == ByRound(s0, ops, log, m);
  }

  lemma {:induction false} RoundsDeliver(s0: Store, ops: seq<Op>, log: seq<Entry>, n: nat, r: string)
    requires n <= |ops| && forall i :: 0 <= i < n - 1 ==> Times(log, i) >= 1
    ensures Inbox(ByRound(s0, ops, log, n), r) == Received(s0, ops, log, n, r)
  {
    if n > 0 {
      RoundsDeliver(s0, ops, log, n - 1, r);
      RoundsLeave(s0, ops, log, n - 1);
      assert Performed(log, n - 1) == n - 1;
      var found := ByRound(s0, ops, log, n - 1);
      AcceptedSucceeds(found, s0.passwords, ops, n - 1, ops[n - 1]);
      DeliveriesAreRepeated(found, ops[n - 1], Times(log, n - 1), r);
    }
  }

  /* The replicas. */

  lemma EarlierWritesAreHeld(w: World, log: seq<Entry>)
    requires Sized(w) && Counts(w) && Counted(log, w.rounds) && !Dead(w, 3)
    ensures forall r :: 0 <= r < |w.rounds| - 1 ==> Times(log, r) >= 1
    ensures w.phase.Idle? ==> forall r :: 0 <= r < |w.rounds| ==> Times(log, r) >= 1
  {
    forall r | 0 <= r < |w.rounds| && (w.phase.Idle? || r < |w.rounds| - 1) ensures Times(log, r) >= 1 {
      assert w.rounds[r].acked;
    }
  }

  /** In every run a live server holds exactly the accounts and the texts that the
      writes issued so far leave: the accounts as if each write had been performed
      once, but for a write in flight that has not reached it, and the texts as
      often as its log holds them. */
  lemma ReplicasHoldTheWrites(store: Store, clientCount: nat, states: seq<World>, events: seq<Event>, k: nat, i: nat)
    requires IsRun(store, clientCount, states, events) && k <= |events| && i < 3
    requires |states[k].servers| == 3 && states[k].servers[i].alive
    ensures var w, s, ops := states[k], states[k].servers[i], Ops(states[k].rounds);
            && HoldsAccounts(s.store, store.passwords, ops, Performed(s.log, |ops|))
            && (w.phase.Idle? ==> Performed(s.log, |ops|) == |ops|)
            && forall r :: Inbox(s.store, r) == Received(store, ops, s.log, |ops|, r)
  {
    RunKeepsInv(store, clientCount, states, events, k);
    StoreIsWritesInOrder(store, clientCount, states, events, k, i);
    var w, s, ops := states[k], states[k].servers[i], Ops(states[k].rounds);
    EarlierWritesAreHeld(w, s.log);
    forall r ensures Inbox(s.store, r) == Received(store, ops, s.log, |ops|, r) {
      RoundsDeliver(store, ops, s.log, |ops|, r);
    }
    RoundsLeave(store, ops, s.log, |ops|);
  }

  /** What write `n` finds at a server decides whether it is accepted. */
  lemma FoundIsAccepted(store: Store, rounds: seq<Round>, log: seq<Entry>)
    requires rounds != [] && forall r :: 0 <= r < |rounds| - 1 ==> Times(log, r) >= 1
    ensures var n, op := |rounds| - 1, rounds[|rounds| - 1].op;
            Succeeds(ByRound(store, Ops(rounds), log, n), op) <==> Accepted(store.passwords, Ops(rounds), n, op)
  {
    var n := |rounds| - 1;
    RoundsLeave(store, Ops(rounds), log, n);
    assert Performed(log, n) == n;
    AcceptedSucceeds(ByRound(store, Ops(rounds), log, n), store.passwords, Ops(rounds), n, rounds[n].op);
  }

  lemma EarlierWritesAreHeldInRuns(store: Store, clientCount: nat, states: seq<World>, events: seq<Event>, k: nat,
                                   i: nat)
    requires IsRun(store, clientCount, states, events) && k <= |events| && i < 3
    requires |states[k].servers| == 3 && states[k].servers[i].alive
    ensures forall r :: 0 <= r < |states[k].rounds| - 1 ==> Times(states[k].servers[i].log, r) >= 1
  {
    RunKeepsInv(store, clientCount, states, events, k);
    EarlierWritesAreHeld(states[k], states[k].servers[i].log);
  }

  lemma RoundsStay(store: Store, clientCount: nat, states: seq<World>, events: seq<Event>, j: nat, k: nat, at: nat)
    requires IsRun(store, clientCount, states, events) && AtWork(states, events, j, k, at)
    ensures states[k].rounds == states[j].rounds
  {
    WorkKeepsLog(store, clientCount, states, events, j, k, at);
  }

  /** The answer a client gets, in every run: success exactly if the writes issued
      before say that the write is accepted, unless it is an account write that the
      answering server had already seen when it arrived. */
  lemma AnswersFollowTheWrites(store: Store, clientCount: nat, states: seq<World>, events: seq<Event>, k: nat)
      returns (j: nat)
    requires IsRun(store, clientCount, states, events) && k <= |events|
    requires states[k].phase.Serving? && states[k].phase.stage.Replying? && states[k].phase.at < |states[k].servers|
    requires states[k].servers[states[k].phase.at].alive
    ensures AtWork(states, events, j, k, states[k].phase.at) && states[k].rounds == states[j].rounds != []
    ensures var rounds, at, n := states[k].rounds, states[k].phase.at, |states[k].rounds| - 1;
            states[k].phase.stage.success <==>
              && Accepted(store.passwords, Ops(rounds), n, rounds[n].op)
              && (rounds[n].op.SendMessage? || !HasSeen(states[j].servers[at], n))
  {
    j := AnswersAreForeseen(store, clientCount, states, events, k);
    var at := states[k].phase.at;
    RoundsStay(store, clientCount, states, events, j, k, at);
    EarlierWritesAreHeldInRuns(store, clientCount, states, events, j, at);
    FoundIsAccepted(store, states[j].rounds, states[j].servers[at].log);
  }
}
