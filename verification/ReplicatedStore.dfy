/** The database each replica keeps (server.py, `g_params.db`), and the three
    client writes that change it.  Stored texts are compared on sender, receiver
    and body only; `messages` is a total map that defaults to the empty list. */
module ReplicatedStore {

  datatype Option<+T> = None | Some(value: T)

  datatype Text = Text(sender: string, receiver: string, body: string)

  datatype Op =
    | Register(user: string, password: string)
    | DeleteAccount(user: string, password: string)
    | SendMessage(sender: string, receiver: string, body: string)

  datatype Store = Store(passwords: map<string, string>, messages: map<string, seq<Text>>)

  function Inbox(s: Store, receiver: string): seq<Text> {
    if receiver in s.messages then s.messages[receiver] else []
  }

  /** The `success` field of the reply, decided on the store before the write. */
  predicate Succeeds(s: Store, op: Op) {
    match op
    case Register(u, _) => u !in s.passwords
    case DeleteAccount(u, p) => u in s.passwords && s.passwords[u] == p
    case SendMessage(a, b, _) => a in s.passwords && b in s.passwords
  }

  function Apply(s: Store, op: Op): Store {
    if !Succeeds(s, op) then s else
    match op
    case Register(u, p) => s.(passwords := s.passwords[u := p])
    case DeleteAccount(u, _) => s.(passwords := s.passwords - {u})
    case SendMessage(a, b, t) => s.(messages := s.messages[b := Inbox(s, b) + [Text(a, b, t)]])
  }

  /** An applied write, tagged with the number of the client request it serves.
      The tag is bookkeeping: no server reads it. */
  datatype Entry = Entry(id: nat, op: Op)

  function Replay(s: Store, log: seq<Entry>): Store {
    if log == [] then s else Apply(Replay(s, log[..|log| - 1]), log[|log| - 1].op)
  }

  function Times(log: seq<Entry>, id: nat): nat {
    if log == [] then 0
    else Times(log[..|log| - 1], id) + if log[|log| - 1].id == id then 1 else 0
  }

  ghost predicate Ascending(log: seq<Entry>) {
    forall i, j :: 0 <= i < j < |log| ==> log[i].id <= log[j].id
  }

  lemma ReplayAppend(s: Store, log: seq<Entry>, e: Entry)
    ensures Replay(s, log + [e]) == Apply(Replay(s, log), e.op)
  {
    assert (log + [e])[..|log|] == log;
  }

  lemma TimesAppend(log: seq<Entry>, e: Entry, id: nat)
    ensures Times(log + [e], id) == Times(log, id) + if e.id == id then 1 else 0
  {
    assert (log + [e])[..|log|] == log;
  }

  lemma {:induction false} TimesPositive(log: seq<Entry>, id: nat)
    ensures Times(log, id) > 0 <==> exists k :: 0 <= k < |log| && log[k].id == id
  {
    if log != [] {
      TimesPositive(log[..|log| - 1], id);
      if k :| 0 <= k < |log| && log[k].id == id {
        assert k < |log| - 1 ==> log[..|log| - 1][k].id == id;
      }
    }
  }

  /** Registering or deleting twice in a row leaves the store as doing it once. */
  lemma AccountWritesAreIdempotent(s: Store, op: Op)
    requires !op.SendMessage?
    ensures Apply(Apply(s, op), op) == Apply(s, op)
  {
  }

  function ApplyTimes(s: Store, op: Op, k: nat): Store {
    if k == 0 then s else Apply(ApplyTimes(s, op, k - 1), op)
  }

  /** `k` deliveries of one write: account writes count once, texts `k` times. */
  lemma {:induction false} RepeatedDelivery(s: Store, op: Op, k: nat)
    requires k >= 1
    ensures !op.SendMessage? ==> ApplyTimes(s, op, k) == Apply(s, op)
    ensures op.SendMessage? ==> ApplyTimes(s, op, k).passwords == s.passwords
    ensures op.SendMessage? ==>
      forall r :: Inbox(ApplyTimes(s, op, k), r) ==
        Inbox(s, r) + if r == op.receiver && Succeeds(s, op)
                      then seq(k, _ => Text(op.sender, op.receiver, op.body)) else []
  {
    if k == 1 {
      assert ApplyTimes(s, op, 0) == s;
      if op.SendMessage? {
        assert seq(1, _ => Text(op.sender, op.receiver, op.body)) == [Text(op.sender, op.receiver, op.body)];
      }
    } else {
      RepeatedDelivery(s, op, k - 1);
      if op.SendMessage? {
        var t := Text(op.sender, op.receiver, op.body);
        assert seq(k, _ => t) == seq(k - 1, _ => t) + [t];
      }
    }
  }

  /** The outcome of the last of `k` deliveries is the outcome of the write itself
      exactly if the write is a text, or fails anyway, or is delivered once. */
  lemma LastOutcome(s: Store, op: Op, k: nat)
    requires k >= 1
    ensures Succeeds(ApplyTimes(s, op, k - 1), op) == Succeeds(s, op) <==> op.SendMessage? || !Succeeds(s, op) || k == 1
  {
    if k == 1 {
      assert ApplyTimes(s, op, 0) == s;
    } else {
      RepeatedDelivery(s, op, k - 1);
    }
  }

  lemma PasswordsDependOnPasswords(s: Store, t: Store, op: Op)
    requires s.passwords == t.passwords
    ensures Apply(s, op).passwords == Apply(t, op).passwords
  {
  }

  /** The first `n` writes of `ops`, each performed as often as `log` holds it. */
  function ByRound(s: Store, ops: seq<Op>, log: seq<Entry>, n: nat): Store
    requires n <= |ops|
  {
    if n == 0 then s else ApplyTimes(ByRound(s, ops, log, n - 1), ops[n - 1], Times(log, n - 1))
  }

  /** The writes of `ops` in order, each performed once. */
  function OnceEach(s: Store, ops: seq<Op>): Store {
    if ops == [] then s else Apply(OnceEach(s, ops[..|ops| - 1]), ops[|ops| - 1])
  }

  lemma {:induction false} ByRoundIgnoresLater(s: Store, ops: seq<Op>, log: seq<Entry>, e: Entry, n: nat)
    requires n <= |ops| && n <= e.id
    ensures ByRound(s, ops, log + [e], n) == ByRound(s, ops, log, n)
  {
    if n > 0 {
      ByRoundIgnoresLater(s, ops, log, e, n - 1);
      TimesAppend(log, e, n - 1);
    }
  }

  ghost predicate Lists(log: seq<Entry>, ops: seq<Op>, n: nat)
    requires n <= |ops|
  {
    forall k :: 0 <= k < |log| ==> log[k].id < n && log[k].op == ops[log[k].id]
  }

  lemma LastWriteCountsInItsRound(s: Store, ops: seq<Op>, front: seq<Entry>, last: Entry, n: nat)
    requires 0 < n <= |ops| && last == Entry(n - 1, ops[n - 1])
    ensures ByRound(s, ops, front + [last], n) == Apply(ByRound(s, ops, front, n), last.op)
  {
    ByRoundIgnoresLater(s, ops, front, last, n - 1);
    TimesAppend(front, last, n - 1);
  }

  /** Replaying an ascending log performs the writes round by round. */
  lemma {:induction false} ReplayIsByRound(s: Store, ops: seq<Op>, log: seq<Entry>, n: nat)
    requires n <= |ops| && Ascending(log) && Lists(log, ops, n)
    ensures Replay(s, log) == ByRound(s, ops, log, n)
    decreases |log|, n
  {
    if n > 0 {
      if log == [] || log[|log| - 1].id < n - 1 {
        TimesPositive(log, n - 1);
        assert Lists(log, ops, n - 1);
        ReplayIsByRound(s, ops, log, n - 1);
      } else {
        var front, last := log[..|log| - 1], log[|log| - 1];
        assert log == front + [last];
        ReplayIsByRound(s, ops, front, n);
        LastWriteCountsInItsRound(s, ops, front, last, n);
      }
    }
  }

  lemma FrontIsLog(front: seq<Entry>, e: Entry, ops: seq<Op>, n: nat)
    requires n <= |ops| && Ascending(front + [e]) && Lists(front + [e], ops, n)
    ensures Ascending(front) && Lists(front, ops, n)
  {
    var log := front + [e];
    assert forall i :: 0 <= i < |front| ==> log[i] == front[i];
  }

  lemma LastRound(s: Store, ops: seq<Op>, log: seq<Entry>, n: nat)
    requires n < |ops|
    ensures ByRound(s, ops, log, n + 1) == ApplyTimes(ByRound(s, ops, log, n), ops[n], Times(log, n))
  {
  }

  /** What the last copy of write `n` found: the earlier writes as the log holds
      them, and the other copies. */
  lemma BeforeLastCopy(s: Store, ops: seq<Op>, front: seq<Entry>, e: Entry, log: seq<Entry>)
    requires e.id < |ops| && e.op == ops[e.id] && log == front + [e]
    requires Ascending(log) && Lists(log, ops, e.id + 1)
    ensures Times(log, e.id) >= 1
    ensures Replay(s, front) == ApplyTimes(ByRound(s, ops, log, e.id), e.op, Times(log, e.id) - 1)
  {
    FrontIsLog(front, e, ops, e.id + 1);
    ReplayIsByRound(s, ops, front, e.id + 1);
    LastRound(s, ops, front, e.id);
    ByRoundIgnoresLater(s, ops, front, e, e.id);
    TimesAppend(front, e, e.id);
  }

  /** Accounts do not see retries. */
  lemma {:induction false} RetriesLeaveAccountsAlone(s: Store, ops: seq<Op>, log: seq<Entry>, n: nat)
    requires n <= |ops|
    requires forall r :: 0 <= r < n ==> Times(log, r) >= 1
    ensures ByRound(s, ops, log, n).passwords == OnceEach(s, ops[..n]).passwords
  {
    if n > 0 {
      RetriesLeaveAccountsAlone(s, ops, log, n - 1);
      assert ops[..n][..n - 1] == ops[..n - 1];
      RepeatedDelivery(ByRound(s, ops, log, n - 1), ops[n - 1], Times(log, n - 1));
      PasswordsDependOnPasswords(ByRound(s, ops, log, n - 1), OnceEach(s, ops[..n - 1]), ops[n - 1]);
    }
  }
}
