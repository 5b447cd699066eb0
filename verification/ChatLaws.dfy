/** What the chat database holds and answers, read off the calls alone: who is
    registered, with which password, who is logged in as whom, and what has been
    delivered, without asking the database. */
module ChatLaws {
  import opened Bytes
  import opened Glob
  import opened ChatDb

  /** Somebody has asked to register the name. */
  ghost predicate Asked(trace: Trace, name: Str) {
    exists i :: 0 <= i < |trace| && trace[i].call.CallRegister? && trace[i].call.name == name
  }

  /** The calls that end a session. */
  predicate EndsSession(call: Call) { call.CallLogout? || call.CallDelete? }

  /** Call `i` is the first to ask for the name, and gives this password. */
  ghost predicate RegisteredAt(trace: Trace, i: nat, name: Str, password: Str) {
    i < |trace| && trace[i].call == CallRegister(name, password) && !Asked(trace[..i], name)
  }

  /** The name has an account with this password: its first registration gave it,
      and nobody logged in as it has deleted it since. */
  ghost predicate HasAccount(trace: Trace, name: Str, password: Str)
    decreases |trace|, 1
  {
    exists i: nat :: RegisteredAt(trace, i, name, password) && AccountKept(trace, i + 1, name)
  }

  ghost predicate AccountKept(trace: Trace, from: nat, name: Str)
    decreases |trace|, 0
  {
    forall k :: from <= k < |trace| && trace[k].call.CallDelete? ==> !LoggedInAs(trace[..k], trace[k].thread, name)
  }

  /** Call `i` gives the password of the account while its thread is logged in as nobody. */
  ghost predicate LoginAt(trace: Trace, i: nat, t: ThreadId, name: Str)
    decreases |trace|, 2
  {
    && i < |trace| && trace[i].thread == t && trace[i].call.CallLogin? && trace[i].call.name == name
    && HasAccount(trace[..i], name, trace[i].call.password) && forall m :: !LoggedInAs(trace[..i], t, m)
  }

  /** The thread is logged in as this user, and has not ended that session since. */
  ghost predicate LoggedInAs(trace: Trace, t: ThreadId, name: Str)
    decreases |trace|, 3
  {
    exists i: nat :: LoginAt(trace, i, t, name) && SessionKept(trace, i + 1, t)
  }

  ghost predicate SessionKept(trace: Trace, from: nat, t: ThreadId) {
    forall k :: from <= k < |trace| ==> !(trace[k].thread == t && EndsSession(trace[k].call))
  }

  ghost predicate IsLive(trace: Trace, name: Str) { exists password :: HasAccount(trace, name, password) }

  ghost predicate IsLoggedIn(trace: Trace, t: ThreadId) { exists name :: LoggedInAs(trace, t, name) }

  /* One more turn. */

  lemma AskedOneMore(trace: Trace, turn: Turn, name: Str)
    ensures Asked(trace + [turn], name) <==>
      Asked(trace, name) || (turn.call.CallRegister? && turn.call.name == name)
  {
    if Asked(trace, name) {
      var i :| 0 <= i < |trace| && trace[i].call.CallRegister? && trace[i].call.name == name;
      assert (trace + [turn])[i] == trace[i];
    }
    if turn.call.CallRegister? && turn.call.name == name { assert (trace + [turn])[|trace|] == turn; }
  }

  lemma AccountKeptOneMore(trace: Trace, turn: Turn, from: nat, name: Str)
    requires from <= |trace|
    ensures AccountKept(trace + [turn], from, name) <==>
      AccountKept(trace, from, name) && !(turn.call.CallDelete? && LoggedInAs(trace, turn.thread, name))
  {
    var later := trace + [turn];
    assert later[..|trace|] == trace && later[|trace|] == turn;
    forall k | from <= k < |trace| ensures later[k] == trace[k] && later[..k] == trace[..k] {}
    if AccountKept(later, from, name) {
      forall k | from <= k < |trace| && trace[k].call.CallDelete?
        ensures !LoggedInAs(trace[..k], trace[k].thread, name)
      {
        assert later[k].call.CallDelete?;
      }
      if turn.call.CallDelete? { assert later[|trace|].call.CallDelete?; }
    }
  }

  lemma EarlierTurnsStay(trace: Trace, turn: Turn, i: nat, t: ThreadId, name: Str, password: Str)
    requires i < |trace|
    ensures RegisteredAt(trace + [turn], i, name, password) <==> RegisteredAt(trace, i, name, password)
    ensures LoginAt(trace + [turn], i, t, name) <==> LoginAt(trace, i, t, name)
  {
    assert (trace + [turn])[..i] == trace[..i];
  }

  lemma LastTurn(trace: Trace, turn: Turn, t: ThreadId, name: Str, password: Str)
    ensures RegisteredAt(trace + [turn], |trace|, name, password) <==>
      turn.call == CallRegister(name, password) && !Asked(trace, name)
    ensures LoginAt(trace + [turn], |trace|, t, name) <==>
      && turn.thread == t && turn.call.CallLogin? && turn.call.name == name
      && HasAccount(trace, name, turn.call.password) && !IsLoggedIn(trace, t)
  {
    assert (trace + [turn])[..|trace|] == trace;
  }

  lemma HasAccountOneMore(trace: Trace, turn: Turn, name: Str, password: Str)
    ensures HasAccount(trace + [turn], name, password) <==>
      || (HasAccount(trace, name, password) && !(turn.call.CallDelete? && LoggedInAs(trace, turn.thread, name)))
      || (turn.call == CallRegister(name, password) && !Asked(trace, name))
  {
    var later := trace + [turn];
    LastTurn(trace, turn, 0, name, password);
    assert AccountKept(later, |later|, name);
    if i: nat :| RegisteredAt(later, i, name, password) && AccountKept(later, i + 1, name) {
      if i < |trace| {
        EarlierTurnsStay(trace, turn, i, 0, name, password);
        AccountKeptOneMore(trace, turn, i + 1, name);
      }
    }
    if i: nat :| RegisteredAt(trace, i, name, password) && AccountKept(trace, i + 1, name) {
      EarlierTurnsStay(trace, turn, i, 0, name, password);
      AccountKeptOneMore(trace, turn, i + 1, name);
    }
  }

  lemma LoggedInOneMore(trace: Trace, turn: Turn, t: ThreadId, name: Str)
    ensures LoggedInAs(trace + [turn], t, name) <==>
      || (LoggedInAs(trace, t, name) && !(turn.thread == t && EndsSession(turn.call)))
      || (turn.thread == t && turn.call.CallLogin? && turn.call.name == name
          && HasAccount(trace, name, turn.call.password) && !IsLoggedIn(trace, t))
  {
    var later := trace + [turn];
    LastTurn(trace, turn, t, name, []);
    assert SessionKept(later, |later|, t);
    if i: nat :| LoginAt(later, i, t, name) && SessionKept(later, i + 1, t) {
      if i < |trace| {
        EarlierTurnsStay(trace, turn, i, t, name, []);
        SessionKeptOneMore(trace, turn, i + 1, t);
      }
    }
    if i: nat :| LoginAt(trace, i, t, name) && SessionKept(trace, i + 1, t) {
      EarlierTurnsStay(trace, turn, i, t, name, []);
      SessionKeptOneMore(trace, turn, i + 1, t);
    }
  }

  lemma SessionKeptOneMore(trace: Trace, turn: Turn, from: nat, t: ThreadId)
    requires from <= |trace|
    ensures SessionKept(trace + [turn], from, t) <==>
      SessionKept(trace, from, t) && !(turn.thread == t && EndsSession(turn.call))
  {
    var later := trace + [turn];
    assert later[|trace|] == turn && forall k :: from <= k < |trace| ==> later[k] == trace[k];
  }

  /* The database. */

  predicate Holds(d: Db, name: Str, password: Str) { name in d.users && d.users[name].password == password }

  predicate Session(d: Db, t: ThreadId, name: Str) { t in d.threads && d.threads[t] == name }

  /** The database holds exactly the accounts, names and sessions that the calls say. */
  ghost predicate Agrees(d: Db, trace: Trace) {
    && (forall name, password :: Holds(d, name, password) <==> HasAccount(trace, name, password))
    && (forall name :: name in d.historical <==> Asked(trace, name))
    && (forall t, name :: Session(d, t, name) <==> LoggedInAs(trace, t, name))
  }

  lemma Found(d: Db, trace: Trace, name: Str)
    requires Agrees(d, trace)
    ensures name in d.users <==> IsLive(trace, name)
  {
    if name in d.users { assert Holds(d, name, d.users[name].password); }
    if password :| HasAccount(trace, name, password) { assert Holds(d, name, password); }
  }

  lemma FoundSession(d: Db, trace: Trace, t: ThreadId)
    requires Agrees(d, trace)
    ensures t in d.threads <==> IsLoggedIn(trace, t)
  {
    if t in d.threads { assert Session(d, t, d.threads[t]); }
    if name :| LoggedInAs(trace, t, name) { assert Session(d, t, name); }
  }

  lemma CallKeepsAccounts(d: Db, trace: Trace, turn: Turn)
    requires Agrees(d, trace) && Mirrored(d) && !Fatal(Do(d, turn.thread, turn.call).1)
    ensures forall name, password ::
      Holds(Do(d, turn.thread, turn.call).0, name, password) <==> HasAccount(trace + [turn], name, password)
  {
    forall name, password
      ensures Holds(Do(d, turn.thread, turn.call).0, name, password) <==> HasAccount(trace + [turn], name, password)
    {
      HasAccountOneMore(trace, turn, name, password);
      assert Holds(d, name, password) <==> HasAccount(trace, name, password);
      assert Session(d, turn.thread, name) <==> LoggedInAs(trace, turn.thread, name);
    }
  }

  lemma CallKeepsSessions(d: Db, trace: Trace, turn: Turn)
    requires Agrees(d, trace) && !Fatal(Do(d, turn.thread, turn.call).1)
    ensures forall t, name ::
      Session(Do(d, turn.thread, turn.call).0, t, name) <==> LoggedInAs(trace + [turn], t, name)
  {
    forall t, name
      ensures Session(Do(d, turn.thread, turn.call).0, t, name) <==> LoggedInAs(trace + [turn], t, name)
    {
      LoggedInOneMore(trace, turn, t, name);
      FoundSession(d, trace, t);
      assert Session(d, t, name) <==> LoggedInAs(trace, t, name);
      if turn.call.CallLogin? {
        assert Holds(d, name, turn.call.password) <==> HasAccount(trace, name, turn.call.password);
      }
    }
  }

  /** A name is used exactly if somebody has asked for it. */
  lemma {:induction false} UsedIsAsked(trace: Trace, name: Str)
    ensures name in StateOf(trace).historical <==> Asked(trace, name)
  {
    if trace != [] {
      var front, last := trace[..|trace| - 1], trace[|trace| - 1];
      UsedIsAsked(front, name);
      RunsAreMirrored(front);
      assert front + [last] == trace;
      AskedOneMore(front, last, name);
    }
  }

  /** At every point of every run that the process survives the database agrees with
      the calls made. */
  lemma {:induction false} DatabaseAgrees(trace: Trace)
    requires Survived(trace)
    ensures Agrees(StateOf(trace), trace)
  {
    if trace != [] {
      var front, last := trace[..|trace| - 1], trace[|trace| - 1];
      DatabaseAgrees(front);
      RunsAreMirrored(front);
      assert front + [last] == trace;
      CallKeepsAccounts(StateOf(front), front, last);
      CallKeepsSessions(StateOf(front), front, last);
    }
    forall name ensures name in StateOf(trace).historical <==> Asked(trace, name) { UsedIsAsked(trace, name); }
  }

  /* The answers. */

  /** A login is accepted exactly if the thread is logged in as nobody and the
      password is that of the account; a registration exactly if the name has never
      been asked for; a logout exactly from a session. */
  lemma LoginsFollowTheCalls(trace: Trace, t: ThreadId, name: Str, password: Str)
    requires Survived(trace)
    ensures Login(StateOf(trace), t, name, password).1 == Ok <==>
      !IsLoggedIn(trace, t) && HasAccount(trace, name, password)
    ensures Register(StateOf(trace), name, password).1 == Ok <==> !Asked(trace, name)
    ensures Logout(StateOf(trace), t).1 == Ok <==> IsLoggedIn(trace, t)
  {
    DatabaseAgrees(trace);
    RunsAreMirrored(trace);
    FoundSession(StateOf(trace), trace, t);
    assert Holds(StateOf(trace), name, password) <==> HasAccount(trace, name, password);
  }

  /** An account lasts, with the password of its registration, until somebody logged
      in as it deletes it. */
  lemma PasswordsLast(trace: Trace, i: nat, name: Str, p: Str, t: ThreadId, q: Str)
    requires Survived(trace) && RegisteredAt(trace, i, name, p)
    requires AccountKept(trace, i + 1, name) && !IsLoggedIn(trace, t)
    ensures name in StateOf(trace).users && StateOf(trace).users[name].password == p
    ensures Login(StateOf(trace), t, name, q).1 == Ok <==> q == p
  {
    DatabaseAgrees(trace);
    assert Holds(StateOf(trace), name, p);
    LoginsFollowTheCalls(trace, t, name, q);
  }

  /** Whether a text is delivered, and what the two reads of a session return. */
  lemma TextsFollowTheCalls(trace: Trace, t: ThreadId, name: Str, other: Str, txt: Str)
    requires Survived(trace) && LoggedInAs(trace, t, name) && IsLive(trace, name)
    ensures SendTxt(StateOf(trace), t, other, txt).1 == if IsLive(trace, other) then Ok else Error
    ensures RecvTxt(StateOf(trace), t, other) ==
      if IsLive(trace, other) then (Ok, Restrict(History(trace), name, other)) else (Error, [])
    ensures History(trace + [Turn(t, CallSend(other, txt))]) ==
      History(trace) + if IsLive(trace, other) then [Message(name, other, txt)] else []
    ensures Correspondents(StateOf(trace), t).0 == Ok
    ensures forall b :: b in Correspondents(StateOf(trace), t).1 <==>
      IsLive(trace, b) && Restrict(History(trace), name, b) != []
  {
    var d := StateOf(trace);
    DatabaseAgrees(trace);
    ChatsRefineHistory(trace);
    assert Session(d, t, name);
    Found(d, trace, name);
    Found(d, trace, other);
    OneMoreTurn(trace, Turn(t, CallSend(other, txt)));
    forall b ensures b in Correspondents(d, t).1 <==> IsLive(trace, b) && Restrict(History(trace), name, b) != [] {
      Found(d, trace, b);
    }
  }

  /** A search answers exactly the names that have an account and that the matcher
      accepts, each once, in the order of their bytes. */
  lemma SearchesFollowTheCalls(trace: Trace, pattern: Str, names: seq<Str>)
    requires Survived(trace) && IsSearchResult(StateOf(trace), pattern, names)
    ensures forall name :: name in names <==> IsLive(trace, name) && Wildcard(pattern, name)
    ensures forall i, j :: 0 <= i < j < |names| ==>
      names[i] != names[j] && exists k: nat :: DiffersAt(names[i], names[j], k)
  {
    DatabaseAgrees(trace);
    forall name ensures name in names <==> IsLive(trace, name) && Wildcard(pattern, name) {
      Found(StateOf(trace), trace, name);
    }
    forall i, j | 0 <= i < j < |names|
      ensures names[i] != names[j] && exists k: nat :: DiffersAt(names[i], names[j], k)
    {
      IncreasingIsByteOrder(names, i, j);
    }
  }

  /** Without a session every call that needs one is refused; a session whose account
      is gone makes the next lookup fail. */
  lemma SessionsAreNeeded(trace: Trace, t: ThreadId, call: Call)
    requires Survived(trace) && (call.CallSend? || call.CallRecv? || call.CallCorrespondents? || call.CallDelete?)
    ensures !IsLoggedIn(trace, t) ==> Do(StateOf(trace), t, call) == (StateOf(trace), Error)
    ensures Do(StateOf(trace), t, call).1 == OutOfRange <==>
      exists name :: LoggedInAs(trace, t, name) && !IsLive(trace, name)
  {
    var d := StateOf(trace);
    DatabaseAgrees(trace);
    FoundSession(d, trace, t);
    if t in d.threads {
      assert Session(d, t, d.threads[t]);
      Found(d, trace, d.threads[t]);
    }
    if name :| LoggedInAs(trace, t, name) && !IsLive(trace, name) {
      assert Session(d, t, name);
      Found(d, trace, name);
    }
  }
}
