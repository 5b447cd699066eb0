/** The chat database of database.cc as a value, one function for each call, and
    what every call and every run of calls keeps. */
module ChatDb {
  import opened Bytes
  import opened Glob

  /** `std::this_thread::get_id()`: one thread serves one connection. */
  type ThreadId = nat

  const YOU: byte := 0
  const OTHER: byte := 1

  datatype Text = Text(sender: byte, content: Str)

  type Chat = seq<Text>

  datatype User = User(username: Str, password: Str, chats: map<Str, Chat>)

  /** `users_`, `historical_users_` and `threads_`. */
  datatype Db = Db(users: map<Str, User>, historical: set<Str>, threads: map<ThreadId, Str>)

  /** Outcome of a call.  OutOfRange is the exception of a failing `users_.at`;
      Dangling is a loop that goes on from an entry it has erased. */
  datatype Status = Ok | Error | OutOfRange | Dangling

  /** The process does not outlast the call: the exception is caught by nobody, and
      what a dangling iterator does is not defined. */
  predicate Fatal(s: Status) { s == OutOfRange || s == Dangling }

  const EMPTY := Db(map[], {}, map[])

  function ChatWith(u: User, other: Str): Chat {
    if other in u.chats then u.chats[other] else []
  }

  function Login(d: Db, t: ThreadId, name: Str, password: Str): (Db, Status) {
    if t in d.threads then (d, Error)
    else if name !in d.users then (d, Error)
    else if password != d.users[name].password then (d, Error)
    else (d.(threads := d.threads[t := name]), Ok)
  }

  function Register(d: Db, name: Str, password: Str): (Db, Status) {
    if name in d.users || name in d.historical then (d, Error)
    else (d.(users := d.users[name := User(name, password, map[])], historical := d.historical + {name}), Ok)
  }

  function Logout(d: Db, t: ThreadId): (Db, Status) {
    if t !in d.threads then (d, Error) else (d.(threads := d.threads - {t}), Ok)
  }

  function Append(u: User, other: Str, text: Text): User {
    u.(chats := u.chats[other := ChatWith(u, other) + [text]])
  }

  /** `send_txt`: the sender's copy first, then the recipient's; for a text to
      oneself both go to the same chat. */
  function SendTxt(d: Db, t: ThreadId, recipient: Str, txt: Str): (Db, Status) {
    if t !in d.threads then (d, Error)
    else if d.threads[t] !in d.users then (d, OutOfRange)
    else if recipient !in d.users then (d, Error)
    else
      var name := d.threads[t];
      var users := d.users[name := Append(d.users[name], recipient, Text(YOU, txt))];
      var users := users[recipient := Append(users[recipient], users[name].username, Text(OTHER, txt))];
      (d.(users := users), Ok)
  }

  /** `recv_txt`: the status, and the chat when it is Ok. */
  function RecvTxt(d: Db, t: ThreadId, sender: Str): (Status, Chat) {
    if t !in d.threads then (Error, [])
    else if d.threads[t] !in d.users then (OutOfRange, [])
    else if sender !in d.users then (Error, [])
    else (Ok, ChatWith(d.users[d.threads[t]], sender))
  }

  /** `get_correspondents`: the status, and the names, in no particular order. */
  function Correspondents(d: Db, t: ThreadId): (Status, set<Str>) {
    if t !in d.threads then (Error, {})
    else if d.threads[t] !in d.users then (OutOfRange, {})
    else (Ok, d.users[d.threads[t]].chats.Keys)
  }

  function WithoutChat(u: User, name: Str): User { u.(chats := u.chats - {name}) }

  /** `delete_user`: the user goes, and its chat with each of its correspondents.  A
      user with a chat with itself is its own correspondent: the loop over the chats
      then erases the entry it stands on.  There is no database after that; the
      value is the one without it, and nothing is said about it. */
  function DeleteUser(d: Db, t: ThreadId): (Db, Status) {
    if t !in d.threads then (d, Error)
    else if d.threads[t] !in d.users then (d, OutOfRange)
    else
      var name := d.threads[t];
      var users := map x | x in d.users && x != name ::
                     if x in d.users[name].chats then WithoutChat(d.users[x], name) else d.users[x];
      (d.(users := users, threads := d.threads - {t}), if name in d.users[name].chats then Dangling else Ok)
  }

  /** The answer of `get_usernames`. */
  ghost predicate IsSearchResult(d: Db, pattern: Str, names: seq<Str>) {
    Increasing(names) && forall u :: u in names <==> u in d.users && Wildcard(pattern, u)
  }

  /** The calls that depend on a session or change the database. */
  datatype Call =
    | CallLogin(name: Str, password: Str)
    | CallRegister(name: Str, password: Str)
    | CallLogout
    | CallSend(recipient: Str, txt: Str)
    | CallRecv(sender: Str)
    | CallCorrespondents
    | CallDelete

  function Do(d: Db, t: ThreadId, call: Call): (Db, Status) {
    match call
    case CallLogin(u, p) => Login(d, t, u, p)
    case CallRegister(u, p) => Register(d, u, p)
    case CallLogout => Logout(d, t)
    case CallSend(r, txt) => SendTxt(d, t, r, txt)
    case CallRecv(sender) => (d, RecvTxt(d, t, sender).0)
    case CallCorrespondents => (d, Correspondents(d, t).0)
    case CallDelete => DeleteUser(d, t)
  }

  /* Sessions. */

  /** Every session names a live user, so no `users_.at` fails. */
  ghost predicate SessionsLive(d: Db) {
    forall t :: t in d.threads ==> d.threads[t] in d.users
  }

  /** A second connection is logged in as the user of `t`. */
  ghost predicate Shared(d: Db, t: ThreadId) {
    t in d.threads && exists s :: s != t && s in d.threads && d.threads[s] == d.threads[t]
  }

  /** The next lookup of this thread's user will fail. */
  predicate Stale(d: Db, t: ThreadId) { t in d.threads && d.threads[t] !in d.users }

  /** The user of `t` has written to itself. */
  predicate ChatsWithSelf(d: Db, t: ThreadId) {
    t in d.threads && d.threads[t] in d.users && d.threads[t] in d.users[d.threads[t]].chats
  }

  /** Every call keeps the sessions live, except a deletion while a second
      connection is logged in as the same user, which never does. */
  lemma SessionsStayLive(d: Db, t: ThreadId, call: Call)
    requires SessionsLive(d)
    ensures SessionsLive(Do(d, t, call).0) <==> !(call.CallDelete? && Shared(d, t))
    ensures Do(d, t, call).1 != OutOfRange
    ensures Do(d, t, call).1 == Dangling <==> call.CallDelete? && ChatsWithSelf(d, t)
  {
    if call.CallDelete? && Shared(d, t) {
      var s :| s != t && s in d.threads && d.threads[s] == d.threads[t];
      assert s in Do(d, t, call).0.threads;
    }
  }

  /** A session is changed only by its own thread, whatever the others do. */
  lemma SessionsAreOwn(d: Db, t: ThreadId, s: ThreadId, call: Call)
    requires s != t
    ensures s in Do(d, t, call).0.threads <==> s in d.threads
    ensures s in d.threads ==> Do(d, t, call).0.threads[s] == d.threads[s]
  {
  }

  /* The two copies of each chat. */

  /** Keys agree with the stored names, and every chat has its mirror. */
  ghost predicate Mirrored(d: Db) {
    && (forall a :: a in d.users ==> d.users[a].username == a && a in d.historical)
    && (forall a, b :: a in d.users && b in d.users[a].chats ==> b in d.users && a in d.users[b].chats)
  }

  /** One delivered text. */
  datatype Message = Message(sender: Str, recipient: Str, txt: Str)

  /** What one delivered text adds to `a`'s chat with `b`. */
  function Tagged(m: Message, a: Str, b: Str): Chat {
    (if m.sender == a && m.recipient == b then [Text(YOU, m.txt)] else []) +
    (if m.sender == b && m.recipient == a then [Text(OTHER, m.txt)] else [])
  }

  /** `a`'s chat with `b` read off a list of everything ever delivered. */
  function Restrict(log: seq<Message>, a: Str, b: Str): Chat {
    if log == [] then [] else Restrict(log[..|log| - 1], a, b) + Tagged(log[|log| - 1], a, b)
  }

  /** The text a call delivers. */
  function Delivered(d: Db, t: ThreadId, call: Call): seq<Message> {
    if call.CallSend? && SendTxt(d, t, call.recipient, call.txt).1 == Ok
    then [Message(d.threads[t], call.recipient, call.txt)] else []
  }

  /** The stored chats are the delivered texts, restricted to each pair of live
      users, and chats exist for exactly the pairs that have written. */
  ghost predicate Records(d: Db, log: seq<Message>) {
    && Mirrored(d)
    && (forall a, b :: a in d.users && b in d.users ==> ChatWith(d.users[a], b) == Restrict(log, a, b))
    && (forall a, b :: a in d.users && b in d.users ==> (b in d.users[a].chats <==> Restrict(log, a, b) != []))
    && (forall m :: m in log ==> m.sender in d.historical && m.recipient in d.historical)
  }

  lemma RestrictAppend(log: seq<Message>, m: Message, a: Str, b: Str)
    ensures Restrict(log + [m], a, b) == Restrict(log, a, b) + Tagged(m, a, b)
  {
    assert (log + [m])[..|log|] == log;
  }

  lemma {:induction false} RestrictUnknown(log: seq<Message>, a: Str, b: Str)
    requires forall m :: m in log ==> m.sender != a && m.recipient != a
    ensures Restrict(log, a, b) == [] && Restrict(log, b, a) == []
  {
    if log != [] { RestrictUnknown(log[..|log| - 1], a, b); }
  }

  lemma {:induction false} RestrictHolds(log: seq<Message>, m: Message)
    requires m in log
    ensures Text(YOU, m.txt) in Restrict(log, m.sender, m.recipient)
  {
    var n := |log| - 1;
    if log[n] == m {
      assert Text(YOU, m.txt) in Tagged(m, m.sender, m.recipient);
    } else {
      RestrictHolds(log[..n], m);
    }
  }

  lemma {:induction false} RestrictComesFrom(log: seq<Message>, a: Str) returns (m: Message)
    requires Restrict(log, a, a) != []
    ensures m in log && m.sender == a && m.recipient == a
  {
    var n := |log| - 1;
    if Restrict(log[..n], a, a) != [] {
      m := RestrictComesFrom(log[..n], a);
    } else {
      m := log[n];
    }
  }

  lemma RegisterKeepsRecords(d: Db, log: seq<Message>, name: Str, password: Str)
    requires Records(d, log)
    ensures Records(Register(d, name, password).0, log)
  {
    var d' := Register(d, name, password).0;
    if name !in d.historical {
      forall b ensures Restrict(log, name, b) == [] && Restrict(log, b, name) == [] { RestrictUnknown(log, name, b); }
    }
  }

  lemma SendKeepsMirror(d: Db, t: ThreadId, recipient: Str, txt: Str)
    requires Mirrored(d)
    ensures Mirrored(SendTxt(d, t, recipient, txt).0)
  {
    var (d', status) := SendTxt(d, t, recipient, txt);
    if status == Ok {
      var name := d.threads[t];
      forall a | a in d'.users
        ensures a in d.users && d'.users[a].username == a
        ensures d'.users[a].chats.Keys == d.users[a].chats.Keys
                  + (if a == name then {recipient} else {}) + (if a == recipient then {name} else {})
      {}
      forall a, b | a in d'.users && b in d'.users[a].chats ensures b in d'.users && a in d'.users[b].chats {
        assert b in d.users[a].chats || (a == name && b == recipient) || (a == recipient && b == name);
      }
    }
  }

  lemma SendAppends(d: Db, t: ThreadId, recipient: Str, txt: Str, a: Str, b: Str)
    requires Mirrored(d) && SendTxt(d, t, recipient, txt).1 == Ok && a in d.users
    ensures var d', m := SendTxt(d, t, recipient, txt).0, Message(d.threads[t], recipient, txt);
            && d'.users.Keys == d.users.Keys
            && ChatWith(d'.users[a], b) == ChatWith(d.users[a], b) + Tagged(m, a, b)
            && (b in d'.users[a].chats <==> b in d.users[a].chats || Tagged(m, a, b) != [])
  {
  }

  lemma SendKeepsRecords(d: Db, log: seq<Message>, t: ThreadId, recipient: Str, txt: Str)
    requires Records(d, log) && SendTxt(d, t, recipient, txt).1 == Ok
    ensures Records(SendTxt(d, t, recipient, txt).0, log + [Message(d.threads[t], recipient, txt)])
  {
    var d', m := SendTxt(d, t, recipient, txt).0, Message(d.threads[t], recipient, txt);
    SendKeepsMirror(d, t, recipient, txt);
    forall a, b | a in d'.users && b in d'.users
      ensures ChatWith(d'.users[a], b) == Restrict(log + [m], a, b)
      ensures b in d'.users[a].chats <==> Restrict(log + [m], a, b) != []
    {
      SendAppends(d, t, recipient, txt, a, b);
      RestrictAppend(log, m, a, b);
    }
  }

  lemma DeleteKeepsRecords(d: Db, log: seq<Message>, t: ThreadId)
    requires Records(d, log)
    ensures Records(DeleteUser(d, t).0, log)
  {
    var d' := DeleteUser(d, t).0;
    if t in d.threads && d.threads[t] in d.users {
      var name := d.threads[t];
      forall a, b | a in d'.users && b in d'.users
        ensures ChatWith(d'.users[a], b) == ChatWith(d.users[a], b)
        ensures b in d'.users[a].chats <==> b in d.users[a].chats
      {}
      forall a, b | a in d'.users && b in d'.users[a].chats ensures b in d'.users && a in d'.users[b].chats {
        assert a in d.users[b].chats;
      }
    }
  }

  /** Each call keeps the two copies of every chat equal to the delivered texts. */
  lemma CallsKeepRecords(d: Db, log: seq<Message>, t: ThreadId, call: Call)
    requires Records(d, log)
    ensures Records(Do(d, t, call).0, log + Delivered(d, t, call))
  {
    assert log + [] == log;
    match call
    case CallLogin(u, p) =>
    case CallRegister(u, p) => RegisterKeepsRecords(d, log, u, p);
    case CallLogout =>
    case CallSend(r, txt) => if SendTxt(d, t, r, txt).1 == Ok { SendKeepsRecords(d, log, t, r, txt); }
    case CallRecv(sender) =>
    case CallCorrespondents =>
    case CallDelete => DeleteKeepsRecords(d, log, t);
  }

  /* Runs. */

  datatype Turn = Turn(thread: ThreadId, call: Call)

  /** The calls of all threads since the server started, in the order of the
      database lock. */
  type Trace = seq<Turn>

  function StateOf(trace: Trace): Db {
    if trace == [] then EMPTY
    else
      var last := trace[|trace| - 1];
      Do(StateOf(trace[..|trace| - 1]), last.thread, last.call).0
  }

  /** The status of call `i`. */
  function StatusAt(trace: Trace, i: nat): Status
    requires i < |trace|
  {
    Do(StateOf(trace[..i]), trace[i].thread, trace[i].call).1
  }

  /** No call has been fatal: a fatal call ends the process, and with it every
      connection. */
  ghost predicate Survived(trace: Trace) {
    trace == [] || (
      var front, last := trace[..|trace| - 1], trace[|trace| - 1];
      Survived(front) && !Fatal(Do(StateOf(front), last.thread, last.call).1))
  }

  /** Some account has been deleted while a second connection was logged in as it. */
  ghost predicate DeletesShared(trace: Trace) {
    trace != [] && (
      var front, last := trace[..|trace| - 1], trace[|trace| - 1];
      DeletesShared(front) || (last.call.CallDelete? && Shared(StateOf(front), last.thread)))
  }

  /** Some account has been deleted that had a chat with itself. */
  ghost predicate DeletesSelfChat(trace: Trace) {
    trace != [] && (
      var front, last := trace[..|trace| - 1], trace[|trace| - 1];
      DeletesSelfChat(front) || (last.call.CallDelete? && ChatsWithSelf(StateOf(front), last.thread)))
  }

  /** No account has been deleted in either of the two ways. */
  ghost predicate DeletesSafely(trace: Trace) { !DeletesShared(trace) && !DeletesSelfChat(trace) }

  /** Everything delivered. */
  function History(trace: Trace): seq<Message> {
    if trace == [] then []
    else
      var front, last := trace[..|trace| - 1], trace[|trace| - 1];
      History(front) + Delivered(StateOf(front), last.thread, last.call)
  }

  lemma OneMoreTurn(trace: Trace, turn: Turn)
    ensures StateOf(trace + [turn]) == Do(StateOf(trace), turn.thread, turn.call).0
    ensures Survived(trace + [turn]) <==> Survived(trace) && !Fatal(Do(StateOf(trace), turn.thread, turn.call).1)
    ensures History(trace + [turn]) == History(trace) + Delivered(StateOf(trace), turn.thread, turn.call)
  {
    assert (trace + [turn])[..|trace|] == trace;
  }

  /** The doubly stored chats refine one append-only list, in every run. */
  lemma {:induction false} ChatsRefineHistory(trace: Trace)
    ensures Records(StateOf(trace), History(trace))
  {
    if trace == [] {
      NothingRecorded(StateOf(trace), History(trace));
    } else {
      var front, last := trace[..|trace| - 1], trace[|trace| - 1];
      ChatsRefineHistory(front);
      CallsKeepRecords(StateOf(front), History(front), last.thread, last.call);
    }
  }

  lemma NothingRecorded(d: Db, log: seq<Message>)
    requires d == EMPTY && log == []
    ensures Records(d, log)
  {
  }

  lemma {:induction false} HistoryOnlyGrows(trace: Trace, later: Trace)
    requires trace <= later
    ensures History(trace) <= History(later)
    decreases |later|
  {
    if trace != later {
      HistoryOnlyGrows(trace, later[..|later| - 1]);
    }
  }

  /** A delivered text is in the sender's chat for as long as both users live. */
  lemma SentIsKept(trace: Trace, t: ThreadId, recipient: Str, txt: Str, later: Trace, name: Str)
    requires t in StateOf(trace).threads && StateOf(trace).threads[t] == name
    requires SendTxt(StateOf(trace), t, recipient, txt).1 == Ok
    requires trace + [Turn(t, CallSend(recipient, txt))] <= later
    requires name in StateOf(later).users && recipient in StateOf(later).users
    ensures Text(YOU, txt) in ChatWith(StateOf(later).users[name], recipient)
  {
    var m, turn := Message(name, recipient, txt), Turn(t, CallSend(recipient, txt));
    OneMoreTurn(trace, turn);
    HistoryOnlyGrows(trace + [turn], later);
    assert m in History(trace + [turn]);
    assert m in History(later);
    ChatsRefineHistory(later);
    RestrictHolds(History(later), m);
  }

  /** In a run without deletions of shared accounts every session is live, and the
      process lasts exactly as long as no account with a chat with itself is deleted. */
  lemma {:induction false} RunsKeepSessionsLive(trace: Trace)
    requires !DeletesShared(trace)
    ensures SessionsLive(StateOf(trace))
    ensures Survived(trace) <==> !DeletesSelfChat(trace)
  {
    if trace != [] {
      var front, last := trace[..|trace| - 1], trace[|trace| - 1];
      RunsKeepSessionsLive(front);
      SessionsStayLive(StateOf(front), last.thread, last.call);
    }
  }

  /** Every session has named a live user at all times. */
  ghost predicate AlwaysLive(trace: Trace) {
    SessionsLive(StateOf(trace)) && (trace == [] || AlwaysLive(trace[..|trace| - 1]))
  }

  /** That is so exactly if no shared account has been deleted. */
  lemma {:induction false} SessionsLiveExactly(trace: Trace)
    ensures AlwaysLive(trace) <==> !DeletesShared(trace)
  {
    if trace != [] {
      var front, last := trace[..|trace| - 1], trace[|trace| - 1];
      SessionsLiveExactly(front);
      if SessionsLive(StateOf(front)) { SessionsStayLive(StateOf(front), last.thread, last.call); }
    }
  }

  /** The deletion of an account with a chat with itself ends the process, whatever
      else the run does. */
  lemma {:induction false} SelfChatDeletionIsFatal(trace: Trace)
    ensures DeletesSelfChat(trace) ==> !Survived(trace)
  {
    if trace != [] { SelfChatDeletionIsFatal(trace[..|trace| - 1]); }
  }

  /** A live user has a chat with itself exactly if it has sent itself a text. */
  lemma SelfChatIsDelivered(trace: Trace, t: ThreadId)
    requires t in StateOf(trace).threads && !Stale(StateOf(trace), t)
    ensures var name := StateOf(trace).threads[t];
            ChatsWithSelf(StateOf(trace), t) <==> exists txt :: Message(name, name, txt) in History(trace)
  {
    var log, name := History(trace), StateOf(trace).threads[t];
    ChatsRefineHistory(trace);
    if ChatsWithSelf(StateOf(trace), t) {
      var m := RestrictComesFrom(log, name);
      assert Message(name, name, m.txt) in log;
    }
    if txt :| Message(name, name, txt) in log {
      RestrictHolds(log, Message(name, name, txt));
    }
  }

  /** A name that has been used stays used, and only registration brings it to life. */
  lemma {:induction false} NamesAreSpent(trace: Trace, later: Trace, name: Str)
    requires trace <= later && name in StateOf(trace).historical
    ensures name in StateOf(later).historical
    ensures name !in StateOf(trace).users ==> name !in StateOf(later).users
    decreases |later|
  {
    if trace != later {
      NamesAreSpent(trace, later[..|later| - 1], name);
    }
  }

  lemma StateAfterTurn(trace: Trace, i: nat)
    requires i < |trace|
    ensures StateOf(trace[..i + 1]) == Do(StateOf(trace[..i]), trace[i].thread, trace[i].call).0
  {
    assert trace[..i + 1] == trace[..i] + [trace[i]];
    OneMoreTurn(trace[..i], trace[i]);
  }

  /** No username is ever registered twice in a run. */
  lemma RegisteredOnce(trace: Trace, i: nat, k: nat, name: Str, p: Str, q: Str)
    requires i < k < |trace|
    requires trace[i].call == CallRegister(name, p) && StatusAt(trace, i) == Ok
    requires trace[k].call == CallRegister(name, q)
    ensures StatusAt(trace, k) == Error
  {
    StateAfterTurn(trace, i);
    NamesAreSpent(trace[..i + 1], trace[..k], name);
  }

  lemma DeleteForgets(d: Db, t: ThreadId, a: Str, b: Str)
    requires Mirrored(d) && DeleteUser(d, t).1 == Ok && a in d.users && b in d.users
    requires a != d.threads[t] && b != d.threads[t]
    ensures a in DeleteUser(d, t).0.users
    ensures ChatWith(DeleteUser(d, t).0.users[a], b) == ChatWith(d.users[a], b)
  {
  }

  lemma DeletionSparesOthers(d: Db, t: ThreadId)
    requires Mirrored(d) && DeleteUser(d, t).1 == Ok
    ensures var d', name := DeleteUser(d, t).0, d.threads[t];
            && name in d.historical && name !in d'.users
            && forall a, b :: a in d.users && b in d.users && a != name && b != name ==>
                 a in d'.users && ChatWith(d'.users[a], b) == ChatWith(d.users[a], b)
  {
    var d', name := DeleteUser(d, t).0, d.threads[t];
    forall a, b | a in d.users && b in d.users && a != name && b != name
      ensures a in d'.users && ChatWith(d'.users[a], b) == ChatWith(d.users[a], b)
    {
      DeleteForgets(d, t, a, b);
    }
  }

  /** Once a user is deleted the name never again appears: not as a user, not in
      any chat list, not in any search; and the chats of the others stay. */
  lemma DeletedForGood(trace: Trace, i: nat, k: nat, name: Str)
    requires i < k <= |trace|
    requires trace[i].call == CallDelete && StatusAt(trace, i) == Ok
    requires StateOf(trace[..i]).threads[trace[i].thread] == name
    ensures var later := StateOf(trace[..k]);
            && name !in later.users
            && (forall a :: a in later.users ==> name !in later.users[a].chats)
            && (forall pattern, names :: IsSearchResult(later, pattern, names) ==> name !in names)
    ensures var d, d' := StateOf(trace[..i]), StateOf(trace[..i + 1]);
            forall a, b :: a in d.users && b in d.users && a != name && b != name ==>
              a in d'.users && ChatWith(d'.users[a], b) == ChatWith(d.users[a], b)
  {
    RunsAreMirrored(trace[..i]);
    StateAfterTurn(trace, i);
    DeletionSparesOthers(StateOf(trace[..i]), trace[i].thread);
    NamesAreSpent(trace[..i + 1], trace[..k], name);
    RunsAreMirrored(trace[..k]);
    DeadNamesAreNowhere(StateOf(trace[..k]), name);
  }

  lemma RunsAreMirrored(trace: Trace)
    ensures Mirrored(StateOf(trace))
  {
    ChatsRefineHistory(trace);
  }

  lemma DeadNamesAreNowhere(d: Db, name: Str)
    requires Mirrored(d) && name !in d.users
    ensures forall a :: a in d.users ==> name !in d.users[a].chats
    ensures forall pattern, names :: IsSearchResult(d, pattern, names) ==> name !in names
  {
  }

  lemma TwoLogins(name: Str, password: Str)
    ensures var trace := [Turn(0, CallRegister(name, password)), Turn(0, CallLogin(name, password)),
        Turn(1, CallLogin(name, password))];
            && StateOf(trace) == Db(map[name := User(name, password, map[])], {name}, map[0 := name, 1 := name])
            && Survived(trace)
  {
    var r, l0, l1 := Turn(0, CallRegister(name, password)), Turn(0, CallLogin(name, password)),
      Turn(1, CallLogin(name, password));
    assert [] + [r] == [r] && [r] + [l0] == [r, l0] && [r, l0] + [l1] == [r, l0, l1];
    OneMoreTurn([], r);
    OneMoreTurn([r], l0);
    OneMoreTurn([r, l0], l1);
  }

  /** Deleting an account while a second connection is logged in as it does make a
      lookup fail: the second connection's next text ends the server. */
  lemma SharedDeletionFails(name: Str, password: Str, txt: Str)
    ensures var before := [Turn(0, CallRegister(name, password)), Turn(0, CallLogin(name, password)),
                           Turn(1, CallLogin(name, password)), Turn(0, CallDelete)];
            Survived(before) && DeletesShared(before) && !Survived(before + [Turn(1, CallSend(name, txt))])
  {
    var front := [Turn(0, CallRegister(name, password)), Turn(0, CallLogin(name, password)),
      Turn(1, CallLogin(name, password))];
    var before := front + [Turn(0, CallDelete)];
    assert before == [Turn(0, CallRegister(name, password)), Turn(0, CallLogin(name, password)),
                      Turn(1, CallLogin(name, password)), Turn(0, CallDelete)];
    TwoLogins(name, password);
    OneMoreTurn(front, Turn(0, CallDelete));
    OneMoreTurn(before, Turn(1, CallSend(name, txt)));
    assert 1 in StateOf(front).threads && StateOf(front).threads[1] == StateOf(front).threads[0];
    assert before[..3] == front;
  }

  lemma OneMoreDeletion(trace: Trace, turn: Turn)
    ensures DeletesShared(trace + [turn]) <==>
      DeletesShared(trace) || (turn.call.CallDelete? && Shared(StateOf(trace), turn.thread))
  {
    assert (trace + [turn])[..|trace|] == trace;
  }

  lemma OneLogin(name: Str, password: Str) returns (trace: Trace)
    ensures trace == [Turn(0, CallRegister(name, password)), Turn(0, CallLogin(name, password))]
    ensures StateOf(trace) == Db(map[name := User(name, password, map[])], {name}, map[0 := name])
    ensures Survived(trace) && !DeletesShared(trace)
  {
    var r, l := Turn(0, CallRegister(name, password)), Turn(0, CallLogin(name, password));
    var d := Db(map[name := User(name, password, map[])], {name}, map[]);
    assert Register(EMPTY, name, password).0.users == d.users
      && Register(EMPTY, name, password).0.historical == d.historical;
    OneMoreTurn([], r);
    OneMoreDeletion([], r);
    assert Login(d, 0, name, password).0.threads == map[0 := name];
    OneMoreTurn([] + [r], l);
    OneMoreDeletion([] + [r], l);
    trace := [] + [r] + [l];
  }

  /** The deletion of an account that has written to itself does end the process. */
  lemma SelfChatDeletionFails(name: Str, password: Str, txt: Str) returns (before: Trace)
    ensures before == [Turn(0, CallRegister(name, password)), Turn(0, CallLogin(name, password)),
        Turn(0, CallSend(name, txt))]
    ensures Survived(before) && !Survived(before + [Turn(0, CallDelete)])
    ensures !DeletesShared(before + [Turn(0, CallDelete)])
    ensures DeleteUser(StateOf(before), 0).1 == Dangling
  {
    var front := OneLogin(name, password);
    var d := StateOf(front);
    var send, del := Turn(0, CallSend(name, txt)), Turn(0, CallDelete);
    OneMoreTurn(front, send);
    OneMoreDeletion(front, send);
    before := front + [send];
    assert SendTxt(d, 0, name, txt).1 == Ok && StateOf(before).threads == d.threads == map[0 := name];
    assert name in StateOf(before).users && name in StateOf(before).users[name].chats;
    OneMoreTurn(before, del);
    OneMoreDeletion(before, del);
  }
}
