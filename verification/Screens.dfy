/** The screens of interface.cc joined to the server: the switch of `start`, with
    any user at the keys and any other connections at work on the same server. */
module Screens {
  import opened Bytes
  import opened ChatDb
  import opened ChatLaws
  import opened Wire
  import opened Handlers
  import opened Client
  import ChatDatabase

  datatype Screen =
    | LoginRegistration | Login | LoginFail | Registration | RegistrationSuccess | RegistrationFail
    | MainMenu | SearchAccounts | SearchAccountsSuccess | SearchAccountsFail
    | OpenChats | OpenChatsSuccess | OpenChatsFail | NewChat | RecvTxt | RecvTxtFail | SendTxt | SendTxtFail
    | DeleteAccount | DeleteAccountSuccess | DeleteAccountFail | Exit

  const ESCAPE: nat := 0xFFFF_FFFF

  /** The screens shown to a user who has logged in. */
  predicate PastLogin(s: Screen) {
    s in {MainMenu, SearchAccounts, SearchAccountsSuccess, SearchAccountsFail, OpenChats, OpenChatsSuccess,
          OpenChatsFail, NewChat, RecvTxt, RecvTxtFail, SendTxt, SendTxtFail, DeleteAccount, DeleteAccountFail}
  }

  /** Where a key leads from a screen that calls nothing. */
  function OnKey(s: Screen, choice: nat): Screen {
    match s
    case LoginRegistration => if choice == 0 then Login else if choice == 1 then Registration else Exit
    case LoginFail => if choice == 0 then Login else LoginRegistration
    case RegistrationFail => if choice == 0 then Registration else LoginRegistration
    case SearchAccountsSuccess => SearchAccounts
    case SearchAccountsFail => MainMenu
    case OpenChatsFail => MainMenu
    case RecvTxtFail => OpenChats
    case SendTxtFail => OpenChats
    case DeleteAccountSuccess => LoginRegistration
    case DeleteAccountFail => MainMenu
    case _ => s
  }

  /** The screens that can follow a screen: the edges of the switch without those
      into the failure screens of a search, a chat list and a deletion, and without
      the one from the menu back to itself after a failed logout. */
  function Successors(s: Screen): set<Screen> {
    match s
    case LoginRegistration => {Login, Registration, Exit}
    case Login => {LoginRegistration, MainMenu, LoginFail}
    case LoginFail => {Login, LoginRegistration}
    case Registration => {LoginRegistration, RegistrationSuccess, RegistrationFail}
    case RegistrationSuccess => {MainMenu, LoginFail}
    case RegistrationFail => {Registration, LoginRegistration}
    case MainMenu => {OpenChats, SearchAccounts, DeleteAccount, LoginRegistration}
    case SearchAccounts => {MainMenu, SearchAccountsSuccess}
    case SearchAccountsSuccess => {SearchAccounts}
    case OpenChats => {OpenChatsSuccess}
    case OpenChatsSuccess => {NewChat, MainMenu, RecvTxt}
    case NewChat => {OpenChats, RecvTxt}
    case RecvTxt => {SendTxt, RecvTxtFail}
    case RecvTxtFail => {OpenChats}
    case SendTxt => {OpenChats, SendTxt, SendTxtFail, RecvTxtFail}
    case SendTxtFail => {OpenChats}
    case DeleteAccount => {MainMenu, DeleteAccountSuccess}
    case DeleteAccountSuccess => {LoginRegistration}
    case _ => {}
  }

  lemma CorrespondentsAreNames(at: Trace, later: Trace, name: Str, names: seq<Str>)
    requires at <= later && AllAdmissible(later)
    requires name in StateOf(at).users && ChatDatabase.Lists(names, StateOf(at).users[name].chats.Keys)
    ensures forall c :: c in names ==> |c| <= 40
  {
    assert AllAdmissible(at) by { assert forall i :: 0 <= i < |at| ==> at[i] == later[i]; }
    NamesAreValid(at);
    RunsAreMirrored(at);
    var d := StateOf(at);
    forall c | c in names ensures |c| <= 40 {
      assert c in d.users && ValidName(c);
    }
  }

  /** Since the login this thread has neither logged in again, nor out, nor deleted
      its account. */
  ghost predicate SameSession(login: Trace, now: Trace, t: ThreadId, name: Str, password: Str) {
    && login != [] && login[|login| - 1] == Turn(t, CallLogin(name, password))
    && login <= now && KeepsSession(now[|login|..], t)
  }

  ghost predicate KeepsSession(turns: Trace, t: ThreadId) {
    turns == [] || (
      var last := turns[|turns| - 1];
      && KeepsSession(turns[..|turns| - 1], t)
      && (last.thread == t ==> last.call.CallSend? || last.call.CallRecv? || last.call.CallCorrespondents?))
  }

  lemma {:induction false} OthersLeaveSession(login: Trace, now: Trace, at: Trace, t: ThreadId)
    requires login <= now && KeepsSession(now[|login|..], t) && OthersOnly(now, at, t)
    ensures login <= at && KeepsSession(at[|login|..], t)
    decreases |at|
  {
    if now != at {
      var n := |at| - 1;
      OthersLeaveSession(login, now, at[..n], t);
      assert at[|login|..][..n - |login|] == at[..n][|login|..];
    }
  }

  /** The session lasts through the others' calls and a call that keeps it. */
  lemma SessionLasts(login: Trace, now: Trace, at: Trace, t: ThreadId, name: Str, password: Str)
    requires SameSession(login, now, t, name, password) && OthersOnly(now, at, t)
    requires SessionOf(StateOf(now), t) == {name}
    ensures SameSession(login, at, t, name, password) && SessionIs(StateOf(at), t, name)
  {
    OthersKeepSession(now, at, t);
    OthersLeaveSession(login, now, at, t);
    assert name in SessionOf(StateOf(at), t);
    assert StateOf(at).threads[t] in SessionOf(StateOf(at), t);
  }

  lemma SessionLastsThrough(login: Trace, at: Trace, act: Call, t: ThreadId, name: Str, password: Str)
    requires SameSession(login, at, t, name, password) && SessionIs(StateOf(at), t, name)
    requires act.CallSend? || act.CallRecv? || act.CallCorrespondents?
    ensures var later := at + [Turn(t, act)];
            && SameSession(login, later, t, name, password) && SessionIs(StateOf(later), t, name)
            && StateOf(later) == Do(StateOf(at), t, act).0
  {
    OneMoreTurn(at, Turn(t, act));
    var later := at + [Turn(t, act)];
    assert later[|login|..][..|at| - |login|] == at[|login|..];
  }

  lemma LoginStarts(at: Trace, later: Trace, t: ThreadId, name: Str, password: Str)
    requires t !in StateOf(at).threads && OthersOnly(at + [Turn(t, CallLogin(name, password))], later, t)
    ensures SameSession(at + [Turn(t, CallLogin(name, password))], later, t, name, password)
    ensures SessionOf(StateOf(later), t) == if ChatDb.Login(StateOf(at), t, name, password).1 == Ok then {name} else {}
  {
    var login := at + [Turn(t, CallLogin(name, password))];
    OneMoreTurn(at, Turn(t, CallLogin(name, password)));
    OthersKeepSession(login, later, t);
    OthersLeaveSession(login, login, later, t);
  }

  /** A call that keeps the session, if it is made, and then the others. */
  lemma CallKeepsSession(login: Trace, at: Trace, later: Trace, t: ThreadId, name: Str, password: Str, act: Call)
    requires SameSession(login, at, t, name, password) && SessionIs(StateOf(at), t, name)
    requires act.CallSend? || act.CallRecv? || act.CallCorrespondents?
    requires OthersOnly(if Survived(at) then at + [Turn(t, act)] else at, later, t)
    ensures SameSession(login, later, t, name, password) && SessionIs(StateOf(later), t, name) && at <= later
  {
    SessionLastsThrough(login, at, act, t, name, password);
    SessionLasts(login, if Survived(at) then at + [Turn(t, act)] else at, later, t, name, password);
  }

  lemma ReadingFinds(d: Db, t: ThreadId, name: Str, sender: Str)
    requires SessionIs(d, t, name)
    ensures var (status, c) := ChatDb.RecvTxt(d, t, sender);
            && (status == Ok <==> name in d.users && sender in d.users)
            && (status == Ok ==> c == ChatWith(d.users[name], sender))
            && (status == Error ==> sender !in d.users)
  {
  }

  lemma PrefixesAreOrdered(a: Trace, b: Trace, c: Trace)
    requires a <= b <= c
    ensures a <= c
  {
  }

  /** A text that has been sent is in the chat read later. */
  lemma SentIsRead(at: Trace, now: Trace, read: Trace, t: ThreadId, name: Str, other: Str, txt: Str)
    requires at + [Turn(t, CallSend(other, txt))] <= now <= read && SessionIs(StateOf(at), t, name)
    requires ChatDb.SendTxt(StateOf(at), t, other, txt).1 == Ok
    requires name in StateOf(read).users && other in StateOf(read).users
    ensures ChatDb.Text(YOU, txt) in ChatWith(StateOf(read).users[name], other)
  {
    PrefixesAreOrdered(at + [Turn(t, CallSend(other, txt))], now, read);
    SentIsKept(at, t, other, txt, read, name);
  }

  lemma {:induction false} SurvivedBefore(trace: Trace, later: Trace)
    requires trace <= later && Survived(later)
    ensures Survived(trace)
    decreases |later|
  {
    if trace != later { SurvivedBefore(trace, later[..|later| - 1]); }
  }

  lemma SendingFinds(at: Trace, later: Trace, t: ThreadId, name: Str, recipient: Str, txt: Str)
    requires SessionIs(StateOf(at), t, name) && Survived(later)
    requires OthersOnly(if Survived(at) then at + [Turn(t, CallSend(recipient, txt))] else at, later, t)
    ensures at + [Turn(t, CallSend(recipient, txt))] <= later
    ensures ChatDb.SendTxt(StateOf(at), t, recipient, txt).1 == if recipient in StateOf(at).users then Ok else Error
  {
    SurvivedBefore(at, later);
    SurvivedBefore(at + [Turn(t, CallSend(recipient, txt))], later);
    OneMoreTurn(at, Turn(t, CallSend(recipient, txt)));
  }

  lemma DeletionEndsSession(at: Trace, later: Trace, t: ThreadId, name: Str)
    requires SessionIs(StateOf(at), t, name) && OthersOnly(at + [Turn(t, CallDelete)], later, t) && Survived(later)
    ensures SessionOf(StateOf(later), t) == {} && name !in StateOf(later).users
    ensures DeleteUser(StateOf(at), t).1 == Ok
  {
    var done := at + [Turn(t, CallDelete)];
    OneMoreTurn(at, Turn(t, CallDelete));
    SurvivedBefore(done, later);
    OthersKeepSession(done, later, t);
    RunsAreMirrored(at);
    NamesAreSpent(done, later, name);
  }

  lemma LogoutIsAnswered(at: Trace, later: Trace, t: ThreadId, name: Str)
    requires SessionIs(StateOf(at), t, name) && OthersOnly(at + [Turn(t, CallLogout)], later, t)
    ensures SessionOf(StateOf(later), t) == {} && ChatDb.Logout(StateOf(at), t).1 == Ok
  {
    OneMoreTurn(at, Turn(t, CallLogout));
    OthersKeepSession(at + [Turn(t, CallLogout)], later, t);
  }

  lemma RegistrationKeepsSession(at: Trace, later: Trace, t: ThreadId, name: Str, password: Str)
    requires OthersOnly(if Survived(at) then at + [Turn(t, CallRegister(name, password))] else at, later, t)
    ensures SessionOf(StateOf(later), t) == SessionOf(StateOf(at), t)
  {
    OneMoreTurn(at, Turn(t, CallRegister(name, password)));
    OthersKeepSession(if Survived(at) then at + [Turn(t, CallRegister(name, password))] else at, later, t);
  }

  /** A registration that has been made is accepted exactly if nobody has asked for
      the name before. */
  lemma RegistrationIsMade(at: Trace, later: Trace, t: ThreadId, name: Str, password: Str)
    requires OthersOnly(if Survived(at) then at + [Turn(t, CallRegister(name, password))] else at, later, t)
    requires Survived(later)
    ensures at + [Turn(t, CallRegister(name, password))] <= later
    ensures ChatDb.Register(StateOf(at), name, password).1 == Ok <==> !Asked(at, name)
  {
    SurvivedBefore(at, later);
    LoginsFollowTheCalls(at, t, name, password);
  }

  /** A login from no session is accepted exactly with the password of the account. */
  lemma LoginIsMade(at: Trace, later: Trace, t: ThreadId, name: Str, password: Str)
    requires OthersOnly(at + [Turn(t, CallLogin(name, password))], later, t) && Survived(later)
    requires t !in StateOf(at).threads
    ensures at + [Turn(t, CallLogin(name, password))] <= later
    ensures ChatDb.Login(StateOf(at), t, name, password).1 == Ok <==> HasAccount(at, name, password)
  {
    SurvivedBefore(at + [Turn(t, CallLogin(name, password))], later);
    SurvivedBefore(at, at + [Turn(t, CallLogin(name, password))]);
    DatabaseAgrees(at);
    FoundSession(StateOf(at), at, t);
    LoginsFollowTheCalls(at, t, name, password);
  }

  /** A call of a session that has been made. */
  lemma CallIsMade(at: Trace, later: Trace, t: ThreadId, name: Str, act: Call, other: Str)
    requires SessionIs(StateOf(at), t, name) && Survived(later)
    requires OthersOnly(if Survived(at) then at + [Turn(t, act)] else at, later, t)
    ensures at + [Turn(t, act)] <= later
    ensures other in StateOf(at).users <==> IsLive(at, other)
  {
    SurvivedBefore(at, later);
    DatabaseAgrees(at);
    Found(StateOf(at), at, other);
  }

  /** Of this thread's calls in between all are requests for a chat. */
  ghost predicate OnlyReads(before: Trace, later: Trace, t: ThreadId) {
    && before <= later
    && forall k :: |before| <= k < |later| && later[k].thread == t ==> later[k].call.CallRecv?
  }

  lemma ReadsAreReads(before: Trace, now: Trace, at: Trace, later: Trace, t: ThreadId, sender: Str)
    requires OnlyReads(before, now, t) && OthersOnly(now, at, t)
    requires OthersOnly(at, later, t) || OthersOnly(at + [Turn(t, CallRecv(sender))], later, t)
    ensures OnlyReads(before, later, t)
  {
    if OthersOnly(at + [Turn(t, CallRecv(sender))], later, t) {
      var made := at + [Turn(t, CallRecv(sender))];
      assert made[|at|] == later[|at|];
    }
  }

  /** A request for a chat leaves the session as it is; the chat comes back exactly if
      its correspondent is live. */
  lemma ReadInSession(login: Trace, past: Trace, at: Trace, later: Trace, t: ThreadId, name: Str, password: Str,
                      sender: Str)
    requires SameSession(login, past, t, name, password) && SessionOf(StateOf(past), t) == {name}
    requires OthersOnly(past, at, t)
    requires OthersOnly(if Survived(at) && t in StateOf(at).threads then at + [Turn(t, CallRecv(sender))] else at,
                        later, t)
    ensures SessionOf(StateOf(later), t) == {name} && SameSession(login, later, t, name, password)
    ensures past <= at <= later && SessionIs(StateOf(at), t, name) && OnlyReads(past, later, t)
    ensures Survived(later) ==> ReadIsMade(at, later, t, name, sender)
  {
    SessionLasts(login, past, at, t, name, password);
    CallKeepsSession(login, at, later, t, name, password, CallRecv(sender));
    ReadsAreReads(past, past, at, later, t, sender);
    if Survived(later) { MadeReadFinds(at, later, t, name, sender); }
  }

  ghost predicate ReadIsMade(at: Trace, later: Trace, t: ThreadId, name: Str, sender: Str) {
    var d := StateOf(at);
    && at + [Turn(t, CallRecv(sender))] <= later && t in d.threads
    && (ChatDb.RecvTxt(d, t, sender).0 == Ok <==> IsLive(at, sender))
    && (IsLive(at, sender) ==>
          name in d.users && sender in d.users && ChatDb.RecvTxt(d, t, sender).1 == ChatWith(d.users[name], sender))
  }

  lemma MadeReadFinds(at: Trace, later: Trace, t: ThreadId, name: Str, sender: Str)
    requires SessionIs(StateOf(at), t, name) && Survived(later)
    requires OthersOnly(if Survived(at) then at + [Turn(t, CallRecv(sender))] else at, later, t)
    ensures ReadIsMade(at, later, t, name, sender)
  {
    CallIsMade(at, later, t, name, CallRecv(sender), sender);
    SurvivedBefore(at + [Turn(t, CallRecv(sender))], later);
    OneMoreTurn(at, Turn(t, CallRecv(sender)));
    ReadingFinds(StateOf(at), t, name, sender);
  }

  /** The text has been sent at `at`, and the chat read at `again`; screen `to` says
      how they went. */
  ghost predicate SentAndRead(to: Screen, at: Trace, again: Trace, later: Trace, t: ThreadId, other: Str, txt: Str) {
    && at + [Turn(t, CallSend(other, txt))] <= later
    && (to == SendTxtFail <==> !IsLive(at, other))
    && (to != SendTxtFail ==>
          && at + [Turn(t, CallSend(other, txt))] <= again && again + [Turn(t, CallRecv(other))] <= later
          && (to == SendTxt <==> IsLive(again, other)))
  }

  lemma ReadAgain(to: Screen, at: Trace, now: Trace, again: Trace, later: Trace, t: ThreadId, other: Str, txt: Str)
    requires at + [Turn(t, CallSend(other, txt))] <= now <= again && again + [Turn(t, CallRecv(other))] <= later
    requires IsLive(at, other) && to != SendTxtFail && (to == SendTxt <==> IsLive(again, other))
    ensures SentAndRead(to, at, again, later, t, other, txt)
  {
  }

  /** Every screen that can follow a screen without a call can be reached with a key. */
  lemma KeysReachSuccessors(s: Screen, to: Screen)
    requires s in {LoginRegistration, LoginFail, RegistrationFail, SearchAccountsSuccess, RecvTxtFail, SendTxtFail,
                   DeleteAccountSuccess}
    ensures to in Successors(s) <==> exists choice: nat :: (choice < 3 || choice == ESCAPE) && OnKey(s, choice) == to
  {
    if to in Successors(s) {
      assert OnKey(s, 0) == to || OnKey(s, 1) == to || OnKey(s, 2) == to;
    }
  }

  /** The thread is logged in as this user. */
  ghost predicate SessionIs(d: Db, t: ThreadId, name: Str) {
    SessionOf(d, t) == {name} && t in d.threads && d.threads[t] == name
  }

  class Interface {
    const client: Client
    var next: Screen
    var statCode: nat
    var username: Str
    var password: Str
    var pattern: Str
    var correspondent: Str
    var matched: seq<Str>
    var correspondents: seq<Str>
    var currChat: Chat
    var partialTxt: Str
    /** Bookkeeping: the calls made until the login, and until the contents of the
        present screen were read. */
    ghost var login: Trace
    ghost var seen: Trace

    constructor (client: Client)
      requires client.Valid() && client.thread !in StateOf(client.Past()).threads
      ensures Valid() && fresh(this) && this.client == client && next == LoginRegistration
    {
      this.client, next, statCode, login, seen := client, LoginRegistration, CODE_OK, [], [];
      username, password, pattern, correspondent, partialTxt := [], [], [], [], [];
      matched, correspondents, currChat := [], [], [];
    }

    /** The session is exactly the user whose screens are shown, since the login
        made for them, and the screens for a search, a chat list or a deletion that
        fails are never shown. */
    ghost predicate InStep()
      reads this, client, client.server, client.server.database
    {
      && client.server.Valid() && client.incoming == [] && (client.closed ==> next == OpenChats && Lost())
      && Session() == (if PastLogin(next) then {username} else {})
      && (PastLogin(next) ==> SameSession(login, client.Past(), client.thread, username, password))
      && next !in {SearchAccountsFail, OpenChatsFail, DeleteAccountFail}
    }

    /** The reasons for which a connection is lost. */
    ghost predicate Lost()
      reads client, client.server
    {
      !client.server.up || HasBeenOversized(client.Past(), client.thread)
    }

    ghost function Session(): set<Str>
      reads this, client, client.server
    {
      SessionOf(StateOf(client.Past()), client.thread)
    }

    /** What the screen shows is what the database held at a moment since the login. */
    ghost predicate ShownIsRead()
      reads this, client, client.server
    {
      next in {SearchAccountsSuccess, OpenChatsSuccess, SendTxt} ==>
        && login <= seen <= client.Past()
        && var d := StateOf(seen);
           && SessionOf(d, client.thread) == {username}
           && match next
              case SearchAccountsSuccess => IsMatchList(d, pattern, matched)
              case OpenChatsSuccess => username in d.users
                && ChatDatabase.Lists(correspondents, d.users[username].chats.Keys)
              case _ => IsChatOf(d)
    }

    /** The chat on the screen is the user's chat with the correspondent. */
    ghost predicate IsChatOf(d: Db)
      reads this
    {
      username in d.users && correspondent in d.users && currChat == ChatWith(d.users[username], correspondent)
    }

    /** What the screens know of the strings they send. */
    ghost predicate InputsFit()
      reads this
    {
      && (next == RegistrationSuccess ==> ValidName(username) && ValidPassword(password))
      && (next == OpenChatsSuccess ==> forall c :: c in correspondents ==> |c| <= 40)
      && (next in {RecvTxt, SendTxt} ==> |correspondent| <= 40)
    }

    ghost predicate Valid()
      reads this, client, client.server, client.server.database
    {
      InStep() && ShownIsRead() && InputsFit()
    }

    /** A call may be made from a screen past login. */
    ghost predicate LoggedIn()
      reads this, client, client.server, client.server.database
    {
      client.Valid() && Session() == {username} && SameSession(login, client.Past(), client.thread, username, password)
    }

    /** The session has lasted through a call. */
    ghost predicate StillLoggedIn(s: CallStatus)
      reads this, client, client.server, client.server.database
    {
      && client.Settled(s) && s in {CallOk, ClosedConnection} && (s == ClosedConnection ==> Lost())
      && Session() == {username}
      && SameSession(login, client.Past(), client.thread, username, password)
    }

    /* The user. */

    /** One of `n` choices, or the escape key. */
    method MakeSelection(n: nat) returns (choice: nat)
      ensures choice < n || choice == ESCAPE
    {
      choice := *;
      if choice >= n { choice := ESCAPE; }
    }

    /** A typed string; input of another length is refused, so the loop ends with one
        that fits or with the escape key. */
    method GetUserString(minLen: nat, maxLen: nat) returns (hitEscape: bool, input: Str)
      ensures hitEscape || minLen <= |input| <= maxLen
    {
      hitEscape, input := *, *;
      hitEscape := hitEscape || |input| < minLen || |input| > maxLen;
    }

    /** The other connections run while the user thinks. */
    method WhileThinking()
      requires Valid()
      modifies client.server, client.server.database
      ensures Valid() && old(client.Past()) <= client.Past()
    {
      if client.server.up {
        client.server.OtherThreads(client.thread);
        OthersKeepSession(old(client.Past()), client.Past(), client.thread);
        if PastLogin(next) {
          SessionLasts(login, old(client.Past()), client.Past(), client.thread, username, password);
        }
        if client.closed { OversizedLater(old(client.Past()), client.Past(), client.thread); }
      }
    }

    /** Go to a screen past login that shows nothing read from the database. */
    method Show(s: Screen)
      requires client.server.Valid() && client.incoming == [] && (client.closed ==> s == OpenChats && Lost())
      requires Session() == {username} && SameSession(login, client.Past(), client.thread, username, password)
      requires s in {MainMenu, OpenChats, SearchAccounts, DeleteAccount, NewChat, RecvTxtFail, SendTxtFail}
          || (s == RecvTxt && |correspondent| <= 40)
      modifies this`next
      ensures Valid() && next == s
    {
      next := s;
    }

    /** Show the chat just read, or that it could not be read. */
    method ShowChat()
      requires StillLoggedIn(CallOk) && |correspondent| <= 40
      requires statCode == CODE_OK ==> ChatIsRead()
      modifies this`next
      ensures Valid() && next == if statCode == CODE_OK then SendTxt else RecvTxtFail
    {
      next := if statCode == CODE_OK then SendTxt else RecvTxtFail;
    }

    /** The chat is what the database held at a moment since the login. */
    ghost predicate ChatIsRead()
      reads this, client, client.server
    {
      login <= seen <= client.Past() && SessionOf(StateOf(seen), client.thread) == {username} && IsChatOf(StateOf(seen))
    }

    /** Show the names just found; the answer to a search is never a refusal. */
    method ShowMatches()
      requires StillLoggedIn(CallOk) && statCode == CODE_OK
      requires login <= seen <= client.Past() && SessionOf(StateOf(seen), client.thread) == {username}
      requires IsMatchList(StateOf(seen), pattern, matched)
      modifies this`next
      ensures Valid() && next == SearchAccountsSuccess
    {
      next := if statCode == CODE_OK then SearchAccountsSuccess else SearchAccountsFail;
    }

    /** Go to a screen before login. */
    method ShowBeforeLogin(s: Screen)
      requires client.Valid() && Session() == {}
      requires s in {LoginRegistration, Login, LoginFail, Registration, RegistrationFail, Exit}
          || (s == RegistrationSuccess && ValidName(username) && ValidPassword(password))
      modifies this`next
      ensures Valid() && next == s
    {
      next := s;
    }

    /* One method for each screen that calls the server. */

    /** The call of this turn has been made at `at`. */
    ghost predicate Made(at: Trace, act: Call)
      reads this, client, client.server
    {
      at + [Turn(client.thread, act)] <= client.Past()
    }

    /** The menu follows exactly a login with the password of the account. */
    method LoginTurn() returns (s: CallStatus, ghost at: Trace)
      requires Valid() && next == Login
      modifies this, client, client.server, client.server.database
      ensures s == CallOk ==> Valid() && next in Successors(Login)
      ensures s == CallOk && next == LoginRegistration ==> client.Past() == old(client.Past())
      ensures s == CallOk && next != LoginRegistration ==>
        && old(client.Past()) <= at && Made(at, CallLogin(username, password))
        && (next == MainMenu <==> HasAccount(at, username, password))
      ensures s in {CallOk, ClosedConnection} && (s == ClosedConnection ==> !client.server.up)
    {
      var hitEscape;
      hitEscape, username := GetUserString(4, 40);
      if !hitEscape { hitEscape, password := GetUserString(4, 60); }
      if hitEscape {
        ShowBeforeLogin(LoginRegistration);
        return CallOk, [];
      }
      s, at := LogIn();
    }

    /** The login call, made from the login screen and after a registration. */
    method LogIn() returns (s: CallStatus, ghost at: Trace)
      requires client.Valid() && |username| <= 40 && |password| <= 60
      modifies this, client, client.server, client.server.database
      ensures s == CallOk ==> Valid() && next in {MainMenu, LoginFail}
      ensures s == CallOk ==>
        && old(client.Past()) <= at && Made(at, CallLogin(username, password))
        && (next == MainMenu <==> HasAccount(at, username, password))
      ensures s == if client.server.up then CallOk else ClosedConnection
    {
      s, statCode, at := client.Login(username, password, statCode);
      if s != CallOk { return; }
      LoginStarts(at, client.Past(), client.thread, username, password);
      LoginIsMade(at, client.Past(), client.thread, username, password);
      login := at + [Turn(client.thread, CallLogin(username, password))];
      if statCode == CODE_OK { Show(MainMenu); } else { ShowBeforeLogin(LoginFail); }
    }

    /** A name typed for registration holds neither a star nor a space.  Success is
        shown exactly if nobody has asked for the name before. */
    method RegistrationTurn() returns (s: CallStatus, ghost at: Trace)
      requires Valid() && next == Registration
      modifies this, client, client.server, client.server.database
      ensures s == CallOk ==> Valid() && next in Successors(Registration)
      ensures s in {CallOk, ClosedConnection} && (s == ClosedConnection ==> !client.server.up)
      ensures s == CallOk && next == RegistrationFail ==> statCode == CODE_USER_EXISTS
      ensures s == CallOk && next == LoginRegistration ==> client.Past() == old(client.Past())
      ensures s == CallOk && next != LoginRegistration ==>
        && old(client.Past()) <= at && Made(at, CallRegister(username, password))
        && (next == RegistrationSuccess <==> !Asked(at, username))
    {
      var hitEscape;
      hitEscape, username := GetUserString(4, 40);
      if STAR in username || SPACE in username { hitEscape := true; }
      if !hitEscape { hitEscape, password := GetUserString(4, 60); }
      s, at := CallOk, [];
      if hitEscape {
        ShowBeforeLogin(LoginRegistration);
      } else {
        s, at := Register();
        if s == CallOk { ShowBeforeLogin(if statCode == CODE_OK then RegistrationSuccess else RegistrationFail); }
      }
    }

    /** The registration call; typed names and passwords are refused only as used. */
    method Register() returns (s: CallStatus, ghost at: Trace)
      requires client.Valid() && ValidName(username) && ValidPassword(password)
      modifies this`statCode, client, client.server, client.server.database
      ensures client.Settled(s) && s == if client.server.up then CallOk else ClosedConnection
      ensures s == CallOk ==> old(client.Past()) <= at && Made(at, CallRegister(username, password))
      ensures s == CallOk ==> statCode == if Asked(at, username) then CODE_USER_EXISTS else CODE_OK
      ensures Session() == old(Session())
    {
      ghost var past := client.Past();
      s, statCode, at := client.Registration(username, password, statCode);
      OthersKeepSession(past, at, client.thread);
      RegistrationKeepsSession(at, client.Past(), client.thread, username, password);
      if s == CallOk { RegistrationIsMade(at, client.Past(), client.thread, username, password); }
    }

    /** A logout that is answered is never refused, so the menu is always left. */
    method MainMenuTurn() returns (s: CallStatus, choice: nat, ghost at: Trace)
      requires Valid() && next == MainMenu
      modifies this, client, client.server, client.server.database
      ensures s == CallOk ==> Valid() && next in Successors(MainMenu)
      ensures s == CallOk ==>
        next == if choice == 0 then OpenChats else if choice == 1 then SearchAccounts
                else if choice == 2 then DeleteAccount else LoginRegistration
      ensures s == CallOk && next != LoginRegistration ==> client.Past() == old(client.Past())
      ensures s == CallOk && next == LoginRegistration ==> old(client.Past()) <= at && Made(at, CallLogout)
      ensures s in {CallOk, ClosedConnection} && (s == ClosedConnection ==> !client.server.up)
    {
      s, at := CallOk, [];
      choice := MakeSelection(4);
      if choice == 0 { Show(OpenChats); }
      else if choice == 1 { Show(SearchAccounts); }
      else if choice == 2 { Show(DeleteAccount); }
      else { s, at := LogOut(); }
    }

    method LogOut() returns (s: CallStatus, ghost at: Trace)
      requires LoggedIn() && next == MainMenu
      modifies this, client, client.server, client.server.database
      ensures s == CallOk ==> Valid() && next == LoginRegistration
      ensures s == CallOk ==> old(client.Past()) <= at && Made(at, CallLogout)
      ensures s == if client.server.up then CallOk else ClosedConnection
    {
      ghost var past := client.Past();
      s, statCode, at := client.Logout(statCode);
      SessionLasts(login, past, at, client.thread, username, password);
      if s != CallOk { return; }
      SurvivedBefore(at, client.Past());
      LogoutIsAnswered(at, client.Past(), client.thread, username);
      if statCode == CODE_OK { next := LoginRegistration; }
    }

    method OpenChatsTurn() returns (s: CallStatus)
      requires Valid() && next == OpenChats
      modifies this, client, client.server, client.server.database
      ensures s == CallOk ==> Valid() && next == OpenChatsSuccess
      ensures s == CallOk ==> old(client.Past()) <= seen
      ensures s in {CallOk, ClosedConnection} && (s == ClosedConnection ==> Lost())
    {
      if client.closed { return ClosedConnection; }
      s := FetchCorrespondents();
      if s != CallOk { return; }
      next := if statCode == CODE_OK then OpenChatsSuccess else OpenChatsFail;
    }

    /** The call for the chat list; a logged-in user is never refused. */
    method FetchCorrespondents() returns (s: CallStatus)
      requires LoggedIn()
      modifies this`statCode, this`correspondents, this`seen, client, client.server, client.server.database
      ensures StillLoggedIn(s)
      ensures s == CallOk ==> statCode == CODE_OK && old(client.Past()) <= seen <= client.Past()
      ensures s == CallOk ==>
        var d := StateOf(seen);
        && SessionOf(d, client.thread) == {username} && username in d.users
        && ChatDatabase.Lists(correspondents, d.users[username].chats.Keys)
      ensures s == CallOk ==> forall c :: c in correspondents ==> |c| <= 40
    {
      ghost var at;
      ghost var past := client.Past();
      s, statCode, correspondents, at := client.RecvCorrespondents(statCode, correspondents);
      SessionLasts(login, past, at, client.thread, username, password);
      CallKeepsSession(login, at, client.Past(), client.thread, username, password, CallCorrespondents);
      seen := at;
      if s != CallOk {
        if client.server.up { OversizedLater(at, client.Past(), client.thread); }
      } else {
        CorrespondentsAreNames(at, client.Past(), username, correspondents);
      }
    }

    method OpenChatsSuccessTurn() returns (choice: nat)
      requires Valid() && next == OpenChatsSuccess
      modifies this`next, this`correspondent
      ensures Valid() && next in Successors(OpenChatsSuccess)
      ensures next == if choice == 0 then NewChat else if choice == 1 || choice == ESCAPE then MainMenu else RecvTxt
      ensures if next == RecvTxt then choice - 2 < |correspondents| && correspondent == correspondents[choice - 2]
              else correspondent == old(correspondent)
    {
      choice := MakeSelection(|correspondents| + 2);
      var to := if choice == 0 then NewChat else if choice == 1 || choice == ESCAPE then MainMenu else RecvTxt;
      if to == RecvTxt { correspondent := correspondents[choice - 2]; }
      Show(to);
    }

    /** Ask for the chat on the screen.  What is shown then was read during the call. */
    method FetchChat() returns (s: CallStatus, ghost at: Trace)
      requires LoggedIn() && |correspondent| <= 40
      modifies this`statCode, this`currChat, this`seen, client, client.server, client.server.database
      ensures StillLoggedIn(s) && old(client.Past()) <= client.Past()
      ensures s == CallOk && statCode == CODE_OK ==>
        old(client.Past()) <= seen && ChatIsRead()
      ensures s != CallOk || statCode != CODE_OK ==> currChat == old(currChat) && seen == old(seen)
      ensures s == CallOk ==> old(client.Past()) <= at && Made(at, CallRecv(correspondent))
      ensures s == CallOk ==> (statCode == CODE_OK <==> IsLive(at, correspondent))
      ensures OnlyReads(old(client.Past()), client.Past(), client.thread)
    {
      ghost var past := client.Past();
      s, at := CallForChat();
      ReadInSession(login, past, at, client.Past(), client.thread, username, password, correspondent);
      if s != CallOk {
        if client.server.up { OversizedLater(at, client.Past(), client.thread); }
        return;
      }
      if statCode == CODE_OK {
        seen := at;
        PrefixesAreOrdered(login, past, seen);
      }
    }

    method CallForChat() returns (s: CallStatus, ghost at: Trace)
      requires client.Valid() && |correspondent| <= 40
      modifies this`statCode, this`currChat, client, client.server, client.server.database
      ensures client.Settled(s) && s in {CallOk, ClosedConnection} && (s == CallOk ==> client.server.up)
      ensures s != CallOk && client.server.up ==> Oversized(StateOf(at), client.thread)
      ensures OthersOnly(old(client.Past()), at, client.thread) && client.TookInSession(at, CallRecv(correspondent))
      ensures s == CallOk ==>
        statCode == if client.thread !in StateOf(at).threads then CODE_UNAUTHORIZED
                    else if ChatDb.RecvTxt(StateOf(at), client.thread, correspondent).0 == Ok
                      then CODE_OK else CODE_USER_NOEXIST
      ensures currChat ==
        if s == CallOk && statCode == CODE_OK
          then ChatDb.RecvTxt(StateOf(at), client.thread, correspondent).1 else old(currChat)
    {
      s, statCode, currChat, at := client.RecvTxt(correspondent, statCode, currChat);
    }

    /** The chat is shown exactly if its correspondent is live. */
    method RecvTxtTurn() returns (s: CallStatus, ghost at: Trace)
      requires Valid() && next == RecvTxt
      modifies this, client, client.server, client.server.database
      ensures s == CallOk ==> Valid() && next in Successors(RecvTxt)
      ensures s == CallOk && next == SendTxt ==> old(client.Past()) <= seen
      ensures s == CallOk ==>
        && old(client.Past()) <= at && Made(at, CallRecv(correspondent))
        && (next == SendTxt <==> IsLive(at, correspondent))
      ensures s in {CallOk, ClosedConnection} && (s == ClosedConnection ==> Lost())
    {
      s, at := ReadChat();
    }

    /** The call for the chat and the screen that shows its answer. */
    method ReadChat() returns (s: CallStatus, ghost at: Trace)
      requires LoggedIn() && |correspondent| <= 40
      modifies this`next, this`statCode, this`currChat, this`seen, client, client.server, client.server.database
      ensures s == CallOk ==> Valid() && next in {SendTxt, RecvTxtFail}
      ensures s == CallOk && next == SendTxt ==> old(client.Past()) <= seen
      ensures s == CallOk ==>
        && old(client.Past()) <= at && Made(at, CallRecv(correspondent))
        && (next == SendTxt <==> IsLive(at, correspondent))
      ensures s in {CallOk, ClosedConnection} && (s == ClosedConnection ==> Lost())
    {
      s, at := FetchChat();
      if s == CallOk { ShowChat(); }
    }

    /** The background listener: any number of requests for the chat, whose outcome
        it ignores.  It changes no session, and the chat shown stays one that was
        read from the database since the login. */
    method BackgroundListener()
      requires Valid() && next == SendTxt
      modifies this`statCode, this`currChat, this`seen, client, client.server, client.server.database
      ensures client.server.Valid() && client.incoming == [] && ShownIsRead() && (client.closed ==> Lost())
      ensures old(seen) <= seen && old(client.Past()) <= client.Past()
      ensures Session() == {username} && SameSession(login, client.Past(), client.thread, username, password)
      ensures OnlyReads(old(client.Past()), client.Past(), client.thread)
    {
      var more: nat := *;
      while more > 0 && !client.closed
        invariant client.server.Valid() && client.incoming == [] && ShownIsRead() && (client.closed ==> Lost())
        invariant old(seen) <= seen && old(client.Past()) <= client.Past()
        invariant Session() == {username} && SameSession(login, client.Past(), client.thread, username, password)
        invariant OnlyReads(old(client.Past()), client.Past(), client.thread)
        decreases more
      {
        var _, _ := FetchChat();
        more := more - 1;
      }
    }

    /** The text has been sent unless the user has escaped; it is refused exactly if
        the correspondent is not live then, and the chat is not shown again exactly if
        the correspondent is not live after that. */
    method SendTxtTurn() returns (s: CallStatus, ghost at: Trace, ghost again: Trace)
      requires Valid() && next == SendTxt
      modifies this, client, client.server, client.server.database
      ensures s == CallOk ==> Valid() && next in Successors(SendTxt)
      ensures s == CallOk && next == OpenChats ==> OnlyReads(old(client.Past()), client.Past(), client.thread)
      ensures s == CallOk && next != OpenChats ==>
        && old(client.Past()) <= at
        && SentAndRead(next, at, again, client.Past(), client.thread, correspondent, partialTxt)
      ensures s == CallOk && next == SendTxt ==> old(client.Past()) <= seen && ChatDb.Text(YOU, partialTxt) in currChat
      ensures s in {CallOk, ClosedConnection} && (s == ClosedConnection ==> Lost())
    {
      at, again := [], [];
      BackgroundListener();
      var hitEscape;
      hitEscape, partialTxt := GetUserString(0, WORD - 64);
      s := if hitEscape then CallOk else ClosedConnection;
      if hitEscape { Show(OpenChats); }
      else if !client.closed { s, at, again := SendAndRefresh(); }
    }

    /** Send the typed text and receive the updated chat, which then holds it. */
    method SendAndRefresh() returns (s: CallStatus, ghost at: Trace, ghost again: Trace)
      requires LoggedIn() && next == SendTxt && |correspondent| <= 40 && |partialTxt| <= WORD - 64
      modifies this`next, this`statCode, this`currChat, this`seen, client, client.server, client.server.database
      ensures s == CallOk ==> Valid() && next in {SendTxt, SendTxtFail, RecvTxtFail}
      ensures s == CallOk ==>
        && old(client.Past()) <= at
        && SentAndRead(next, at, again, client.Past(), client.thread, correspondent, partialTxt)
      ensures s == CallOk && next == SendTxt ==> old(client.Past()) <= seen && ChatDb.Text(YOU, partialTxt) in currChat
      ensures s in {CallOk, ClosedConnection} && (s == ClosedConnection ==> Lost())
    {
      again := [];
      s, at := SendTyped();
      if s == CallOk {
        if statCode == CODE_OK { s, again := Refresh(at); } else { Refuse(at); }
      }
    }

    /** Say that the text has been refused. */
    method Refuse(ghost at: Trace)
      requires StillLoggedIn(CallOk)
      requires Made(at, CallSend(correspondent, partialTxt)) && !IsLive(at, correspondent)
      modifies this`next
      ensures Valid() && next == SendTxtFail
      ensures SentAndRead(next, at, [], client.Past(), client.thread, correspondent, partialTxt)
    {
      Show(SendTxtFail);
    }

    /** Receive the chat after the text has been sent. */
    method Refresh(ghost at: Trace) returns (s: CallStatus, ghost again: Trace)
      requires LoggedIn() && |correspondent| <= 40
      requires Made(at, CallSend(correspondent, partialTxt)) && IsLive(at, correspondent)
      requires SessionIs(StateOf(at), client.thread, username)
      requires ChatDb.SendTxt(StateOf(at), client.thread, correspondent, partialTxt).1 == Ok
      modifies this`next, this`statCode, this`currChat, this`seen, client, client.server, client.server.database
      ensures s == CallOk ==> Valid() && next in {SendTxt, RecvTxtFail}
      ensures s == CallOk ==> SentAndRead(next, at, again, client.Past(), client.thread, correspondent, partialTxt)
      ensures s == CallOk && next == SendTxt ==> old(client.Past()) <= seen && ChatDb.Text(YOU, partialTxt) in currChat
      ensures s in {CallOk, ClosedConnection} && (s == ClosedConnection ==> Lost())
    {
      ghost var now, t := client.Past(), client.thread;
      s, again := ReadChat();
      if s == CallOk {
        ReadAgain(next, at, now, again, client.Past(), t, correspondent, partialTxt);
        if next == SendTxt { SentIsRead(at, now, seen, t, username, correspondent, partialTxt); }
      }
    }

    /** Send the typed text; it is refused only if the correspondent is not live. */
    method SendTyped() returns (s: CallStatus, ghost at: Trace)
      requires LoggedIn() && |correspondent| <= 40 && |partialTxt| <= WORD - 64
      modifies this`statCode, client, client.server, client.server.database
      ensures StillLoggedIn(s) && old(client.Past()) <= at <= client.Past()
      ensures s == CallOk ==> at + [Turn(client.thread, CallSend(correspondent, partialTxt))] <= client.Past()
      ensures s == CallOk ==> SessionIs(StateOf(at), client.thread, username)
      ensures s == CallOk ==> statCode == if IsLive(at, correspondent) then CODE_OK else CODE_USER_NOEXIST
      ensures s == CallOk && statCode == CODE_OK ==>
        ChatDb.SendTxt(StateOf(at), client.thread, correspondent, partialTxt).1 == Ok
    {
      ghost var past := client.Past();
      s, statCode, at := client.SendTxt(correspondent, partialTxt, statCode);
      SessionLasts(login, past, at, client.thread, username, password);
      CallKeepsSession(login, at, client.Past(), client.thread, username, password,
        CallSend(correspondent, partialTxt));
      if s == CallOk {
        SendingFinds(at, client.Past(), client.thread, username, correspondent, partialTxt);
        CallIsMade(at, client.Past(), client.thread, username, CallSend(correspondent, partialTxt), correspondent);
      }
    }

    /** The search call; a logged-in user is never refused. */
    method FetchMatches() returns (s: CallStatus)
      requires LoggedIn() && |pattern| <= 40
      modifies this`statCode, this`matched, this`seen, client, client.server, client.server.database
      ensures StillLoggedIn(s) && old(client.Past()) <= seen <= client.Past()
      ensures SessionOf(StateOf(seen), client.thread) == {username}
      ensures s == CallOk ==> statCode == CODE_OK && IsMatchList(StateOf(seen), pattern, matched)
    {
      ghost var at;
      ghost var past := client.Past();
      s, statCode, matched, at := client.ListAccounts(pattern, statCode, matched);
      SessionLasts(login, past, at, client.thread, username, password);
      SessionLasts(login, at, client.Past(), client.thread, username, password);
      if s != CallOk && client.server.up { OversizedLater(at, client.Past(), client.thread); }
      seen := at;
    }

    method SearchAccountsTurn() returns (s: CallStatus)
      requires Valid() && next == SearchAccounts
      modifies this, client, client.server, client.server.database
      ensures s == CallOk ==> Valid() && next in Successors(SearchAccounts)
      ensures s == CallOk && next == SearchAccountsSuccess ==> old(client.Past()) <= seen
      ensures s == CallOk && next == MainMenu ==> client.Past() == old(client.Past())
      ensures s in {CallOk, ClosedConnection} && (s == ClosedConnection ==> Lost())
    {
      var hitEscape;
      hitEscape, pattern := GetUserString(1, 40);
      if hitEscape {
        Show(MainMenu);
        return CallOk;
      }
      s := Search();
    }

    method Search() returns (s: CallStatus)
      requires LoggedIn() && |pattern| <= 40
      modifies this`next, this`statCode, this`matched, this`seen, client, client.server, client.server.database
      ensures s == CallOk ==> Valid() && next == SearchAccountsSuccess && old(client.Past()) <= seen
      ensures s in {CallOk, ClosedConnection} && (s == ClosedConnection ==> Lost())
    {
      s := FetchMatches();
      if s == CallOk { ShowMatches(); }
    }

    method DeleteAccountTurn() returns (s: CallStatus, choice: nat)
      requires Valid() && next == DeleteAccount
      modifies this, client, client.server, client.server.database
      ensures s == CallOk ==> Valid() && next in Successors(DeleteAccount)
      ensures s == CallOk && next == DeleteAccountSuccess ==> username !in StateOf(client.Past()).users
      ensures next == MainMenu ==> client.Past() == old(client.Past())
      ensures s == CallOk ==> next == if choice == 1 then DeleteAccountSuccess else MainMenu
      ensures s in {CallOk, ClosedConnection} && (s == ClosedConnection ==> !client.server.up)
    {
      s := CallOk;
      choice := MakeSelection(2);
      if choice == 1 { s := Delete(); } else { Show(MainMenu); }
    }

    /** The deletion call; a logged-in user is never refused. */
    method Delete() returns (s: CallStatus)
      requires LoggedIn() && next == DeleteAccount
      modifies this, client, client.server, client.server.database
      ensures s == CallOk ==> Valid() && next == DeleteAccountSuccess && username !in StateOf(client.Past()).users
      ensures s == (if client.server.up then CallOk else ClosedConnection) && next != MainMenu
    {
      ghost var at;
      ghost var past := client.Past();
      s, statCode, at := client.DeleteAccount(statCode);
      SessionLasts(login, past, at, client.thread, username, password);
      if s != CallOk { return; }
      SurvivedBefore(at, client.Past());
      DeletionEndsSession(at, client.Past(), client.thread, username);
      next := if statCode == CODE_OK then DeleteAccountSuccess else DeleteAccountFail;
    }

    /** The screens that only wait for a key. */
    method KeyTurn() returns (choice: nat)
      requires Valid()
      requires next in {LoginRegistration, LoginFail, RegistrationFail, SearchAccountsSuccess, RecvTxtFail,
          SendTxtFail, DeleteAccountSuccess}
      modifies this`next
      ensures Valid() && next in Successors(old(next)) && next == OnKey(old(next), choice)
    {
      choice := MakeSelection(3);
      var to := OnKey(next, choice);
      if next in {SearchAccountsSuccess, RecvTxtFail, SendTxtFail} { Show(to); } else { ShowBeforeLogin(to); }
    }

    method NewChatTurn()
      requires Valid() && next == NewChat
      modifies this
      ensures Valid() && next in Successors(NewChat)
    {
      var hitEscape;
      hitEscape, correspondent := GetUserString(4, 40);
      next := if hitEscape then OpenChats else RecvTxt;
    }

    /** One turn of the switch, from a screen before login or after it. */
    method TakeTurn() returns (s: CallStatus)
      requires Valid() && next != Exit
      modifies this, client, client.server, client.server.database
      ensures s == CallOk ==> Valid() && next in Successors(old(next))
      ensures s in {CallOk, ClosedConnection} && (s == ClosedConnection ==> Lost())
    {
      s := CallOk;
      ghost var at;
      if next == Login { s, at := LoginTurn(); }
      else if next == Registration { s, at := RegistrationTurn(); }
      else if next == RegistrationSuccess { s, at := LogIn(); }
      else if next in {MainMenu, OpenChats, OpenChatsSuccess, NewChat, RecvTxt, SendTxt, SearchAccounts, DeleteAccount}
      {
        s := TurnPastLogin();
      }
      else { var _ := KeyTurn(); }
    }

    method TurnPastLogin() returns (s: CallStatus)
      requires Valid()
      requires next in {MainMenu, OpenChats, OpenChatsSuccess, NewChat, RecvTxt, SendTxt, SearchAccounts, DeleteAccount}
      modifies this, client, client.server, client.server.database
      ensures s == CallOk ==> Valid() && next in Successors(old(next))
      ensures s in {CallOk, ClosedConnection} && (s == ClosedConnection ==> Lost())
    {
      s := CallOk;
      ghost var at, again;
      var choice;
      if next == MainMenu { s, choice, at := MainMenuTurn(); }
      else if next == OpenChats { s := OpenChatsTurn(); }
      else if next == OpenChatsSuccess { choice := OpenChatsSuccessTurn(); }
      else if next == NewChat { NewChatTurn(); }
      else if next == RecvTxt { s, at := RecvTxtTurn(); }
      else if next == SendTxt { s, at, again := SendTxtTurn(); }
      else if next == SearchAccounts { s := SearchAccountsTurn(); }
      else { s, choice := DeleteAccountTurn(); }
    }

    /** Any number of turns of `start`, with the other connections at work while the
        user thinks: the screen, the session and the database stay in step until the
        program exits or finds the connection closed. */
    method Start() returns (s: CallStatus)
      requires Valid() && next == LoginRegistration
      modifies this, client, client.server, client.server.database
      ensures s in {CallOk, ClosedConnection} && (s == ClosedConnection ==> Lost())
      ensures s == CallOk ==> InStep() && ShownIsRead()
    {
      s := CallOk;
      var turns: nat := *;
      while turns > 0 && next != Exit && s == CallOk
        invariant s in {CallOk, ClosedConnection} && (s == ClosedConnection ==> Lost()) && (s == CallOk ==> Valid())
      {
        WhileThinking();
        s := TakeTurn();
        turns := turns - 1;
      }
    }
  }
}
