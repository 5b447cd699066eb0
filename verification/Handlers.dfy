/** The request handlers and the connection loop of server.cc, over the database
    and the codec.  Between any two database calls of a handler the threads of
    other connections may run, and any of them may end the process. */
module Handlers {
  import opened Bytes
  import opened Glob
  import opened ChatDb
  import opened ChatLaws
  import opened Wire
  import opened WireCode
  import opened ChatDatabase

  /** The registration handler's rules. */
  predicate ValidName(u: Str) { 4 <= |u| <= 40 && STAR !in u && SPACE !in u }

  predicate ValidPassword(p: Str) { 4 <= |p| <= 60 }

  /** A call that a handler can make. */
  predicate Admissible(call: Call) {
    call.CallRegister? ==> ValidName(call.name) && ValidPassword(call.password)
  }

  ghost predicate AllAdmissible(trace: Trace) {
    forall i :: 0 <= i < |trace| ==> Admissible(trace[i].call)
  }

  /** A call that another connection's handler can make. */
  predicate Foreign(turn: Turn, t: ThreadId) { turn.thread != t && Admissible(turn.call) }

  /** Between the two moments only other connections have made calls. */
  ghost predicate OthersOnly(trace: Trace, later: Trace, t: ThreadId) {
    trace <= later && forall i :: |trace| <= i < |later| ==> Foreign(later[i], t)
  }

  ghost predicate NamesValid(d: Db) {
    forall u :: u in d.users ==> ValidName(u)
  }

  lemma {:induction false} NamesAreValid(trace: Trace)
    requires AllAdmissible(trace)
    ensures NamesValid(StateOf(trace))
  {
    if trace != [] {
      var front, last := trace[..|trace| - 1], trace[|trace| - 1];
      NamesAreValid(front);
      assert Admissible(last.call);
      CallsKeepNames(StateOf(front), last.thread, last.call);
    }
  }

  lemma CallsKeepNames(d: Db, t: ThreadId, call: Call)
    requires NamesValid(d) && Admissible(call)
    ensures NamesValid(Do(d, t, call).0)
  {
  }

  /** Every account obeys the rules of the registration handler. */
  lemma AccountsObeyRules(trace: Trace, name: Str, password: Str)
    requires Survived(trace) && AllAdmissible(trace) && Holds(StateOf(trace), name, password)
    ensures 4 <= |name| <= 40 && STAR !in name && SPACE !in name && 4 <= |password| <= 60
  {
    DatabaseAgrees(trace);
    var i: nat :| RegisteredAt(trace, i, name, password) && AccountKept(trace, i + 1, name);
    assert Admissible(trace[i].call);
  }

  /** The user a thread is logged in as, if any. */
  function SessionOf(d: Db, t: ThreadId): set<Str> {
    if t in d.threads then {d.threads[t]} else {}
  }

  /** Whatever the other connections do, this thread's session stays as it is. */
  lemma {:induction false} OthersKeepSession(trace: Trace, later: Trace, t: ThreadId)
    requires OthersOnly(trace, later, t)
    ensures SessionOf(StateOf(later), t) == SessionOf(StateOf(trace), t)
    ensures t in StateOf(later).threads <==> t in StateOf(trace).threads
    ensures t in StateOf(later).threads ==> StateOf(later).threads[t] == StateOf(trace).threads[t]
    decreases |later|
  {
    if trace != later {
      var front, last := later[..|later| - 1], later[|later| - 1];
      OthersKeepSession(trace, front, t);
      SessionsAreOwn(StateOf(front), last.thread, t, last.call);
    }
  }

  /** Besides the others' calls, the thread has logged out if it was logged in. */
  ghost predicate SessionEnded(trace: Trace, later: Trace, t: ThreadId) {
    if t !in StateOf(trace).threads then OthersOnly(trace, later, t)
    else
      exists k :: |trace| <= k < |later| && later[k] == Turn(t, CallLogout)
               && OthersOnly(trace, later[..k], t) && OthersOnly(later[..k + 1], later, t)
  }

  lemma EndedSessionIsGone(trace: Trace, later: Trace, t: ThreadId)
    requires SessionEnded(trace, later, t)
    ensures t !in StateOf(later).threads
  {
    if t !in StateOf(trace).threads {
      OthersKeepSession(trace, later, t);
    } else {
      var k :| |trace| <= k < |later| && later[k] == Turn(t, CallLogout)
            && OthersOnly(trace, later[..k], t) && OthersOnly(later[..k + 1], later, t);
      StateAfterTurn(later, k);
      OthersKeepSession(later[..k + 1], later, t);
    }
  }

  lemma LogoutEndsSession(trace: Trace, middle: Trace, later: Trace, t: ThreadId)
    requires t in StateOf(trace).threads && OthersOnly(trace, middle, t)
    requires OthersOnly(middle + [Turn(t, CallLogout)], later, t)
    ensures SessionEnded(trace, later, t)
  {
    var k := |middle|;
    assert (middle + [Turn(t, CallLogout)])[k] == later[k];
    assert later[..k] == middle && later[..k + 1] == middle + [Turn(t, CallLogout)];
  }

  lemma SessionEndedLater(trace: Trace, middle: Trace, later: Trace, t: ThreadId)
    requires OthersOnly(trace, middle, t) && SessionEnded(middle, later, t)
    ensures SessionEnded(trace, later, t)
  {
    OthersKeepSession(trace, middle, t);
    if t in StateOf(trace).threads {
      var k :| |middle| <= k < |later| && later[k] == Turn(t, CallLogout)
            && OthersOnly(middle, later[..k], t) && OthersOnly(later[..k + 1], later, t);
      assert OthersOnly(trace, later[..k], t);
    }
  }

  /** What leaves a handler: a message, a rejected body, a reply whose length does
      not fit 32 bits (outside the model), or nothing, because the process has
      ended. */
  datatype Outcome = Reply(bytes: Str) | BadBody | TooLong | Died

  function Coded(kind: nat, code: nat): Outcome { Reply(Frame(kind, PutU32(code))) }

  /** The live names that match a pattern, in order. */
  ghost predicate IsMatchList(d: Db, pattern: Str, names: seq<Str>) {
    Increasing(names) && forall u :: u in names <==> u in d.users && Matches(pattern, u)
  }

  /** A search answer is exact because registered names hold no star. */
  lemma SearchIsExact(d: Db, pattern: Str, names: seq<Str>)
    requires NamesValid(d) && IsSearchResult(d, pattern, names)
    ensures IsMatchList(d, pattern, names)
  {
    forall u | u in d.users ensures Wildcard(pattern, u) <==> Matches(pattern, u) {
      WildcardIsRight(pattern, u);
    }
  }

  /** Such a list holds, each once and in the order of their bytes, exactly the names
      with an account that match. */
  lemma MatchListsAreExact(trace: Trace, pattern: Str, names: seq<Str>)
    requires Survived(trace) && IsMatchList(StateOf(trace), pattern, names)
    ensures forall name :: name in names <==> IsLive(trace, name) && Matches(pattern, name)
    ensures forall i, j :: 0 <= i < j < |names| ==>
      names[i] != names[j] && exists k: nat :: DiffersAt(names[i], names[j], k)
  {
    DatabaseAgrees(trace);
    forall name ensures name in names <==> IsLive(trace, name) && Matches(pattern, name) {
      Found(StateOf(trace), trace, name);
    }
    forall i, j | 0 <= i < j < |names|
      ensures names[i] != names[j] && exists k: nat :: DiffersAt(names[i], names[j], k)
    {
      IncreasingIsByteOrder(names, i, j);
    }
  }

  /* What each handler does.  `before` and `after` are the calls made until it
     starts and ends, `at` those made until it acts; in between the others may run.
     When a lookup of another connection fails in the meantime there is no answer. */

  ghost predicate RegistrationAnswer(before: Trace, t: ThreadId, body: Str, o: Outcome, at: Trace, after: Trace) {
    && at == before
    && match DecodePair(body)
       case Value((u, p)) =>
         var d := StateOf(at);
         && o == Coded(REGISTRATION_RESPONSE,
              if !ValidName(u) then CODE_USERNAME_INVALID
              else if !ValidPassword(p) then CODE_PASSWORD_INVALID
              else if u in d.users || u in d.historical then CODE_USER_EXISTS else CODE_OK)
         && after == if ValidName(u) && ValidPassword(p) then at + [Turn(t, CallRegister(u, p))] else at
       case _ => o == BadBody && after == at
  }

  /** The credentials are refused only if the name is not live or the password is
      wrong at the moment of the login; the thread's earlier session is gone. */
  ghost predicate LoginAnswer(before: Trace, t: ThreadId, body: Str, o: Outcome, at: Trace, after: Trace) {
    match DecodePair(body)
    case Value((u, p)) =>
      if !Survived(at) then o == Died && after == at && (OthersOnly(before, at, t) || SessionEnded(before, at, t))
      else
        var d := StateOf(at);
        && SessionEnded(before, at, t) && after == at + [Turn(t, CallLogin(u, p))]
        && o == Coded(LOGIN_RESPONSE,
                      if u in d.users && d.users[u].password == p then CODE_OK else CODE_INVALID_CREDENTIALS)
    case _ => o == BadBody && at == before && after == at
  }

  /** An answer of a handler that first asks whether the thread is logged in:
      either a refusal, or the call `act` is made and `answered` says what leaves. */
  ghost predicate SessionAnswer(before: Trace, t: ThreadId, kind: nat, o: Outcome, at: Trace, act: seq<Call>,
                                answered: bool, after: Trace)
    requires |act| <= 1
  {
    && OthersOnly(before, at, t)
    && if !Survived(at) then o == Died && after == at
       else if t !in StateOf(at).threads then o == Coded(kind, CODE_UNAUTHORIZED) && after == at
       else answered && after == at + if act == [] then [] else [Turn(t, act[0])]
  }

  ghost predicate LogoutAnswer(before: Trace, t: ThreadId, body: Str, o: Outcome, at: Trace, after: Trace) {
    if body == [] then
      SessionAnswer(before, t, LOGOUT_RESPONSE, o, at, [CallLogout], o == Coded(LOGOUT_RESPONSE, CODE_OK), after)
    else o == BadBody && at == before && after == at
  }

  /** The search answer lists, in order and once each, the live names that match
      the pattern; the name rules make the matcher exact on all of them. */
  ghost predicate AccountsAnswer(before: Trace, t: ThreadId, body: Str, o: Outcome, at: Trace, names: seq<Str>,
                                 after: Trace) {
    match DecodeSingle(body)
    case Value(pattern) =>
      SessionAnswer(before, t, ACCOUNTS_RESPONSE, o, at, [],
        IsMatchList(StateOf(at), pattern, names) && o == ListReply(ACCOUNTS_RESPONSE, names), after)
    case _ => o == BadBody && at == before && after == at
  }

  /** The text is refused only if its recipient is not live at the moment of sending. */
  ghost predicate SendTxtAnswer(before: Trace, t: ThreadId, body: Str, o: Outcome, at: Trace, after: Trace) {
    match DecodePair(body)
    case Value((recipient, txt)) =>
      var d := StateOf(at);
      SessionAnswer(before, t, SEND_TXT_RESPONSE, o, at, [CallSend(recipient, txt)],
        o == if Stale(d, t) then Died
             else Coded(SEND_TXT_RESPONSE, if recipient in d.users then CODE_OK else CODE_USER_NOEXIST), after)
    case _ => o == BadBody && at == before && after == at
  }

  ghost predicate RecvTxtAnswer(before: Trace, t: ThreadId, body: Str, o: Outcome, at: Trace, after: Trace) {
    match DecodeSingle(body)
    case Value(sender) =>
      var d := StateOf(at);
      SessionAnswer(before, t, RECV_TXT_RESPONSE, o, at, [CallRecv(sender)],
        o == if Stale(d, t) then Died
             else if sender !in d.users then Coded(RECV_TXT_RESPONSE, CODE_USER_NOEXIST)
             else ChatReply(RecvTxt(d, t, sender).1), after)
    case _ => o == BadBody && at == before && after == at
  }

  ghost predicate CorrespondentsAnswer(before: Trace, t: ThreadId, body: Str, o: Outcome, at: Trace, names: seq<Str>,
                                       after: Trace) {
    if body == [] then
      var d := StateOf(at);
      SessionAnswer(before, t, CORRESPONDENTS_RESPONSE, o, at, [CallCorrespondents],
        if Stale(d, t) then o == Died
        else Lists(names, Correspondents(d, t).1) && o == ListReply(CORRESPONDENTS_RESPONSE, names), after)
    else o == BadBody && at == before && after == at
  }

  /** There is no answer for an account that has a chat with itself. */
  ghost predicate DeleteAnswer(before: Trace, t: ThreadId, body: Str, o: Outcome, at: Trace, after: Trace) {
    if body == [] then
      SessionAnswer(before, t, DELETE_RESPONSE, o, at, [CallDelete],
        o == if Stale(StateOf(at), t) || ChatsWithSelf(StateOf(at), t)
             then Died else Coded(DELETE_RESPONSE, CODE_OK), after)
    else o == BadBody && at == before && after == at
  }

  /** The dispatch of a request by its type. */
  ghost predicate Served(before: Trace, t: ThreadId, kind: nat, body: Str, o: Outcome, at: Trace, names: seq<Str>,
                         after: Trace) {
    if kind == REGISTRATION_REQUEST then RegistrationAnswer(before, t, body, o, at, after)
    else if kind == LOGIN_REQUEST then LoginAnswer(before, t, body, o, at, after)
    else if kind == LOGOUT_REQUEST then LogoutAnswer(before, t, body, o, at, after)
    else if kind == ACCOUNTS_REQUEST then AccountsAnswer(before, t, body, o, at, names, after)
    else if kind == SEND_TXT_REQUEST then SendTxtAnswer(before, t, body, o, at, after)
    else if kind == RECV_TXT_REQUEST then RecvTxtAnswer(before, t, body, o, at, after)
    else if kind == CORRESPONDENTS_REQUEST then CorrespondentsAnswer(before, t, body, o, at, names, after)
    else if kind == DELETE_REQUEST then DeleteAnswer(before, t, body, o, at, after)
    else o == Reply(Frame(INVALID_TYPE_RESPONSE, [])) && at == before && after == at
  }

  function ListReply(kind: nat, names: seq<Str>): Outcome {
    if |NamesBody(CODE_OK, names)| < WORD then Reply(Frame(kind, NamesBody(CODE_OK, names))) else TooLong
  }

  function ChatReply(c: Chat): Outcome {
    if |ChatBody(CODE_OK, c)| < WORD then Reply(Frame(RECV_TXT_RESPONSE, ChatBody(CODE_OK, c))) else TooLong
  }

  /** A response answers a request: its type follows the request's, and an
      unreadable body or an unknown type is answered as such. */
  predicate Answers(q: Packet, r: Packet) {
    if REGISTRATION_REQUEST <= q.kind <= DELETE_REQUEST
    then r.kind == q.kind + 100 || r == Packet(INVALID_BODY_RESPONSE, [])
    else r == Packet(INVALID_TYPE_RESPONSE, [])
  }

  predicate IsFrame(bytes: Str, kind: nat) {
    HEADER <= |bytes| < HEADER + WORD && bytes == Frame(kind, bytes[HEADER..])
  }

  lemma FramesAreFrames(kind: nat, body: Str)
    requires |body| < WORD
    ensures IsFrame(Frame(kind, body), kind) && Frame(kind, body)[HEADER..] == body
  {
  }

  lemma CodesAreFrames(before: Trace, t: ThreadId, kind: nat, body: Str, o: Outcome, at: Trace, names: seq<Str>,
                       after: Trace)
    requires kind in {REGISTRATION_REQUEST, LOGIN_REQUEST, LOGOUT_REQUEST, SEND_TXT_REQUEST, DELETE_REQUEST}
    requires Served(before, t, kind, body, o, at, names, after) && o.Reply?
    ensures IsFrame(o.bytes, kind + 100)
  {
    forall k, code ensures IsFrame(Coded(k, code).bytes, k) { FramesAreFrames(k, PutU32(code)); }
  }

  lemma ListsAreFrames(before: Trace, t: ThreadId, kind: nat, body: Str, o: Outcome, at: Trace, names: seq<Str>,
                       after: Trace)
    requires kind in {ACCOUNTS_REQUEST, CORRESPONDENTS_REQUEST}
    requires Served(before, t, kind, body, o, at, names, after) && o.Reply?
    ensures IsFrame(o.bytes, kind + 100)
  {
    FramesAreFrames(kind + 100, PutU32(CODE_UNAUTHORIZED));
    if |NamesBody(CODE_OK, names)| < WORD { FramesAreFrames(kind + 100, NamesBody(CODE_OK, names)); }
  }

  lemma ChatsAreFrames(before: Trace, t: ThreadId, body: Str, o: Outcome, at: Trace, after: Trace)
    requires RecvTxtAnswer(before, t, body, o, at, after) && o.Reply?
    ensures IsFrame(o.bytes, RECV_TXT_RESPONSE)
  {
    forall k, code ensures IsFrame(Coded(k, code).bytes, k) { FramesAreFrames(k, PutU32(code)); }
    forall c | |ChatBody(CODE_OK, c)| < WORD ensures IsFrame(ChatReply(c).bytes, RECV_TXT_RESPONSE) {
      FramesAreFrames(RECV_TXT_RESPONSE, ChatBody(CODE_OK, c));
    }
  }

  /** Every message a dispatch sends is a well-formed frame of the right type. */
  lemma ServedIsFrame(before: Trace, t: ThreadId, kind: nat, body: Str, o: Outcome, at: Trace, names: seq<Str>,
                      after: Trace)
    requires Served(before, t, kind, body, o, at, names, after) && o.Reply?
    ensures if REGISTRATION_REQUEST <= kind <= DELETE_REQUEST
            then IsFrame(o.bytes, kind + 100)
            else o == Reply(Frame(INVALID_TYPE_RESPONSE, []))
  {
    if kind in {ACCOUNTS_REQUEST, CORRESPONDENTS_REQUEST} {
      ListsAreFrames(before, t, kind, body, o, at, names, after);
    } else if kind == RECV_TXT_REQUEST {
      ChatsAreFrames(before, t, body, o, at, after);
    } else if REGISTRATION_REQUEST <= kind <= DELETE_REQUEST {
      CodesAreFrames(before, t, kind, body, o, at, names, after);
    }
  }

  /** One request, what became of it, and the calls made around it. */
  datatype Exchange = Exchange(request: Packet, before: Trace, outcome: Outcome, at: Trace, names: seq<Str>,
                               after: Trace)

  /** A request that finds the process ended is not answered. */
  ghost predicate IsServed(e: Exchange, t: ThreadId) {
    if Survived(e.before) then Served(e.before, t, e.request.kind, e.request.body, e.outcome, e.at, e.names, e.after)
    else e.outcome == Died && e.at == e.before && e.after == e.at
  }

  /** What goes out for an outcome. */
  function Sent(o: Outcome): Outcome {
    if o == BadBody then Reply(Frame(INVALID_BODY_RESPONSE, [])) else o
  }

  /** The message an exchange answers with. */
  function ReplyOf(e: Exchange): Packet {
    match e.outcome
    case Reply(bytes) =>
      if REGISTRATION_REQUEST <= e.request.kind <= DELETE_REQUEST && |bytes| >= HEADER
      then Packet(e.request.kind + 100, bytes[HEADER..]) else Packet(INVALID_TYPE_RESPONSE, [])
    case _ => Packet(INVALID_BODY_RESPONSE, [])
  }

  lemma ReplyIsAnswer(e: Exchange, t: ThreadId)
    requires IsServed(e, t) && Sent(e.outcome).Reply?
    ensures Sent(e.outcome).bytes == Frame(ReplyOf(e).kind, ReplyOf(e).body)
    ensures Sendable([ReplyOf(e)]) && Answers(e.request, ReplyOf(e))
  {
    if e.outcome != BadBody {
      ServedIsFrame(e.before, t, e.request.kind, e.request.body, e.outcome, e.at, e.names, e.after);
    }
  }

  function Requests(log: seq<Exchange>): seq<Packet> {
    seq(|log|, i requires 0 <= i < |log| => log[i].request)
  }

  function Replies(log: seq<Exchange>): seq<Packet> {
    seq(|log|, i requires 0 <= i < |log| => ReplyOf(log[i]))
  }

  function TraceAfter(log: seq<Exchange>, start: Trace): Trace {
    if log == [] then start else log[|log| - 1].after
  }

  /** The exchanges of one connection: each request answered as its handler
      promises, by one message of the right type, and between two of them only the
      other connections have made calls. */
  ghost predicate IsConversation(log: seq<Exchange>, t: ThreadId, start: Trace) {
    log == [] || (
      var front, e := log[..|log| - 1], log[|log| - 1];
      && IsConversation(front, t, start) && OthersOnly(TraceAfter(front, start), e.before, t)
      && IsServed(e, t) && Sent(e.outcome) == Reply(Frame(ReplyOf(e).kind, ReplyOf(e).body))
      && Answers(e.request, ReplyOf(e)) && Sendable([e.request]) && Sendable([ReplyOf(e)]))
  }

  /** The server process.  `up` turns false when an exception ends it; `trace` is
      bookkeeping, the calls made so far. */
  class Server {
    const database: Database
    var up: bool
    ghost var trace: Trace

    constructor ()
      ensures Valid() && up && trace == [] && fresh(database)
    {
      database := new Database();
      up, trace := true, [];
    }

    /** The process is up as long as no call has been fatal, and the database is then
        what the calls have made of it. */
    ghost predicate Valid()
      reads this, database
    {
      && AllAdmissible(trace) && (up <==> Survived(trace))
      && (up ==> database.State() == StateOf(trace))
    }

    /** Enter a call that has just been made into the trace. */
    method Made(t: ThreadId, ghost call: Call, s: Status)
      requires up && AllAdmissible(trace) && Survived(trace) && Admissible(call)
      requires s == Do(StateOf(trace), t, call).1 && (!Fatal(s) ==> database.State() == Do(StateOf(trace), t, call).0)
      modifies this
      ensures Valid() && trace == old(trace) + [Turn(t, call)] && up == !Fatal(s)
    {
      OneMoreTurn(trace, Turn(t, call));
      trace := trace + [Turn(t, call)];
      up := !Fatal(s);
    }

    method CallDatabase(t: ThreadId, call: Call) returns (s: Status)
      requires Valid() && up && Admissible(call)
      modifies this, database
      ensures Valid() && trace == old(trace) + [Turn(t, call)]
      ensures s == Do(StateOf(old(trace)), t, call).1 && up == !Fatal(s)
    {
      RunsAreMirrored(trace);
      match call {
        case CallLogin(u, p) => s := database.Login(t, u, p);
        case CallRegister(u, p) => s := database.Registration(u, p);
        case CallLogout => s := database.Logout(t);
        case CallSend(r, txt) => s := database.SendTxt(t, r, txt);
        case CallRecv(sender) => var c; s, c := database.RecvTxt(t, sender, []);
        case CallCorrespondents => var names; s, names := database.GetCorrespondents(t, []);
        case CallDelete => s := database.DeleteUser(t);
      }
      Made(t, call, s);
    }

    /** Any number of calls of other connections, until one of them ends the process. */
    method OtherThreads(t: ThreadId)
      requires Valid() && up
      modifies this, database
      ensures Valid() && OthersOnly(old(trace), trace, t)
    {
      var more: nat := *;
      while more > 0 && up
        invariant Valid() && OthersOnly(old(trace), trace, t)
        decreases more
      {
        var s: ThreadId := *;
        var call: Call := *;
        if s != t && (!call.CallRegister? || (ValidName(call.name) && ValidPassword(call.password))) {
          var _ := CallDatabase(s, call);
        }
        more := more - 1;
      }
    }

    method HandleRegistration(t: ThreadId, body: Str) returns (o: Outcome, ghost at: Trace)
      requires Valid() && up
      modifies this, database
      ensures Valid() && RegistrationAnswer(old(trace), t, body, o, at, trace) && (o == Died <==> !up)
    {
      at := trace;
      var s, username, password := DeserializePair(body);
      if s != ReadOk { return BadBody, at; }
      var code := CODE_OK;
      if |username| < 4 || |username| > 40 || STAR in username || SPACE in username {
        code := CODE_USERNAME_INVALID;
      } else if |password| < 4 || |password| > 60 {
        code := CODE_PASSWORD_INVALID;
      } else {
        var r := CallDatabase(t, CallRegister(username, password));
        code := if r == Ok then CODE_OK else CODE_USER_EXISTS;
      }
      var msg := SerializeCode(REGISTRATION_RESPONSE, code);
      o := Reply(msg.bytes[..]);
    }

    /** The logout that precedes a login. */
    method EndEarlierSession(t: ThreadId)
      requires Valid() && up
      modifies this, database
      ensures Valid() && (OthersOnly(old(trace), trace, t) || SessionEnded(old(trace), trace, t))
      ensures up ==> SessionEnded(old(trace), trace, t)
    {
      var loggedIn := database.IsLoggedIn(t);
      if loggedIn {
        OtherThreads(t);
        if !up { return; }
        ghost var middle := trace;
        OneMoreTurn(trace, Turn(t, CallLogout));
        var _ := CallDatabase(t, CallLogout);
        OtherThreads(t);
        LogoutEndsSession(old(trace), middle, trace, t);
      } else {
        OtherThreads(t);
      }
    }

    method HandleLogin(t: ThreadId, body: Str) returns (o: Outcome, ghost at: Trace)
      requires Valid() && up
      modifies this, database
      ensures Valid() && LoginAnswer(old(trace), t, body, o, at, trace) && (o == Died <==> !up)
    {
      at := trace;
      var s, username, password := DeserializePair(body);
      if s != ReadOk { return BadBody, at; }
      EndEarlierSession(t);
      at := trace;
      if !up { return Died, at; }
      EndedSessionIsGone(old(trace), at, t);
      var r := CallDatabase(t, CallLogin(username, password));
      var msg := SerializeCode(LOGIN_RESPONSE, if r == Ok then CODE_OK else CODE_INVALID_CREDENTIALS);
      o := Reply(msg.bytes[..]);
    }

    /** Is the thread logged in; between the answer and what follows the others run. */
    method CheckSession(t: ThreadId) returns (loggedIn: bool)
      requires Valid() && up
      modifies this, database
      ensures Valid() && OthersOnly(old(trace), trace, t)
      ensures loggedIn == (t in StateOf(trace).threads)
      ensures !loggedIn ==> up
    {
      loggedIn := database.IsLoggedIn(t);
      if loggedIn {
        OtherThreads(t);
        OthersKeepSession(old(trace), trace, t);
      }
    }

    method HandleLogout(t: ThreadId, body: Str) returns (o: Outcome, ghost at: Trace)
      requires Valid() && up
      modifies this, database
      ensures Valid() && LogoutAnswer(old(trace), t, body, o, at, trace) && (o == Died <==> !up)
    {
      at := trace;
      if |body| != 0 { return BadBody, at; }
      var loggedIn := CheckSession(t);
      at := trace;
      if !loggedIn {
        var refusal := SerializeCode(LOGOUT_RESPONSE, CODE_UNAUTHORIZED);
        return Reply(refusal.bytes[..]), at;
      }
      if !up { return Died, at; }
      var _ := CallDatabase(t, CallLogout);
      var msg := SerializeCode(LOGOUT_RESPONSE, CODE_OK);
      o := Reply(msg.bytes[..]);
    }

    method HandleListAccounts(t: ThreadId, body: Str) returns (o: Outcome, ghost at: Trace, ghost names: seq<Str>)
      requires Valid() && up
      modifies this, database
      ensures Valid() && AccountsAnswer(old(trace), t, body, o, at, names, trace) && (o == Died <==> !up)
    {
      at, names := trace, [];
      var s, pattern := DeserializeSingle(body);
      if s != ReadOk { return BadBody, at, []; }
      var loggedIn := CheckSession(t);
      at := trace;
      if !loggedIn {
        var refusal := SerializeNames(ACCOUNTS_RESPONSE, CODE_UNAUTHORIZED, []);
        return Reply(refusal.bytes[..]), at, [];
      }
      if !up { return Died, at, []; }
      var usernames := database.GetUsernames(pattern);
      NamesAreValid(trace);
      SearchIsExact(StateOf(at), pattern, usernames);
      names := usernames;
      NamesSize(usernames);
      var size := AddLengths(8 + 4 * |usernames|, usernames);
      if size >= WORD { return TooLong, at, names; }
      var msg := SerializeNames(ACCOUNTS_RESPONSE, CODE_OK, usernames);
      o := Reply(msg.bytes[..]);
    }

    method HandleSendTxt(t: ThreadId, body: Str) returns (o: Outcome, ghost at: Trace)
      requires Valid() && up
      modifies this, database
      ensures Valid() && SendTxtAnswer(old(trace), t, body, o, at, trace) && (o == Died <==> !up)
    {
      at := trace;
      var s, recipient, txt := DeserializePair(body);
      if s != ReadOk { return BadBody, at; }
      var loggedIn := CheckSession(t);
      at := trace;
      if !loggedIn {
        var refusal := SerializeCode(SEND_TXT_RESPONSE, CODE_UNAUTHORIZED);
        return Reply(refusal.bytes[..]), at;
      }
      if !up { return Died, at; }
      var r := CallDatabase(t, CallSend(recipient, txt));
      if !up { return Died, at; }
      var msg := SerializeCode(SEND_TXT_RESPONSE, if r == Ok then CODE_OK else CODE_USER_NOEXIST);
      o := Reply(msg.bytes[..]);
    }

    method HandleRecvTxt(t: ThreadId, body: Str) returns (o: Outcome, ghost at: Trace)
      requires Valid() && up
      modifies this, database
      ensures Valid() && RecvTxtAnswer(old(trace), t, body, o, at, trace) && (o == Died <==> !up)
    {
      at := trace;
      var s, sender := DeserializeSingle(body);
      if s != ReadOk { return BadBody, at; }
      var loggedIn := CheckSession(t);
      at := trace;
      if !loggedIn {
        var refusal := SerializeChat(CODE_UNAUTHORIZED, []);
        return Reply(refusal.bytes[..]), at;
      }
      if !up { return Died, at; }
      var r, c := database.RecvTxt(t, sender, []);
      Made(t, CallRecv(sender), r);
      if !up { return Died, at; }
      if r != Ok {
        var refusal := SerializeChat(CODE_USER_NOEXIST, c);
        return Reply(refusal.bytes[..]), at;
      }
      ChatSize(c);
      var size := AddLengths(8 + 5 * |c|, Contents(c));
      if size >= WORD { return TooLong, at; }
      var msg := SerializeChat(CODE_OK, c);
      o := Reply(msg.bytes[..]);
    }

    method HandleCorrespondents(t: ThreadId, body: Str) returns (o: Outcome, ghost at: Trace, ghost names: seq<Str>)
      requires Valid() && up
      modifies this, database
      ensures Valid() && CorrespondentsAnswer(old(trace), t, body, o, at, names, trace) && (o == Died <==> !up)
    {
      at, names := trace, [];
      if |body| != 0 { return BadBody, at, []; }
      var loggedIn := CheckSession(t);
      at := trace;
      if !loggedIn {
        var refusal := SerializeNames(CORRESPONDENTS_RESPONSE, CODE_UNAUTHORIZED, []);
        return Reply(refusal.bytes[..]), at, [];
      }
      if !up { return Died, at, []; }
      var r, correspondents := database.GetCorrespondents(t, []);
      Made(t, CallCorrespondents, r);
      if !up { return Died, at, []; }
      names := correspondents;
      NamesSize(correspondents);
      var size := AddLengths(8 + 4 * |correspondents|, correspondents);
      if size >= WORD { return TooLong, at, names; }
      var msg := SerializeNames(CORRESPONDENTS_RESPONSE, CODE_OK, correspondents);
      o := Reply(msg.bytes[..]);
    }

    method HandleDelete(t: ThreadId, body: Str) returns (o: Outcome, ghost at: Trace)
      requires Valid() && up
      modifies this, database
      ensures Valid() && DeleteAnswer(old(trace), t, body, o, at, trace) && (o == Died <==> !up)
    {
      at := trace;
      if |body| != 0 { return BadBody, at; }
      var loggedIn := CheckSession(t);
      at := trace;
      if !loggedIn {
        var refusal := SerializeCode(DELETE_RESPONSE, CODE_UNAUTHORIZED);
        return Reply(refusal.bytes[..]), at;
      }
      if !up { return Died, at; }
      var _ := CallDatabase(t, CallDelete);
      if !up { return Died, at; }
      var msg := SerializeCode(DELETE_RESPONSE, CODE_OK);
      o := Reply(msg.bytes[..]);
    }

    /** The switch over the request type. */
    method Serve(t: ThreadId, kind: nat, body: Str) returns (o: Outcome, ghost at: Trace, ghost names: seq<Str>)
      requires Valid() && up
      modifies this, database
      ensures Valid() && Served(old(trace), t, kind, body, o, at, names, trace) && (o == Died <==> !up)
    {
      at, names := trace, [];
      if kind == REGISTRATION_REQUEST { o, at := HandleRegistration(t, body); }
      else if kind == LOGIN_REQUEST { o, at := HandleLogin(t, body); }
      else if kind == LOGOUT_REQUEST { o, at := HandleLogout(t, body); }
      else if kind == ACCOUNTS_REQUEST { o, at, names := HandleListAccounts(t, body); }
      else if kind == SEND_TXT_REQUEST { o, at := HandleSendTxt(t, body); }
      else if kind == RECV_TXT_REQUEST { o, at := HandleRecvTxt(t, body); }
      else if kind == CORRESPONDENTS_REQUEST { o, at, names := HandleCorrespondents(t, body); }
      else if kind == DELETE_REQUEST { o, at := HandleDelete(t, body); }
      else {
        var msg := SerializeEmpty(INVALID_TYPE_RESPONSE);
        o := Reply(msg.bytes[..]);
      }
    }

    /** One request and its response; an unreadable body is answered as such. */
    method Round(t: ThreadId, kind: nat, body: Str) returns (o: Outcome, ghost e: Exchange)
      requires Valid() && up && kind < 0x1_0000 && |body| < WORD
      modifies this, database
      ensures Valid() && e.request == Packet(kind, body) && e.before == old(trace) && e.after == trace
      ensures IsServed(e, t) && o == Sent(e.outcome) && (o == Died <==> !up)
      ensures o.Reply? ==> o.bytes == Frame(ReplyOf(e).kind, ReplyOf(e).body)
    {
      ghost var before := trace;
      ghost var at, names;
      o, at, names := Serve(t, kind, body);
      e := Exchange(Packet(kind, body), before, o, at, names, trace);
      if o == BadBody {
        var msg := SerializeEmpty(INVALID_BODY_RESPONSE);
        o := Reply(msg.bytes[..]);
      }
      if o.Reply? { ReplyIsAnswer(e, t); }
    }

    /** A complete request has come: serve it.  Before its response goes out the
        others may run, and may end the process. */
    method AnswerRequest(t: ThreadId, h: Header, left: Str) returns (end: End, out: Str, left': Str, ghost e: Exchange)
      requires Valid() && up
      requires |left| >= HEADER && h == GetHeader(left[..HEADER]) && h.version == VERSION
      requires |left| >= HEADER + h.bodyLen
      modifies this, database
      ensures Valid() && (end == ProcessDied <==> !up) && (e.outcome == Died ==> !up)
      ensures e.before == old(trace) && OthersOnly(e.after, trace, t)
      ensures end in {Open, ProcessDied, OutsideModel} && Handled(e, t, end, out, left)
      ensures end == Open ==>
        && left == Frame(e.request.kind, e.request.body) + left' && Sendable([e.request])
        && out == Frame(ReplyOf(e).kind, ReplyOf(e).body)
      ensures end != Open ==> left' == left && out == []
    {
      RequestIsFrame(left);
      var o;
      o, e := Round(t, h.kind, left[HEADER..HEADER + h.bodyLen]);
      if up { OtherThreads(t); }
      end, out, left' := Open, [], left;
      if !up { end := ProcessDied; }
      else if o == TooLong { end := OutsideModel; }
      else { out, left' := o.bytes, left[HEADER + h.bodyLen..]; }
    }

    /** Receive and answer the next request, if a complete one comes. */
    method AnswerNext(t: ThreadId, left: Str) returns (end: End, out: Str, left': Str, ghost e: Exchange)
      requires Valid() && up
      modifies this, database
      ensures Valid() && (end == ProcessDied <==> !up) && OthersOnly(old(trace), e.before, t)
      ensures OthersOnly(e.after, trace, t)
      ensures IsComplete(left) && e.outcome == Died ==> !up
      ensures end == Open ==> IsServed(e, t) && Sent(e.outcome).Reply? && Sendable([e.request])
      ensures end == Open ==> left == Frame(e.request.kind, e.request.body) + left'
      ensures end == Open ==> out == Frame(ReplyOf(e).kind, ReplyOf(e).body)
      ensures end != Open ==> left' == left
      ensures end in {Closed, ProcessDied, OutsideModel} ==> out == []
      ensures end == OtherVersion ==> out == Frame(WRONG_VERSION_RESPONSE, PutU16(VERSION))
      ensures Ended(end, left')
      ensures IsComplete(left) ==> end !in {Closed, OtherVersion} && Handled(e, t, end, out, left)
    {
      end, out, left' := Closed, [], left;
      OtherThreads(t);
      e := Exchange(NextRequest(left), trace, Died, trace, [], trace);
      if !up { return ProcessDied, [], left, e; }
      if |left| < HEADER { return; }
      var s, h := DeserializeHeader(left[..HEADER]);
      if h.version != VERSION {
        var msg := SerializeVersion();
        return OtherVersion, msg.bytes[..], left, e;
      }
      if |left| < HEADER + h.bodyLen { return; }
      end, out, left', e := AnswerRequest(t, h, left);
    }

    /** `handle_client`: answer the requests of one connection until it closes, a
        request has another version, or the process ends.  `input` is everything
        the client ever sends.  The complete requests are answered one by one, in
        order, each as its handler promises; between two requests only the other
        connections make calls; and a connection that ends while the server is up
        leaves no session behind.  The server goes down only after an account has
        been deleted while a second connection was logged in as it, or while it had
        a chat with itself. */
    method HandleClient(t: ThreadId, input: Str)
        returns (output: Str, end: End, ghost log: seq<Exchange>, ghost rest: Str)
      requires Valid() && up
      modifies this, database
      ensures Valid() && IsConversation(log, t, old(trace))
      ensures input == Stream(Requests(log)) + rest
      ensures output == OutputOf(log, end)
      ensures end in {Closed, OtherVersion} ==> t !in StateOf(trace).threads
      ensures end != Open && Ended(end, rest) && (end == ProcessDied <==> !up)
      ensures DeletesSafely(trace) ==> up
    {
      output, end, log := [], Open, [];
      var left := input;
      while end == Open
        invariant Valid() && IsConversation(log, t, old(trace)) && (end == ProcessDied <==> !up)
        invariant end == Open ==> OthersOnly(TraceAfter(log, old(trace)), trace, t)
        invariant input == Stream(Requests(log)) + left && Ended(end, left)
        invariant output == OutputOf(log, end)
        decreases if end == Open then |left| + 1 else 0
      {
        ghost var before := left;
        var out;
        ghost var e;
        end, out, left, e := AnswerNext(t, left);
        if end == Open {
          ConversationGoesOn(log, e, t, old(trace), before, left, out);
          log := log + [e];
        }
        output := output + out;
      }
      rest := left;
      if end in {Closed, OtherVersion} { EndSession(t); }
      UpAfterSafeDeletions();
    }

    /** When no account has been deleted in one of the two ways the server is up;
        the deletion of an account with a chat with itself always ends it. */
    lemma UpAfterSafeDeletions()
      requires Valid()
      ensures DeletesSafely(trace) ==> up
      ensures DeletesSelfChat(trace) ==> !up
    {
      if !DeletesShared(trace) { RunsKeepSessionsLive(trace); }
      SelfChatDeletionIsFatal(trace);
    }

    /** The logout with which every connection ends. */
    method EndSession(t: ThreadId)
      requires Valid() && up
      modifies this, database
      ensures Valid() && up && t !in StateOf(trace).threads
    {
      OneMoreTurn(trace, Turn(t, CallLogout));
      var _ := CallDatabase(t, CallLogout);
    }
  }

  /** How a connection ends. */
  datatype End = Open | Closed | OtherVersion | ProcessDied | OutsideModel

  /** What a connection has been sent. */
  function OutputOf(log: seq<Exchange>, end: End): Str {
    if end == OtherVersion
    then Stream(Replies(log)) + Frame(WRONG_VERSION_RESPONSE, PutU16(VERSION))
    else Stream(Replies(log))
  }

  /** Why a connection has ended while the server is up: no complete request is
      left, or the next one has another version. */
  ghost predicate Ended(end: End, rest: Str) {
    match end
    case Closed => !CutMessage(rest).Value?
    case OtherVersion => |rest| >= HEADER && GetHeader(rest[..HEADER]).version != VERSION
    case _ => true
  }

  /** A whole request of this version has come. */
  ghost predicate IsComplete(left: Str) {
    CutMessage(left).Value? && GetHeader(left[..HEADER]).version == VERSION
  }

  function NextRequest(left: Str): Packet {
    var m := CutMessage(left);
    if m.Value? then Packet(m.value.0, m.value.1) else Packet(0, [])
  }

  /** The next message of the input is the request of `e`, and it has been served
      or has found the process ended; no response goes out of a process that ends. */
  ghost predicate Handled(e: Exchange, t: ThreadId, end: End, out: Str, left: Str) {
    && IsServed(e, t) && e.request == NextRequest(left)
    && match end
       case Open => Sent(e.outcome) == Reply(out)
       case ProcessDied => true
       case _ => e.outcome == TooLong
  }

  method SerializeVersion() returns (msg: Outgoing)
    ensures fresh(msg) && fresh(msg.bytes) && msg.Is(Frame(WRONG_VERSION_RESPONSE, PutU16(VERSION)))
  {
    msg := Allocate(WRONG_VERSION_RESPONSE, 2);
    msg.Emit(8, PutU16(VERSION));
    msg.Whole(Frame(WRONG_VERSION_RESPONSE, PutU16(VERSION)));
  }

  lemma {:induction false} StreamAppend(ps: seq<Packet>, p: Packet)
    ensures Stream(ps + [p]) == Stream(ps) + Frame(p.kind, p.body)
  {
    if ps == [] {
      assert [p][1..] == [] && [] + [p] == [p];
    } else {
      StreamAppend(ps[1..], p);
      assert (ps + [p])[1..] == ps[1..] + [p];
      Associate(Frame(ps[0].kind, ps[0].body), Stream(ps[1..]), Frame(p.kind, p.body));
    }
  }

  lemma Associate(a: Str, b: Str, c: Str)
    ensures a + (b + c) == a + b + c
  {
  }

  lemma ConversationGrows(log: seq<Exchange>, e: Exchange, t: ThreadId, start: Trace)
    requires IsConversation(log, t, start) && IsServed(e, t) && Sent(e.outcome).Reply?
    requires OthersOnly(TraceAfter(log, start), e.before, t) && Sendable([e.request])
    ensures IsConversation(log + [e], t, start) && TraceAfter(log + [e], start) == e.after
    ensures Sent(e.outcome).bytes == Frame(ReplyOf(e).kind, ReplyOf(e).body)
  {
    ReplyIsAnswer(e, t);
    assert (log + [e])[..|log|] == log;
  }

  /** One more exchange takes one request off the input and adds one reply. */
  lemma StreamsGrow(log: seq<Exchange>, e: Exchange, left: Str)
    ensures Stream(Requests(log)) + (Frame(e.request.kind, e.request.body) + left) == Stream(Requests(log + [e])) + left
    ensures Stream(Replies(log + [e])) == Stream(Replies(log)) + Frame(ReplyOf(e).kind, ReplyOf(e).body)
  {
    assert Requests(log + [e]) == Requests(log) + [e.request];
    assert Replies(log + [e]) == Replies(log) + [ReplyOf(e)];
    StreamAppend(Requests(log), e.request);
    StreamAppend(Replies(log), ReplyOf(e));
    Associate(Stream(Requests(log)), Frame(e.request.kind, e.request.body), left);
  }

  lemma ConversationGoesOn(log: seq<Exchange>, e: Exchange, t: ThreadId, start: Trace, left: Str, left': Str, out: Str)
    requires IsConversation(log, t, start) && IsServed(e, t) && Sent(e.outcome).Reply?
    requires OthersOnly(TraceAfter(log, start), e.before, t) && Sendable([e.request])
    requires left == Frame(e.request.kind, e.request.body) + left' && out == Frame(ReplyOf(e).kind, ReplyOf(e).body)
    ensures IsConversation(log + [e], t, start) && TraceAfter(log + [e], start) == e.after
    ensures Stream(Requests(log)) + left == Stream(Requests(log + [e])) + left'
    ensures Stream(Replies(log + [e])) == Stream(Replies(log)) + out && |left'| < |left|
  {
    ConversationGrows(log, e, t, start);
    StreamsGrow(log, e, left');
  }

  /** A complete message at the head of a stream is a frame. */
  lemma RequestIsFrame(s: Str)
    requires |s| >= HEADER && GetHeader(s[..HEADER]).version == VERSION
    requires |s| >= HEADER + GetHeader(s[..HEADER]).bodyLen
    ensures var h := GetHeader(s[..HEADER]);
            && h.kind < 0x1_0000 && h.bodyLen < WORD
            && s == Frame(h.kind, s[HEADER..HEADER + h.bodyLen]) + s[HEADER + h.bodyLen..]
  {
    var hs := s[..HEADER];
    U16Canonical(hs[..2]);
    U16Canonical(hs[2..4]);
    U32Canonical(hs[4..8]);
    assert hs == hs[..2] + hs[2..4] + hs[4..8];
    var n := HEADER + GetHeader(hs).bodyLen;
    assert s == hs + s[HEADER..n] + s[n..];
  }
}
