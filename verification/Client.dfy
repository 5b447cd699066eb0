/** The client of client.cc, joined to the server over a connection that loses
    nothing: each call is a request, the server's turn of its loop, and a response
    read back.  Every call is proved equal to the database operation it stands for. */
module Client {
  import opened Bytes
  import opened ChatDb
  import opened Wire
  import opened WireCode
  import opened Handlers
  import opened ChatDatabase

  /** Outcome of a call: the response was read, the server is gone, the response
      has the wrong type or version, or its body cannot be read. */
  datatype CallStatus = CallOk | ClosedConnection | HeaderError | ResponseError

  lemma SameFrame(kind: nat, a: Str, b: Str)
    requires Frame(kind, a) == Frame(kind, b)
    ensures a == b
  {
    assert Frame(kind, a)[HEADER..] == a && Frame(kind, b)[HEADER..] == b;
  }

  /** Some answer to this thread would take 2^32 bytes or more. */
  ghost predicate Oversized(d: Db, t: ThreadId) {
    || (exists pattern, ns :: IsMatchList(d, pattern, ns) && |NamesBody(CODE_OK, ns)| >= WORD)
    || (exists ns :: Lists(ns, Correspondents(d, t).1) && |NamesBody(CODE_OK, ns)| >= WORD)
    || (exists sender :: |ChatBody(CODE_OK, ChatDb.RecvTxt(d, t, sender).1)| >= WORD)
  }

  /** That has been so at some time. */
  ghost predicate HasBeenOversized(trace: Trace, t: ThreadId) {
    Oversized(StateOf(trace), t) || (trace != [] && HasBeenOversized(trace[..|trace| - 1], t))
  }

  lemma {:induction false} OversizedLater(trace: Trace, later: Trace, t: ThreadId)
    requires HasBeenOversized(trace, t) && trace <= later
    ensures HasBeenOversized(later, t)
    decreases |later|
  {
    if trace != later { OversizedLater(trace, later[..|later| - 1], t); }
  }

  class Client {
    const server: Server
    const thread: ThreadId
    var incoming: Str
    var closed: bool

    constructor (server: Server, thread: ThreadId)
      requires server.Valid()
      ensures Valid() && this.server == server && this.thread == thread
    {
      this.server, this.thread, incoming, closed := server, thread, [], false;
    }

    /** The connection is up and all responses have been read. */
    ghost predicate Valid()
      reads this, server, server.database
    {
      server.Valid() && incoming == [] && !closed
    }

    /** The calls made on the database so far. */
    ghost function Past(): Trace
      reads server
    {
      server.trace
    }

    /** The server has handled the request in `e`, or has ended; before and after it
        only other connections have made calls. */
    ghost predicate Asked(e: Exchange, before: Trace, kind: nat, body: Str)
      reads this, server, server.database
    {
      && server.Valid() && incoming == [] && (closed <==> !server.up || e.outcome == TooLong)
      && IsServed(e, thread) && e.request == Packet(kind, body) && (e.outcome == Died ==> !server.up)
      && OthersOnly(before, e.before, thread) && OthersOnly(e.after, Past(), thread)
    }

    /** After a call all responses have been read, or the connection is closed. */
    ghost predicate Settled(s: CallStatus)
      reads this, server, server.database
    {
      server.Valid() && incoming == [] && (closed <==> s != CallOk)
    }

    /** Send a message; the server's loop takes its next turn, unless the server has
        ended. */
    method SendMsg(msg: Str, ghost kind: nat, ghost body: Str) returns (ghost e: Exchange)
      requires Valid() && kind < 0x1_0000 && |body| < WORD && msg == Frame(kind, body)
      modifies this, server, server.database
      ensures server.Valid() && !closed && IsServed(e, thread) && e.request == Packet(kind, body)
      ensures OthersOnly(old(Past()), e.before, thread) && OthersOnly(e.after, Past(), thread)
      ensures e.outcome == Died ==> !server.up
      ensures var sent, r := Sent(e.outcome), ReplyOf(e);
              if server.up && sent.Reply?
              then sent.bytes == incoming == Frame(r.kind, r.body) && Sendable([r]) && Answers(e.request, r)
              else incoming == []
    {
      if !server.up {
        e := Exchange(Packet(kind, body), Past(), Died, Past(), [], Past());
        return;
      }
      FrameIsCutOff(kind, body, []);
      assert msg + [] == msg;
      var end, out, left;
      end, out, left, e := server.AnswerNext(thread, msg);
      incoming := incoming + out;
      if Sent(e.outcome).Reply? { ReplyIsAnswer(e, thread); }
    }

    method RecvHdr() returns (s: CallStatus, h: Header)
      modifies this`incoming
      ensures s == if |old(incoming)| < HEADER then ClosedConnection else CallOk
      ensures s == CallOk ==> h == GetHeader(old(incoming)[..HEADER]) && incoming == old(incoming)[HEADER..]
      ensures s != CallOk ==> incoming == []
    {
      if |incoming| < HEADER {
        incoming := [];
        return ClosedConnection, Header(0, 0, 0);
      }
      var _, hdr := DeserializeHeader(incoming[..HEADER]);
      incoming := incoming[HEADER..];
      s, h := CallOk, hdr;
    }

    method RecvBody(bodyLen: nat) returns (s: CallStatus, data: Str)
      modifies this`incoming
      ensures s == if |old(incoming)| < bodyLen then ClosedConnection else CallOk
      ensures s == CallOk ==> data == old(incoming)[..bodyLen] && incoming == old(incoming)[bodyLen..]
    {
      if |incoming| < bodyLen { return ClosedConnection, []; }
      s, data := CallOk, incoming[..bodyLen];
      incoming := incoming[bodyLen..];
    }

    function ValidateHdr(h: Header, expected: nat): CallStatus {
      if h.version != VERSION || h.kind != expected then HeaderError else CallOk
    }

    /** Receive one message, or find the connection closed. */
    method Receive(expected: nat, ghost arrived: bool, ghost kind: nat, ghost body: Str)
        returns (s: CallStatus, answer: Str)
      requires arrived ==> incoming == Frame(kind, body) && kind < 0x1_0000 && |body| < WORD
      requires !arrived ==> incoming == []
      requires kind == expected || body == []
      modifies this
      ensures incoming == [] && closed == (old(closed) || s == ClosedConnection)
      ensures s == if !arrived then ClosedConnection else if kind != expected then HeaderError else CallOk
      ensures s == CallOk ==> answer == body
    {
      answer := [];
      if arrived {
        FrameIsCutOff(kind, body, []);
        assert incoming[HEADER..] == body;
      }
      var h;
      s, h := RecvHdr();
      if s != CallOk {
        closed := true;
        return;
      }
      s := ValidateHdr(h, expected);
      if s != CallOk { return; }
      s, answer := RecvBody(h.bodyLen);
    }

    /** Send a request, and receive the response of the expected type. */
    method Ask(msg: Str, expected: nat, ghost kind: nat, ghost body: Str)
        returns (s: CallStatus, answer: Str, ghost e: Exchange)
      requires Valid() && REGISTRATION_REQUEST <= kind <= DELETE_REQUEST && expected == kind + 100
      requires |body| < WORD && msg == Frame(kind, body)
      modifies this, server, server.database
      ensures Asked(e, old(Past()), kind, body)
      ensures server.up && e.outcome.Reply? ==> s == CallOk && e.outcome == Reply(Frame(expected, answer))
      ensures server.up && e.outcome == BadBody ==> s == HeaderError
      ensures !server.up || e.outcome == TooLong ==> s == ClosedConnection
    {
      e := SendMsg(msg, kind, body);
      s, answer := Receive(expected, server.up && Sent(e.outcome).Reply?, ReplyOf(e).kind, ReplyOf(e).body);
    }

    /** The requests whose response is a status code. */
    method AskCode(msg: Str, expected: nat, statCode: nat, ghost kind: nat, ghost body: Str)
        returns (s: CallStatus, statCode': nat, ghost e: Exchange)
      requires Valid() && REGISTRATION_REQUEST <= kind <= DELETE_REQUEST && expected == kind + 100
      requires |body| < WORD && msg == Frame(kind, body)
      modifies this, server, server.database
      ensures Asked(e, old(Past()), kind, body)
      ensures forall code: nat ::
        server.up && code < WORD && e.outcome == Coded(expected, code) ==> s == CallOk && statCode' == code
      ensures !server.up ==> s == ClosedConnection && statCode' == statCode
    {
      statCode' := statCode;
      var answer;
      s, answer, e := Ask(msg, expected, kind, body);
      if s != CallOk { return; }
      forall code: nat | code < WORD && e.outcome == Coded(expected, code)
        ensures |answer| == 4 && GetU32(answer) == code
      {
        SameFrame(expected, answer, PutU32(code));
        U32RoundTrip(code);
      }
      var r;
      r, statCode' := DeserializeCode(answer, statCode);
      s := if r == ReadOk then CallOk else ResponseError;
    }

    /* Each call takes effect at one moment: `at` is what had been called until then,
       and besides the others' calls it has one call of this connection at most.
       A connection is lost when the server has ended, which takes the deletion of
       an account that a second connection was logged in as or that had a chat with
       itself. */

    /** The server has made call `act` for this connection, if its process lasted
        until then, and besides it only the others' calls. */
    ghost predicate Took(at: Trace, act: Call)
      reads server
    {
      OthersOnly(if Survived(at) then at + [Turn(thread, act)] else at, Past(), thread)
    }

    /** The same for a call that needs a session. */
    ghost predicate TookInSession(at: Trace, act: Call)
      reads server
    {
      OthersOnly(if Survived(at) && thread in StateOf(at).threads then at + [Turn(thread, act)] else at, Past(), thread)
    }

    /** Registration end to end. */
    method Registration(username: Str, password: Str, statCode: nat)
        returns (s: CallStatus, statCode': nat, ghost at: Trace)
      requires Valid() && 8 + |username| + |password| < WORD
      modifies this, server, server.database
      ensures Settled(s) && OthersOnly(old(Past()), at, thread)
      ensures s == if server.up then CallOk else ClosedConnection
      ensures statCode' ==
        if s != CallOk then statCode
        else if !ValidName(username) then CODE_USERNAME_INVALID
        else if !ValidPassword(password) then CODE_PASSWORD_INVALID
        else if Register(StateOf(at), username, password).1 == Ok then CODE_OK else CODE_USER_EXISTS
      ensures if ValidName(username) && ValidPassword(password)
              then Took(at, CallRegister(username, password))
              else OthersOnly(at, Past(), thread)
      ensures DeletesSafely(Past()) ==> s == CallOk
    {
      var msg := SerializePair(REGISTRATION_REQUEST, username, password);
      PairRoundTrip(username, password);
      ghost var e;
      s, statCode', e := AskCode(msg.bytes[..], REGISTRATION_RESPONSE, statCode, REGISTRATION_REQUEST,
        PairBody(username, password));
      at := e.at;
      server.UpAfterSafeDeletions();
    }

    /** Login end to end: any earlier session of the connection is over first. */
    method Login(username: Str, password: Str, statCode: nat) returns (s: CallStatus, statCode': nat, ghost at: Trace)
      requires Valid() && 8 + |username| + |password| < WORD
      modifies this, server, server.database
      ensures Settled(s) && s == if server.up then CallOk else ClosedConnection
      ensures s == CallOk ==> SessionEnded(old(Past()), at, thread) && thread !in StateOf(at).threads
      ensures s == CallOk ==> OthersOnly(at + [Turn(thread, CallLogin(username, password))], Past(), thread)
      ensures old(Past()) <= Past()
      ensures statCode' ==
        if s != CallOk then statCode
        else if ChatDb.Login(StateOf(at), thread, username, password).1 == Ok then CODE_OK else CODE_INVALID_CREDENTIALS
      ensures DeletesSafely(Past()) ==> s == CallOk
    {
      var msg := SerializePair(LOGIN_REQUEST, username, password);
      PairRoundTrip(username, password);
      ghost var e;
      s, statCode', e := AskCode(msg.bytes[..], LOGIN_RESPONSE, statCode, LOGIN_REQUEST, PairBody(username, password));
      at := e.at;
      if s == CallOk {
        EndedSessionIsGone(e.before, at, thread);
        SessionEndedLater(old(Past()), e.before, at, thread);
      }
      server.UpAfterSafeDeletions();
    }

    method Logout(statCode: nat) returns (s: CallStatus, statCode': nat, ghost at: Trace)
      requires Valid()
      modifies this, server, server.database
      ensures Settled(s) && OthersOnly(old(Past()), at, thread) && TookInSession(at, CallLogout)
      ensures s == if server.up then CallOk else ClosedConnection
      ensures statCode' ==
        if s != CallOk then statCode
        else if ChatDb.Logout(StateOf(at), thread).1 == Ok then CODE_OK else CODE_UNAUTHORIZED
      ensures DeletesSafely(Past()) ==> s == CallOk
    {
      var msg := SerializeEmpty(LOGOUT_REQUEST);
      ghost var e;
      s, statCode', e := AskCode(msg.bytes[..], LOGOUT_RESPONSE, statCode, LOGOUT_REQUEST, []);
      at := e.at;
      server.UpAfterSafeDeletions();
    }

    /** Sending a text end to end. */
    method SendTxt(recipient: Str, txt: Str, statCode: nat) returns (s: CallStatus, statCode': nat, ghost at: Trace)
      requires Valid() && 8 + |recipient| + |txt| < WORD
      modifies this, server, server.database
      ensures Settled(s) && OthersOnly(old(Past()), at, thread) && TookInSession(at, CallSend(recipient, txt))
      ensures s == if server.up then CallOk else ClosedConnection
      ensures statCode' ==
        if s != CallOk then statCode
        else if thread !in StateOf(at).threads then CODE_UNAUTHORIZED
        else if ChatDb.SendTxt(StateOf(at), thread, recipient, txt).1 == Ok then CODE_OK else CODE_USER_NOEXIST
      ensures DeletesSafely(Past()) ==> s == CallOk
    {
      var msg := SerializePair(SEND_TXT_REQUEST, recipient, txt);
      PairRoundTrip(recipient, txt);
      ghost var e;
      s, statCode', e := AskCode(msg.bytes[..], SEND_TXT_RESPONSE, statCode, SEND_TXT_REQUEST,
        PairBody(recipient, txt));
      at := e.at;
      server.UpAfterSafeDeletions();
    }

    method DeleteAccount(statCode: nat) returns (s: CallStatus, statCode': nat, ghost at: Trace)
      requires Valid()
      modifies this, server, server.database
      ensures Settled(s) && OthersOnly(old(Past()), at, thread) && TookInSession(at, CallDelete)
      ensures s == if server.up then CallOk else ClosedConnection
      ensures statCode' ==
        if s != CallOk then statCode else if DeleteUser(StateOf(at), thread).1 == Ok then CODE_OK else CODE_UNAUTHORIZED
      ensures ChatsWithSelf(StateOf(at), thread) ==> s == ClosedConnection
      ensures DeletesSafely(Past()) ==> s == CallOk
    {
      var msg := SerializeEmpty(DELETE_REQUEST);
      ghost var e;
      s, statCode', e := AskCode(msg.bytes[..], DELETE_RESPONSE, statCode, DELETE_REQUEST, []);
      at := e.at;
      server.UpAfterSafeDeletions();
    }

    /* The calls with a payload.  Their output is overwritten only when the status
       code is zero. */

    /** The responses that carry a list of names. */
    method AskNames(msg: Str, expected: nat, statCode: nat, names: seq<Str>, ghost kind: nat, ghost body: Str)
        returns (s: CallStatus, statCode': nat, names': seq<Str>, ghost e: Exchange)
      requires Valid() && REGISTRATION_REQUEST <= kind <= DELETE_REQUEST && expected == kind + 100
      requires |body| < WORD && msg == Frame(kind, body)
      modifies this, server, server.database
      ensures Asked(e, old(Past()), kind, body)
      ensures server.up && e.outcome == Coded(expected, CODE_UNAUTHORIZED) ==>
        s == CallOk && statCode' == CODE_UNAUTHORIZED && names' == names
      ensures forall ns :: server.up && e.outcome == ListReply(expected, ns) && e.outcome != TooLong ==>
        s == CallOk && statCode' == CODE_OK && names' == ns
      ensures !server.up || e.outcome == TooLong ==> s == ClosedConnection && statCode' == statCode && names' == names
    {
      statCode', names' := statCode, names;
      var answer;
      s, answer, e := Ask(msg, expected, kind, body);
      if s != CallOk { return; }
      if e.outcome == Coded(expected, CODE_UNAUTHORIZED) {
        SameFrame(expected, answer, PutU32(CODE_UNAUTHORIZED));
        RefusalIsRead(CODE_UNAUTHORIZED);
      }
      forall ns | e.outcome == ListReply(expected, ns) ensures DecodeNames(answer) == Value(ns) {
        SameFrame(expected, answer, NamesBody(CODE_OK, ns));
        NamesRoundTrip(ns);
      }
      var r;
      r, statCode', names' := DeserializeNames(answer, statCode, names);
      s := if r == ReadOk then CallOk else ResponseError;
    }

    /** A search end to end: exactly the live names that match, in order.  The
        connection is lost with the server or to an answer of 2^32 bytes or more. */
    method ListAccounts(pattern: Str, statCode: nat, usernames: seq<Str>)
        returns (s: CallStatus, statCode': nat, usernames': seq<Str>, ghost at: Trace)
      requires Valid() && 4 + |pattern| < WORD
      modifies this, server, server.database
      ensures Settled(s) && OthersOnly(old(Past()), at, thread) && OthersOnly(at, Past(), thread)
      ensures s == CallOk && thread !in StateOf(at).threads ==>
        statCode' == CODE_UNAUTHORIZED && usernames' == usernames
      ensures s == CallOk && thread in StateOf(at).threads ==>
        statCode' == CODE_OK && IsMatchList(StateOf(at), pattern, usernames')
      ensures s != CallOk ==> s == ClosedConnection && statCode' == statCode && usernames' == usernames
      ensures s == CallOk ==> server.up
      ensures s != CallOk && server.up ==>
        && thread in StateOf(at).threads
        && exists ns :: IsMatchList(StateOf(at), pattern, ns) && |NamesBody(CODE_OK, ns)| >= WORD
      ensures s != CallOk && server.up ==> Oversized(StateOf(at), thread)
      ensures DeletesSafely(Past()) ==> server.up
    {
      var msg := SerializeSingle(ACCOUNTS_REQUEST, pattern);
      SingleRoundTrip(pattern);
      ghost var e;
      s, statCode', usernames', e :=
        AskNames(msg.bytes[..], ACCOUNTS_RESPONSE, statCode, usernames, ACCOUNTS_REQUEST, SingleBody(pattern));
      at := e.at;
      server.UpAfterSafeDeletions();
    }

    method RecvCorrespondents(statCode: nat, correspondents: seq<Str>)
        returns (s: CallStatus, statCode': nat, correspondents': seq<Str>, ghost at: Trace)
      requires Valid()
      modifies this, server, server.database
      ensures Settled(s) && OthersOnly(old(Past()), at, thread) && TookInSession(at, CallCorrespondents)
      ensures s == CallOk && thread !in StateOf(at).threads ==>
        statCode' == CODE_UNAUTHORIZED && correspondents' == correspondents
      ensures s == CallOk && thread in StateOf(at).threads ==> statCode' == CODE_OK && !Stale(StateOf(at), thread)
      ensures s == CallOk && thread in StateOf(at).threads ==>
        Lists(correspondents', Correspondents(StateOf(at), thread).1)
      ensures s != CallOk ==> s == ClosedConnection && statCode' == statCode && correspondents' == correspondents
      ensures s == CallOk ==> server.up
      ensures s != CallOk && server.up ==>
        exists ns :: Lists(ns, Correspondents(StateOf(at), thread).1) && |NamesBody(CODE_OK, ns)| >= WORD
      ensures s != CallOk && server.up ==> Oversized(StateOf(at), thread)
      ensures DeletesSafely(Past()) ==> server.up
    {
      var msg := SerializeEmpty(CORRESPONDENTS_REQUEST);
      ghost var e;
      s, statCode', correspondents', e :=
        AskNames(msg.bytes[..], CORRESPONDENTS_RESPONSE, statCode, correspondents, CORRESPONDENTS_REQUEST, []);
      at := e.at;
      server.UpAfterSafeDeletions();
    }

    /** Receiving a chat end to end. */
    method RecvTxt(sender: Str, statCode: nat, c: Chat)
        returns (s: CallStatus, statCode': nat, c': Chat, ghost at: Trace)
      requires Valid() && 4 + |sender| < WORD
      modifies this, server, server.database
      ensures Settled(s) && OthersOnly(old(Past()), at, thread) && TookInSession(at, CallRecv(sender))
      ensures s == if server.up && |ChatBody(CODE_OK, ChatDb.RecvTxt(StateOf(at), thread, sender).1)| < WORD
                   then CallOk else ClosedConnection
      ensures statCode' ==
        if s != CallOk then statCode
        else if thread !in StateOf(at).threads then CODE_UNAUTHORIZED
        else if ChatDb.RecvTxt(StateOf(at), thread, sender).0 == Ok then CODE_OK else CODE_USER_NOEXIST
      ensures c' == if s == CallOk && statCode' == CODE_OK then ChatDb.RecvTxt(StateOf(at), thread, sender).1 else c
      ensures s != CallOk && server.up ==> Oversized(StateOf(at), thread)
      ensures DeletesSafely(Past()) ==> server.up
    {
      statCode', c' := statCode, c;
      var msg := SerializeSingle(RECV_TXT_REQUEST, sender);
      SingleRoundTrip(sender);
      var answer;
      ghost var e;
      s, answer, e := Ask(msg.bytes[..], RECV_TXT_RESPONSE, RECV_TXT_REQUEST, SingleBody(sender));
      at := e.at;
      server.UpAfterSafeDeletions();
      ghost var found := ChatDb.RecvTxt(StateOf(at), thread, sender);
      ChatSize([]);
      if s != CallOk { return; }
      ChatAnswer(answer, found.1, if thread in StateOf(at).threads then CODE_USER_NOEXIST else CODE_UNAUTHORIZED);
      var r;
      r, statCode', c' := DeserializeChat(answer, statCode, c);
      s := if r == ReadOk then CallOk else ResponseError;
    }
  }

  /** What is read from a receive-text response. */
  lemma ChatAnswer(answer: Str, c: Chat, code: nat)
    requires 0 < code < WORD
    ensures |ChatBody(CODE_OK, c)| < WORD ==>
      Frame(RECV_TXT_RESPONSE, answer) == Frame(RECV_TXT_RESPONSE, ChatBody(CODE_OK, c)) ==>
      DecodeChat(answer) == Value(c)
    ensures Frame(RECV_TXT_RESPONSE, answer) == Frame(RECV_TXT_RESPONSE, PutU32(code)) ==>
      DecodeChat(answer) == Refused(code)
  {
    if |ChatBody(CODE_OK, c)| < WORD
       && Frame(RECV_TXT_RESPONSE, answer) == Frame(RECV_TXT_RESPONSE, ChatBody(CODE_OK, c))
    {
      SameFrame(RECV_TXT_RESPONSE, answer, ChatBody(CODE_OK, c));
      ChatRoundTrip(c);
    }
    if Frame(RECV_TXT_RESPONSE, answer) == Frame(RECV_TXT_RESPONSE, PutU32(code)) {
      SameFrame(RECV_TXT_RESPONSE, answer, PutU32(code));
      RefusalIsRead(code);
    }
  }

  lemma RefusalIsRead(code: nat)
    requires 0 < code < WORD
    ensures DecodeNames(PutU32(code)) == Refused(code) && DecodeChat(PutU32(code)) == Refused(code)
  {
    U32RoundTrip(code);
    assert PutU32(code)[..4] == PutU32(code);
  }
}
