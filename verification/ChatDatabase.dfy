/** The class `database` of database.cc.  Each method is proved against the function
    of ChatDb that specifies it.  One method body is one critical section of
    `mutex_`. */
module ChatDatabase {
  import opened Bytes
  import opened Glob
  import opened ChatDb

  class Database {
    var users: map<Str, User>
    var historicalUsers: set<Str>
    var threads: map<ThreadId, Str>

    ghost function State(): Db
      reads this
    {
      Db(users, historicalUsers, threads)
    }

    constructor ()
      ensures State() == EMPTY
    {
      users, historicalUsers, threads := map[], {}, map[];
    }

    method Login(t: ThreadId, username: Str, password: Str) returns (s: Status)
      modifies this`threads
      ensures (State(), s) == ChatDb.Login(old(State()), t, username, password)
    {
      if t in threads { return Error; }
      if username !in users { return Error; }
      if password != users[username].password { return Error; }
      threads := threads[t := username];
      s := Ok;
    }

    method Registration(username: Str, password: Str) returns (s: Status)
      modifies this`users, this`historicalUsers
      ensures (State(), s) == ChatDb.Register(old(State()), username, password)
    {
      if username in users || username in historicalUsers { return Error; }
      var u := User(username, password, map[]);
      users := users[username := u];
      historicalUsers := historicalUsers + {username};
      s := Ok;
    }

    method Logout(t: ThreadId) returns (s: Status)
      modifies this`threads
      ensures (State(), s) == ChatDb.Logout(old(State()), t)
    {
      if t !in threads { return Error; }
      threads := threads - {t};
      s := Ok;
    }

    method IsLoggedIn(t: ThreadId) returns (b: bool)
      ensures b == (t in State().threads)
    {
      b := t in threads;
    }

    method SendTxt(t: ThreadId, recipient: Str, txt: Str) returns (s: Status)
      requires Mirrored(State())
      modifies this`users
      ensures (State(), s) == ChatDb.SendTxt(old(State()), t, recipient, txt)
    {
      if t !in threads { return Error; }
      var name := threads[t];
      if name !in users { return OutOfRange; }
      if recipient !in users { return Error; }
      OpenChat(name, recipient);
      OpenChat(recipient, users[name].username);
      Push(name, recipient, Text(YOU, txt));
      Push(recipient, users[name].username, Text(OTHER, txt));
      OpeningChangesNothing(old(users), name, recipient, Text(YOU, txt), Text(OTHER, txt));
      s := Ok;
    }

    /** Insert an empty chat of `name` with `other` if there is none. */
    method OpenChat(name: Str, other: Str)
      requires name in users
      modifies this`users
      ensures users == old(users)[name := Opened(old(users)[name], other)]
    {
      var u := users[name];
      if other !in u.chats { users := users[name := u.(chats := u.chats[other := []])]; }
    }

    /** Push a text onto an existing chat. */
    method Push(name: Str, other: Str, text: Text)
      requires name in users && other in users[name].chats
      modifies this`users
      ensures users == old(users)[name := Append(old(users)[name], other, text)]
    {
      var u := users[name];
      users := users[name := u.(chats := u.chats[other := u.chats[other] + [text]])];
    }

    /** `c` is overwritten only when the call succeeds. */
    method RecvTxt(t: ThreadId, sender: Str, c: Chat) returns (s: Status, c': Chat)
      ensures s == ChatDb.RecvTxt(State(), t, sender).0
      ensures c' == if s == Ok then ChatDb.RecvTxt(State(), t, sender).1 else c
    {
      c' := c;
      if t !in threads { return Error, c; }
      if threads[t] !in users { return OutOfRange, c; }
      var recipient := users[threads[t]];
      if sender !in users { return Error, c; }
      if sender !in recipient.chats { c' := []; } else { c' := recipient.chats[sender]; }
      s := Ok;
    }

    /** `usernames` is overwritten only when the call succeeds. */
    method GetCorrespondents(t: ThreadId, usernames: seq<Str>) returns (s: Status, usernames': seq<Str>)
      ensures s == ChatDb.Correspondents(State(), t).0
      ensures s == Ok ==> Lists(usernames', ChatDb.Correspondents(State(), t).1)
      ensures s != Ok ==> usernames' == usernames
    {
      usernames' := usernames;
      if t !in threads { return Error, usernames; }
      if threads[t] !in users { return OutOfRange, usernames; }
      usernames' := [];
      var rest := users[threads[t]].chats.Keys;
      while rest != {}
        invariant rest <= users[threads[t]].chats.Keys
        invariant Lists(usernames', users[threads[t]].chats.Keys - rest)
        decreases rest
      {
        var u :| u in rest;
        ListsOneMore(usernames', users[threads[t]].chats.Keys - rest, u);
        assert users[threads[t]].chats.Keys - (rest - {u}) == users[threads[t]].chats.Keys - rest + {u};
        rest := rest - {u};
        usernames' := usernames' + [u];
      }
      s := Ok;
    }

    /** `users_` is ordered by name, so the loop meets the names in that order. */
    method GetUsernames(pattern: Str) returns (usernames: seq<Str>)
      ensures IsSearchResult(State(), pattern, usernames)
    {
      usernames := [];
      var rest := users.Keys;
      while rest != {}
        invariant rest <= users.Keys
        invariant forall u, v :: u in users.Keys - rest && v in rest ==> Less(u, v)
        invariant Increasing(usernames)
        invariant forall u :: u in usernames <==> u in users.Keys - rest && Wildcard(pattern, u)
        decreases rest
      {
        LeastExists(rest);
        assert exists u :: u in rest && forall v :: v in rest && v != u ==> Less(u, v) by { var u :| IsLeast(u, rest); }
        var name :| name in rest && forall v :: v in rest && v != name ==> Less(name, v);
        assert IsLeast(name, rest);
        var matched, _ := WildcardMatch(pattern, name);
        rest := rest - {name};
        if matched { usernames := usernames + [name]; }
      }
    }

    method DeleteUser(t: ThreadId) returns (s: Status)
      requires Mirrored(State())
      modifies this`users, this`threads
      ensures s == ChatDb.DeleteUser(old(State()), t).1
      ensures s != Dangling ==> State() == ChatDb.DeleteUser(old(State()), t).0
    {
      if t !in threads { return Error; }
      var username := threads[t];
      if username !in users { return OutOfRange; }
      // each correspondent forgets this user
      var correspondents := users[username].chats.Keys;
      var rest := correspondents;
      while rest != {}
        invariant rest <= correspondents && users.Keys == old(users.Keys) && threads == old(threads)
        invariant username in correspondents ==> username in rest
        invariant forall x :: x in users ==>
          users[x] == if x in correspondents - rest then WithoutChat(old(users)[x], username) else old(users)[x]
        decreases rest
      {
        var c :| c in rest;
        users := users[c := WithoutChat(users[c], username)];
        // a chat with itself: the entry the loop stands on is gone
        if c == username { return Dangling; }
        rest := rest - {c};
      }
      // the account itself
      AllForget(old(users), users, username);
      users := users - {username};
      // and its session
      threads := threads - {t};
      s := Ok;
    }
  }

  /** What the loop over all correspondents leaves of the users. */
  lemma AllForget(before: map<Str, User>, users: map<Str, User>, name: Str)
    requires name in before && users.Keys == before.Keys
    requires forall x :: x in users ==>
      users[x] == if x in before[name].chats then WithoutChat(before[x], name) else before[x]
    ensures users - {name} ==
      map x | x in before && x != name :: if x in before[name].chats then WithoutChat(before[x], name) else before[x]
  {
  }

  /** `s` lists the elements of `names`, each once. */
  ghost predicate Lists(s: seq<Str>, names: set<Str>) {
    (forall u :: u in s <==> u in names) && forall i, j :: 0 <= i < j < |s| ==> s[i] != s[j]
  }

  lemma ListsOneMore(s: seq<Str>, names: set<Str>, u: Str)
    requires Lists(s, names) && u !in names
    ensures Lists(s + [u], names + {u})
  {
  }

  ghost predicate IsLeast(u: Str, names: set<Str>) {
    u in names && forall v :: v in names && v != u ==> Less(u, v)
  }

  lemma LeastOfMore(a: Str, b: Str, names: set<Str>) returns (u: Str)
    requires a in names && IsLeast(b, names - {a})
    ensures IsLeast(u, names)
  {
    LessIsTotal(a, b);
    u := if Less(a, b) then a else b;
    forall v | v in names && v != u ensures Less(u, v) {
      if u == a && v != b { LessIsTransitive(a, b, v); }
    }
  }

  lemma {:induction false} LeastExists(names: set<Str>)
    requires names != {}
    ensures exists u :: IsLeast(u, names)
    decreases names
  {
    var a :| a in names;
    if names == {a} {
      assert IsLeast(a, names);
    } else {
      LeastExists(names - {a});
      var b :| IsLeast(b, names - {a});
      var u := LeastOfMore(a, b, names);
    }
  }

  function Opened(u: User, other: Str): User {
    if other in u.chats then u else u.(chats := u.chats[other := []])
  }

  lemma OpenedAppend(u: User, other: Str, text: Text)
    ensures Append(Opened(u, other), other, text) == Append(u, other, text)
  {
  }

  /** Opening both chats before pushing has no effect of its own. */
  lemma OpeningChangesNothing(users: map<Str, User>, name: Str, recipient: Str, mine: Text, theirs: Text)
    requires name in users && recipient in users
    ensures var u1 := users[name := Opened(users[name], recipient)];
            var u2 := u1[recipient := Opened(u1[recipient], name)];
            var u3 := u2[name := Append(u2[name], recipient, mine)];
            var v := users[name := Append(users[name], recipient, mine)];
            u3[recipient := Append(u3[recipient], name, theirs)] == v[recipient := Append(v[recipient], name, theirs)]
  {
    OpenedAppend(users[name], recipient, mine);
    OpenedAppend(users[recipient], name, theirs);
  }
}
