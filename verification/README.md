# Chat 262: verified models

This project models three pieces of the Chat 262 repository in Dafny and proves
what they are for.

* **Replication** (`chat262-replication`): a chat store on exactly three servers.
  The leader forwards each client write to the servers above it, one remote call
  at a time and under a fresh counter value, and performs it itself last. A server
  that gets a client write takes over and first replays the last request it has
  seen; a follower drops a request whose counter is not new. A client that loses
  its server moves on to the next one.
* **The chat database and its wire protocol** (`chat262-wire-protocol`): every chat
  is stored twice, sessions belong to threads, usernames are searched by patterns,
  and messages carry length tables written and read through moving cursors.
* **Handlers, client and screens** on top of these: each connection is served by a
  thread while the threads of all other connections use the same database.

## Layout

| file | content |
|---|---|
| `ReplicatedStore.dfy` | the replicated database, the three writes, logs of writes |
| `Replication.dfy` | the protocol as a state machine: crash, read, new write, next step |
| `ReplicationInvariant.dfy` | its invariant, proved transition by transition |
| `ReplicationSafety.dfy` | what holds in every run: agreement, durability, counters, retries, ends of requests |
| `ReplicatedAccounts.dfy` | accounts, inboxes and answers of the replicas, read off the client writes alone |
| `ReplicationRetries.dfy` | what a server knows of a write when it arrives, and what that says of its answer |
| `ReplicationReads.dfy` | what reads return, and which reads can be taken back |
| `ReplicationProcess.dfy` | the handlers, `replicate` and `send_request` over mutable processes; every execution is a run of the machine |
| `Bytes.dfy` | byte strings, their order, little-endian integers |
| `Glob.dfy` | the pattern matcher against the meaning of `*` |
| `ChatDb.dfy` | the database as a value, its calls, and runs of calls |
| `ChatLaws.dfy` | accounts, sessions and answers of the database, read off the calls alone |
| `ChatDatabase.dfy` | the class `database`, proved against it |
| `Wire.dfy` | the message format, round trips, canonical form, streams |
| `WireLayout.dfy` | where each field of a message lies |
| `WireCode.dfy` | the writers and readers with their cursors, proved against it |
| `Handlers.dfy` | the request handlers and the connection loop among other connections |
| `ServerRuns.dfy` | whole connections over the shared database |
| `Client.dfy` | the client joined to the server |
| `Screens.dfy` | the screens joined to the client |

## Assumptions

* Replication: a server that crashes stops for good, and a remote call raises
  exactly when its target is dead; one client write is in flight at a time, while
  reads and crashes fall anywhere; all servers start with equal stores. A handler
  run for a forwarded request is one step, since it makes no remote call of its own
  (`ReplicationSafety.TargetsAreFollowers`).
* Stored texts are compared on sender, receiver and body, because the `is_client`
  and `counter` fields of a stored request are overwritten later.
* A database call is one step, by its lock. Between any two calls of one handler
  the other connections may make any calls their own handlers can make.
* The endless loop of the screens is taken for any number of turns, so what it keeps
  holds after every turn; a connection is served for any finite input.
* A receive returns the requested bytes or finds the connection closed, and a send
  does not fail. `size_t` has 64 bits.

## What the code does differently from its documentation

* The protocol document says that `*` matches any characters and nothing else is
  special. The matcher reads a `*` of the target literally first, so it is right on
  a target exactly when there is no `*` before its last byte (`Glob.WildcardIsExact`).
  Registered names hold no `*`, so every search through the server is right
  (`Handlers.SearchIsExact`).
* The protocol document refuses usernames with whitespace; the handler refuses
  only the space character and `*`, and the model follows the handler.
* The protocol document gives the sender indicator 1 to the texts of the user who
  asks for the chat and 0 to those of the correspondent; the code uses 0 and 1 the
  other way round, and the model follows the code.
* Deleting an account while a second connection is logged in as it leaves that
  session without a user (`ChatDb.SessionsStayLive`, `ChatDb.SessionsLiveExactly`).
  The exception of its next lookup is caught by nobody and ends the server for every
  connection (`ChatDb.SharedDeletionFails`).
* Deleting an account that has a chat with itself makes the loop of `delete_user`
  erase the entry it stands on and go on from there, which is undefined
  (`ChatDb.SelfChatDeletionFails`). The model takes the process to end. An account
  has such a chat exactly if it has delivered a text to itself
  (`ChatDb.SelfChatIsDelivered`), which is allowed.
* Without these two kinds of deletion every session stays live, the server stays up
  (`ChatDb.RunsKeepSessionsLive`, `Handlers.Server.UpAfterSafeDeletions`), every
  complete request is answered, and every client call returns, unless its answer
  does not fit a message.
* After a failover, Register and DeleteAccount can be answered as failed although
  they have taken effect (`ReplicationSafety.RetriedAccountWriteIsRefused`), and an
  accepted text can be stored twice (`ReplicationSafety.RetriedTextIsDoubled`). Both
  happen exactly if the write is the last request the answering server had seen when
  it took over (`ReplicationRetries.AnswersAreForeseen`). A write is held at most once
  more than its leaders have crashed (`ReplicationSafety.RetriesAreBounded`).
* A client can read a write and later, from the next server, read without it. That
  takes a write in flight whose leader has crashed; exactly which reads can be taken
  back is said by `ReplicationReads.LaterReadsShowMore`,
  `ReplicationReads.UnlastingReads` and `ReplicationReads.UnlastingReadIsLost`.
* The total of a length table is a 32-bit sum. A body whose lengths wrap it passes
  the size checks and the reader would copy past the body; the model marks this
  outcome and says exactly when it occurs (`WireCode.ReadAll`,
  `Wire.WrappedSumIsAccepted`).

## Model

| member | source | states |
|---|---|---|
| `ReplicationSafety.LiveLogsAgree` | chat262-replication/server.py:34-75 | in every reachable state of every run, the logs of any two live servers are prefixes of one another and differ by at most one write, and each store is its log replayed |
| `ReplicationSafety.CountersAreExact` | chat262-replication/server.py:37-75 | in every run a replay after a takeover is performed by a live server 2 exactly when it lacks the write and leaves it with server 1's log; a forwarded client write is never dropped by a live follower, nor by the server that handles it |
| `ReplicationSafety.AnsweredWritesSurvive` | chat262-replication/server.py:47-71 | durability: a write that has been answered is in the log of every server alive at any later time, whatever crashes lie between |
| `ReplicationSafety.ReplyMeansAgreement` | chat262-replication/server.py:104-136 | at the moment of any reply all live servers hold equal stores and logs, the replier is the lowest live server, and the write is in them |
| `ReplicationSafety.RetriesAreBounded` | chat262-replication/client.py:32-50 | a write whose leader crashed c times under it is in a live log at most 1 + c times, at least once when answered, and its copies are next to one another |
| `ReplicationSafety.StoreIsWritesInOrder` | chat262-replication/server.py:123-136 | a live store is the client writes in the order of issue, each performed at most 1 + c times; between writes its accounts are those of performing each write once |
| `ReplicatedAccounts.AccountsAreRegistrations` | chat262-replication/server.py:123-136 | performing a sequence of writes leaves a name registered with a password if and only if it was so from the start, or a registration of a free name gave that password, and no later write deletes the name with that password |
| `ReplicatedAccounts.DeletionTakesThePassword` | chat262-replication/server.py:183-200 | after a registration of a free name with p and no deletion with p since, a deletion with q succeeds if and only if q is p; with another password it changes nothing |
| `ReplicatedAccounts.ReplicasHoldTheWrites` | chat262-replication/server.py:224-235 | in every run a live server holds exactly the accounts that the writes issued so far leave, read off the writes alone, and exactly the texts between users registered at their time, each as often as its log holds it |
| `ReplicatedAccounts.AnswersFollowTheWrites` | chat262-replication/server.py:207-241 | in every run an answer is success if and only if the writes issued before accept the write (a free name; the password of the account; two registered users), and it is not an account write that the answering server had already seen |
| `ReplicationSafety.TargetsAreFollowers` | chat262-replication/server.py:48-75 | no forwarded request is ever addressed to a server that believes it leads |
| `ReplicationSafety.RequestsEnd` | chat262-replication/client.py:32-50 | each step of a write in flight lowers a rank below 40 and no other event changes it, so every write ends |
| `ReplicationSafety.RequestsEndWell` | chat262-replication/client.py:32-50 | a write ends either answered by the lowest live server, which is the server its client had moved to, or with all three servers dead and the client out of servers |
| `ReplicationSafety.AnswersAreExact` | chat262-replication/server.py:123-136 | in every run an answer is what became of the write if and only if the write is a text, fails anyway, or has been performed once; so always if no leader crashed under it |
| `ReplicationSafety.WriteIsRetried` | chat262-replication/server.py:37-75 | for every write and every initial store, a run in which both live servers have performed the write twice and answer with the outcome of the second time |
| `ReplicationSafety.RetriedAccountWriteIsRefused` | chat262-replication/server.py:123-136 | so for every registration or deletion that would succeed, a run in which both live servers have done it once and for all, and it is answered as a failure |
| `ReplicationSafety.RetriedTextIsDoubled` | chat262-replication/server.py:207-241 | and for every text that is accepted, a run in which both live servers store it twice under one answer of success |
| `ReplicationRetries.AnswersAreForeseen` | chat262-replication/server.py:37-75 | what an answer will say is settled when the write reaches the answering server: the server then adds the write to its log once; it stores the write exactly once if and only if the write was not the last request it had seen; the answer is wrong if and only if it was and the write is an account write that succeeds on what the earlier writes leave |
| `ReplicationRetries.HeldMeansSeen` | chat262-replication/server.py:34-45 | when a write reaches a server, the server holds it already if and only if it is not yet the leader and its `last_request` is that write |
| `ReplicationRetries.RunKeepsSeen` | chat262-replication/server.py:34-75 | at every point of every run, among the servers a write in flight may still reach, those that hold it are those that have last seen it, and a replay of it is a replay of `last_request` |
| `ReplicationReads.ReadsShowAnsweredWrites` | chat262-replication/client.py:32-50 | a read is answered by the lowest live server, from a store that is the writes in the order of issue, every answered one at least once; between writes its accounts are those of performing each write once |
| `ReplicationReads.LaterReadsShowMore` | chat262-replication/server.py:244-255 | of any two reads of any clients, the later shows the writes of the earlier but for at most the last, and all of them if every live server held them at the earlier read |
| `ReplicationReads.UnlastingReadIsLost` | chat262-replication/client.py:39-50 | otherwise the earlier read can be taken back: some continuation of the run lets the same client read the same writes without the last |
| `ReplicationReads.UnlastingReads` | chat262-replication/server.py:47-71 | a read is of that kind only if server 0 is dead, server 1 answers, server 2 is alive, and what server 2 lacks is the write in flight, which nobody has answered; so a read between two writes is never taken back |
| `ReplicationReads.ReadsCanGoBack` | chat262-replication/client.py:39-50 | for every write and every initial store, a run in which one client reads twice and the second time finds the store as it was before the write it had seen |
| `ReplicationReads.ReadsComeBack` | chat262-replication/client.py:32-50 | once no write is in flight, a read shows every write that any earlier read showed |
| `ReplicatedStore.LastOutcome` | chat262-replication/server.py:123-136 | the last of k deliveries has the outcome of the write itself if and only if the write is a text, fails anyway, or k is 1 |
| `ReplicationSafety.RunKeepsInv` | chat262-replication/server.py:34-75 | the invariant (roles, counters, logs, stores, answers) holds at every point of every run |
| `ReplicationInvariant.StepKeepsInv` | chat262-replication/server.py:34-75 | every crash, read, new write and step of a write in flight keeps the invariant |
| `ReplicationInvariant.ForwardIsPerformed` | chat262-replication/server.py:57-66 | a forwarded client write reaches a live follower with a number above its counter, and the follower ends with the leader's log and the write |
| `ReplicationInvariant.ReplayIsExact` | chat262-replication/server.py:37-45 | a replay by server 1 carries exactly the number server 2 would have: it is performed if and only if server 2 lacks the write |
| `ReplicationInvariant.LocalIsPerformed` | chat262-replication/server.py:107-136 | the handling server performs the write itself exactly once, whatever failed calls have left in `is_client` and `counter`, and reports the outcome on its own store |
| `ReplicatedStore.RepeatedDelivery` | chat262-replication/server.py:183-200 | k deliveries of one write: account writes count once; a text is stored k times, in its receiver's inbox only |
| `ReplicatedStore.AccountWritesAreIdempotent` | chat262-replication/server.py:123-136 | registering or deleting twice in a row leaves the store as doing it once |
| `ReplicatedStore.ReplayIsByRound` | chat262-replication/server.py:228-235 | replaying an ascending log performs the writes round by round, each as often as the log holds it |
| `ReplicatedStore.RetriesLeaveAccountsAlone` | chat262-replication/server.py:183-200 | when every write is held at least once, retries are invisible in the accounts |
| `ReplicationProcess.ServerParams.Perform` | chat262-replication/server.py:119-136 | the database part of the three write handlers is the specified write, with its success flag |
| `ReplicationProcess.ServerParams.ApplyRequest` | chat262-replication/server.py:108-136 | the duplicate test on `counter` and the write together are the specified local step |
| `ReplicationProcess.CallTarget` | chat262-replication/server.py:50-71 | one pass of the forwarding loop over two mutable processes, with the mutation of the request, is the specified remote call |
| `ReplicationProcess.Deployment.ForwardAll` | chat262-replication/server.py:48-71 | the forwarding loop, with any servers crashing before each call, continues the recorded run of the machine; if its own server lives it has visited every stub |
| `ReplicationProcess.Deployment.ReplicateForClient` | chat262-replication/server.py:34-71 | takeover, replay of the last request and forwarding of the new one continue the recorded run of the machine and end ready for the local write |
| `ReplicationProcess.Deployment.HandleWrite` | chat262-replication/server.py:207-241 | a handler under arbitrary crashes either answers with all live servers agreeing, or its server has died; the answer is the outcome of the last copy, which is the outcome of the write exactly if the write is a text, fails anyway, or was performed once |
| `ReplicationProcess.Deployment.NextLeader` | chat262-replication/client.py:39-50 | after a failed call the client moves to the next server; when none is left all three are dead |
| `ReplicationProcess.Deployment.SendRequest` | chat262-replication/client.py:32-50 | under every choice of crashes the client ends with such an answer of the lowest live server, the write being held between 1 and 1 + c times by all live servers, or with all servers dead; the execution continues the recorded run of the machine |
| `ReplicationProcess.Deployment.ExecutionIsRun` | chat262-replication/server.py:34-71 | whatever the processes and clients have executed is a run of the machine that ends in their present state |
| `ReplicationProcess.Deployment.constructor` | chat262-replication/server.py:278-296 | three servers with equal stores, server 0 leading, counters at zero |
| `Glob.WildcardIsExact` | chat262-wire-protocol/src/server/database.cc:178-221 | the matcher agrees with the meaning of `*` for every pattern if and only if the target has no `*` before its last byte |
| `Glob.WildcardIsRight` | chat262-wire-protocol/src/server/database.cc:178-221 | on such a target, and so on every target without `*`, it answers yes exactly when replacing each `*` by some string gives the target |
| `Glob.WildcardIsSound` | chat262-wire-protocol/src/server/database.cc:178-221 | an answer yes is right for every pattern and every target |
| `Glob.EarlierStarIsMissed` | chat262-wire-protocol/src/server/database.cc:187-196 | a target with an earlier `*` has a pattern that matches it and is answered no |
| `Glob.LastStarSuffices` | chat262-wire-protocol/src/server/database.cc:192-200 | the exchange argument: once the literals between two stars have been found, their first place is as good as any, so the earlier star may be forgotten |
| `Glob.ScanIsComplete` | chat262-wire-protocol/src/server/database.cc:184-213 | from every state of the four indices that is consistent with a match, the matcher answers yes |
| `Glob.WildcardMatch` | chat262-wire-protocol/src/server/database.cc:178-221 | the loop computes the specified scan within (\|pattern\| + 1) * (\|target\| + 1) turns |
| `Bytes.LessIsByteOrder` | chat262-wire-protocol/src/server/database.cc:67-77 | one string is before another exactly if it ends or has the smaller byte at their first difference |
| `ChatDb.ChatsRefineHistory` | chat262-wire-protocol/src/server/database.cc:29-46 | in every run of calls by any threads, for live a and b, a's chat with b is the list of everything delivered, restricted to the pair and tagged; a chat exists exactly if the pair has written; chats are mirrored |
| `ChatLaws.DatabaseAgrees` | chat262-wire-protocol/src/server/database.cc:3-59 | in every run the process survives, a name is live with a password if and only if its first registration gave it and nobody logged in as it has deleted it since; a thread is logged in as a user if and only if it gave that password while logged in as nobody and has not ended the session since; read off the calls alone |
| `ChatLaws.LoginsFollowTheCalls` | chat262-wire-protocol/src/server/database.cc:3-59 | a login is accepted exactly with the password of a live account and from no session; a registration exactly if nobody has asked for the name before; a logout exactly from a session |
| `ChatLaws.PasswordsLast` | chat262-wire-protocol/src/server/database.cc:153-176 | whatever else is called, an account keeps the password of its registration until somebody logged in as it deletes it: until then a login from no session is accepted with that password and with no other |
| `ChatLaws.TextsFollowTheCalls` | chat262-wire-protocol/src/server/database.cc:79-151 | in a session of a live user a text is delivered exactly if its recipient is live; a chat read is the restriction of everything delivered; the correspondents are the live users with a text in common |
| `ChatLaws.SessionsAreNeeded` | chat262-wire-protocol/src/server/database.cc:79-95 | without a session every call that needs one is refused and changes nothing; a lookup fails exactly for a session whose account is gone |
| `ChatLaws.SearchesFollowTheCalls` | chat262-wire-protocol/src/server/database.cc:67-77 | a search answers exactly the names with an account that the matcher accepts, each once, earlier ones smaller at the first byte in which they differ |
| `ChatLaws.UsedIsAsked` | chat262-wire-protocol/src/server/database.cc:33-43 | a name counts as used exactly if somebody has asked to register it |
| `ChatDb.CallsKeepRecords` | chat262-wire-protocol/src/server/database.cc:79-113 | every single call keeps the chats equal to the restriction of the delivered texts, and a successful text adds one entry to that list |
| `ChatDb.SendAppends` | chat262-wire-protocol/src/server/database.cc:79-113 | a text adds the tagged entry to both copies and to no other chat; to both tags, in order, for a text to oneself |
| `ChatDb.DeleteKeepsRecords` | chat262-wire-protocol/src/server/database.cc:153-176 | deletion walks the mirror and leaves the chats of all other users as they were |
| `ChatDb.SessionsStayLive` | chat262-wire-protocol/src/server/database.cc:153-176 | a call leaves every session naming a live user if and only if it is not a deletion of an account with a second session |
| `ChatDb.RunsKeepSessionsLive` | chat262-wire-protocol/src/server/database.cc:87-90 | in every run without such a deletion every session names a live user and no `users_.at` lookup fails, by reads or by writes; the process then lasts if and only if no account with a chat with itself is deleted |
| `ChatDb.SessionsLiveExactly` | chat262-wire-protocol/src/server/database.cc:163-174 | all sessions name live users at every point of a run if and only if no account is deleted while a second connection is logged in as it |
| `ChatDb.SelfChatDeletionFails` | chat262-wire-protocol/src/server/database.cc:163-172 | a concrete run, without a second connection, in which a user who has written to itself deletes its account and the loop goes on from an erased entry |
| `ChatDb.SelfChatIsDelivered` | chat262-wire-protocol/src/server/database.cc:102-110 | in every run a logged-in user has a chat with itself, so that its deletion fails in this way, if and only if it has delivered a text to itself |
| `ChatDb.SharedDeletionFails` | chat262-wire-protocol/src/server/database.cc:163-174 | a concrete run in which such a deletion makes the next text of the second session fail its lookup, which ends the server |
| `ChatDb.SessionsAreOwn` | chat262-wire-protocol/src/server/database.cc:3-27 | a session entry is changed only by its own thread |
| `ChatDb.NamesAreSpent` | chat262-wire-protocol/src/server/database.cc:29-46 | a used name stays used, and once dead stays dead, for the rest of every run |
| `ChatDb.SentIsKept` | chat262-wire-protocol/src/server/database.cc:79-113 | a delivered text is in the sender's chat in every later state in which both users live |
| `ChatDb.RegisteredOnce` | chat262-wire-protocol/src/server/database.cc:33-43 | over a whole run each username is registered successfully at most once |
| `ChatDb.DeletedForGood` | chat262-wire-protocol/src/server/database.cc:153-176 | after a deletion the name never again appears as a user, in any chat list or in a search result, and the chats between others are unchanged by it |
| `ChatDatabase.Database.Login` | chat262-wire-protocol/src/server/database.cc:3-27 | the session, the status and nothing else changes as specified |
| `ChatDatabase.Database.Registration` | chat262-wire-protocol/src/server/database.cc:29-46 | an unused name gets a user without chats and becomes used; a used name is refused |
| `ChatDatabase.Database.Logout` | chat262-wire-protocol/src/server/database.cc:48-59 | the session of the thread goes, if there is one |
| `ChatDatabase.Database.SendTxt` | chat262-wire-protocol/src/server/database.cc:79-113 | opening both chats and pushing both copies in place is the specified delivery, also for a text to oneself |
| `ChatDatabase.Database.RecvTxt` | chat262-wire-protocol/src/server/database.cc:115-135 | the chat with a live user, empty if none; the output is untouched unless the call succeeds |
| `ChatDatabase.Database.GetCorrespondents` | chat262-wire-protocol/src/server/database.cc:137-151 | lists the chat keys, each once; the output is untouched unless the call succeeds |
| `ChatDatabase.Database.GetUsernames` | chat262-wire-protocol/src/server/database.cc:67-77 | exactly the live names the matcher accepts, each once and in ascending order |
| `ChatDatabase.Database.DeleteUser` | chat262-wire-protocol/src/server/database.cc:153-176 | the in-place loop over the correspondents erases the account's chat from each of them and nothing else, then the account and the session; it goes on from an erased entry if and only if the account has a chat with itself |
| `Wire.NamesRoundTrip` | chat262-wire-protocol/src/chat262_protocol/chat262_protocol.cc:321-433 | decoding an encoded list of names gives the list, for every list whose body fits 32 bits |
| `Wire.ChatRoundTrip` | chat262-wire-protocol/src/chat262_protocol/chat262_protocol.cc:547-670 | decoding an encoded chat gives the same senders and texts, for every chat whose body fits 32 bits |
| `Wire.NamesAreCanonical` | chat262-wire-protocol/src/chat262_protocol/chat262_protocol.cc:367-433 | an accepted list body is byte for byte what the writer makes of the decoded list |
| `Wire.ChatIsCanonical` | chat262-wire-protocol/src/chat262_protocol/chat262_protocol.cc:598-670 | an accepted chat body is byte for byte what the writer makes of the decoded chat |
| `Wire.WrappedSumIsAccepted` | chat262-wire-protocol/src/chat262_protocol/chat262_protocol.cc:367-433 | a concrete body with two declared lengths of 2^31 passes the size checks although it holds no strings |
| `Wire.PairRoundTrip` | chat262-wire-protocol/src/chat262_protocol/chat262_protocol.cc:86-134 | decoding an encoded pair of strings gives the pair |
| `Wire.PairIsCanonical` | chat262-wire-protocol/src/chat262_protocol/chat262_protocol.cc:108-134 | an accepted two-string body is byte for byte what the writer makes of the pair |
| `Wire.SingleRoundTrip` | chat262-wire-protocol/src/chat262_protocol/chat262_protocol.cc:284-319 | decoding an encoded string gives the string |
| `Wire.SingleIsCanonical` | chat262-wire-protocol/src/chat262_protocol/chat262_protocol.cc:302-319 | an accepted one-string body is byte for byte what the writer makes of the string |
| `Wire.HeaderRoundTrip` | chat262-wire-protocol/src/chat262_protocol/chat262_protocol.cc:74-84 | reading a written header gives its version, type and body length |
| `Wire.FrameIsCutOff` | chat262-wire-protocol/src/chat262_protocol/chat262_protocol.cc:74-84 | the header length equals the body, so a message is cut off the front of any stream exactly |
| `Wire.StreamsAreUnambiguous` | chat262-wire-protocol/src/chat262_protocol/chat262_protocol.cc:74-84 | a concatenation of messages can be cut back in one way only |
| `WireLayout.HeaderLayout` | chat262-wire-protocol/docs/chat262_protocol.md:51-90 | the eight bytes of a header one by one: version 1, type and body length, least significant bytes first |
| `WireLayout.PairLayout` | chat262-wire-protocol/docs/chat262_protocol.md:110-126 | both lengths come first, then the first string, then the second |
| `WireLayout.SingleLayout` | chat262-wire-protocol/docs/chat262_protocol.md:260-272 | the length comes first, then the string |
| `WireLayout.NamesLayout` | chat262-wire-protocol/docs/chat262_protocol.md:288-317 | status, count, length i at 8 + 4i, and name i behind the table and the names before it |
| `WireLayout.ChatLayout` | chat262-wire-protocol/docs/chat262_protocol.md:410-447 | status, count, the sender of text i at 8 + i, its length behind the senders, its bytes behind the table and the texts before it |
| `Bytes.BytesOfU32` | chat262-wire-protocol/docs/chat262_protocol.md:60-60 | the four bytes of a 32-bit integer, least significant first |
| `Bytes.GetPut` | chat262-wire-protocol/src/chat262_protocol/chat262_protocol.cc:80-82 | little-endian reading followed by writing gives the same bytes |
| `Bytes.PutGet` | chat262-wire-protocol/src/chat262_protocol/chat262_protocol.cc:80-82 | little-endian writing followed by reading gives the same number |
| `WireCode.SerializeNames` | chat262-wire-protocol/src/chat262_protocol/chat262_protocol.cc:321-365 | the two-cursor writer produces the specified frame, stays in bounds, and stores to each byte of the message exactly once |
| `WireCode.SerializeChat` | chat262-wire-protocol/src/chat262_protocol/chat262_protocol.cc:547-596 | the three-cursor writer produces the specified frame, stays in bounds, and stores to each byte of the message exactly once |
| `WireCode.WriteChatTurn` | chat262-wire-protocol/src/chat262_protocol/chat262_protocol.cc:581-593 | one turn writes one sender, one length and one text, each over bytes not stored to before, and changes no other byte |
| `WireCode.WriteStrings` | chat262-wire-protocol/src/chat262_protocol/chat262_protocol.cc:349-363 | the loop over names fills the length table and the strings, storing to each byte once |
| `WireCode.Outgoing.Memcpy` | chat262-wire-protocol/src/chat262_protocol/chat262_protocol.cc:354-361 | a copy replaces exactly its own bytes, none of which has been stored to before |
| `WireCode.SerializePair` | chat262-wire-protocol/src/chat262_protocol/chat262_protocol.cc:86-106 | the two-string requests are written as specified |
| `WireCode.SerializeSingle` | chat262-wire-protocol/src/chat262_protocol/chat262_protocol.cc:284-300 | the one-string requests are written as specified |
| `WireCode.SerializeCode` | chat262-wire-protocol/src/chat262_protocol/chat262_protocol.cc:136-148 | the status code responses are written as specified |
| `WireCode.DeserializeNames` | chat262-wire-protocol/src/chat262_protocol/chat262_protocol.cc:367-433 | the reader accepts exactly the specified bodies, stays in bounds unless the 32-bit sum has wrapped, and leaves its outputs alone on a size mismatch or an error code |
| `WireCode.DeserializeChat` | chat262-wire-protocol/src/chat262_protocol/chat262_protocol.cc:598-670 | the same for chats |
| `WireCode.DeserializePair` | chat262-wire-protocol/src/chat262_protocol/chat262_protocol.cc:108-134 | accepts exactly the bodies whose declared lengths fill them |
| `WireCode.ReadTable` | chat262-wire-protocol/src/chat262_protocol/chat262_protocol.cc:404-415 | the lengths as stored, and their sum in 32-bit arithmetic |
| `WireCode.ReadAll` | chat262-wire-protocol/src/chat262_protocol/chat262_protocol.cc:417-428 | the copies of the strings stay in bounds if and only if the lengths, added up without wrapping, stay below 2^32; then the strings are the specified ones |
| `Handlers.Server.HandleClient` | chat262-wire-protocol/src/server/server.cc:153-248 | a connection answers its complete requests one by one, in order, each with one well-formed message of the right type and as its handler promises, as long as the server is up; between two requests only other connections make calls; a connection that ends while the server is up leaves no session; the server stays up if no account is deleted that a second connection is logged in as or that has a chat with itself |
| `Handlers.Server.AnswerNext` | chat262-wire-protocol/src/server/server.cc:172-242 | one turn of that loop: an incomplete request ends it, another version is answered by 301, a complete request is served and cut off the input, unless some call of any connection has ended the process, before the reply leaves at the latest |
| `Handlers.Server.HandleRegistration` | chat262-wire-protocol/src/server/server.cc:321-362 | the name and password rules, then registration, with the right status code |
| `Handlers.Server.HandleLogin` | chat262-wire-protocol/src/server/server.cc:364-397 | any earlier session is over; credentials are refused only if at the moment of the login the name is not live or the password is wrong |
| `Handlers.Server.HandleLogout` | chat262-wire-protocol/src/server/server.cc:399-421 | logs out the thread's own session; unauthorized exactly if there was none |
| `Handlers.Server.HandleListAccounts` | chat262-wire-protocol/src/server/server.cc:423-449 | unauthorized exactly without a session; else the live names that match the pattern, in order, in one message |
| `Handlers.Server.HandleSendTxt` | chat262-wire-protocol/src/server/server.cc:451-482 | the text is refused as to an unknown user only if the recipient is not live at the moment of sending |
| `Handlers.Server.HandleRecvTxt` | chat262-wire-protocol/src/server/server.cc:484-517 | the chat as it is at one moment, refused as with an unknown user only if that user is not live then |
| `Handlers.Server.HandleCorrespondents` | chat262-wire-protocol/src/server/server.cc:519-543 | the user's correspondents as they are at one moment |
| `Handlers.Server.HandleDelete` | chat262-wire-protocol/src/server/server.cc:545-566 | deletes the session's own account; unauthorized exactly without a session; no answer if its user is gone or has a chat with itself |
| `Handlers.SearchIsExact` | chat262-wire-protocol/src/server/server.cc:445-448 | because registered names passed the name rules, the matcher's answers are exact on every live name |
| `Handlers.MatchListsAreExact` | chat262-wire-protocol/src/server/server.cc:445-448 | the names sent are exactly those with an account that match the pattern, each once and in the order of their bytes |
| `Handlers.AccountsObeyRules` | chat262-wire-protocol/src/server/server.cc:330-352 | every account has a name of 4 to 40 bytes without star or space and a password of 4 to 60 bytes |
| `Handlers.OthersKeepSession` | chat262-wire-protocol/src/server/database.cc:3-27 | whatever any number of calls of other connections do, this thread's session stays as it is |
| `Handlers.Server.UpAfterSafeDeletions` | chat262-wire-protocol/src/server/database.cc:153-176 | the process ends only if some account has been deleted while a second connection was logged in as it or while it had a chat with itself; the second kind of deletion always ends it |
| `Handlers.ReplyIsAnswer` | chat262-wire-protocol/src/server/server.cc:191-242 | every message sent is a frame whose type answers the request's, 303 for an unreadable body and 302 for an unknown type |
| `ServerRuns.ConversationIsForeign` | chat262-wire-protocol/src/server/server.cc:153-248 | what one connection does, with the others beside it, is for any third connection only the doing of others: the handlers meet the assumption they make of one another |
| `ServerRuns.ConversationExtends` | chat262-wire-protocol/src/server/server.cc:153-248 | through a whole connection, with any others at work, every stored chat is the restriction of one list to which texts are only appended |
| `Client.Client.Registration` | chat262-wire-protocol/src/client/client.cc:82-112 | client, wire, handler and wire back are one registration at one moment, with the right status code; the connection is lost exactly if the server has ended, which takes the deletion of an account that is shared or has a chat with itself |
| `Client.Client.Login` | chat262-wire-protocol/src/client/client.cc:50-80 | the same for a login after the end of any earlier session |
| `Client.Client.Logout` | chat262-wire-protocol/src/client/client.cc:114-142 | the same for a logout |
| `Client.Client.ListAccounts` | chat262-wire-protocol/src/client/client.cc:144-174 | the list received is exactly the live names that match, in ascending order; it is untouched on any other status; the connection is lost only with the server or to a list that does not fit |
| `Client.Client.SendTxt` | chat262-wire-protocol/src/client/client.cc:176-206 | the same for a text: one delivery at one moment |
| `Client.Client.RecvTxt` | chat262-wire-protocol/src/client/client.cc:208-238 | the chat received is the stored chat at one moment; it is untouched on any other status; the connection is lost exactly if the server has ended or the chat does not fit a message |
| `Client.Client.RecvCorrespondents` | chat262-wire-protocol/src/client/client.cc:240-271 | the list received is the user's correspondents at one moment; it is untouched on any other status; the connection is lost only with the server or to a list that does not fit |
| `Client.Client.DeleteAccount` | chat262-wire-protocol/src/client/client.cc:273-301 | the same for a deletion; the connection is always lost by deleting an account with a chat with itself |
| `Client.Client.Ask` | chat262-wire-protocol/src/client/client.cc:303-362 | the response of the expected type is read whole; a header error only for an unreadable request, a closed connection only when the server has ended, by this request or another connection and at the latest before the reply leaves, or its answer would not fit |
| `Screens.Interface.Start` | chat262-wire-protocol/src/client/interface.cc:52-361 | in every run, with any user and any other connections, a screen past login is shown only while the session is exactly `username_`, without another login, logout or deletion since; other screens only without a session; the failure screens of search, chat list and deletion are never shown; what a screen shows is what the database held at a moment since the login; the connection is lost only with the server or to an answer that does not fit |
| `Screens.Interface.TakeTurn` | chat262-wire-protocol/src/client/interface.cc:61-360 | one turn of the switch keeps all that and follows an edge that leads to none of those failure screens, or finds the connection closed, which means that the server has ended or an answer did not fit a message; no other error is ever returned |
| `Screens.Interface.MainMenuTurn` | chat262-wire-protocol/src/client/interface.cc:161-187 | the first screen follows exactly an answered logout, which is never refused; the other screens follow without a call; or the server has ended |
| `Screens.Interface.OpenChatsTurn` | chat262-wire-protocol/src/client/interface.cc:189-200 | a request for the chat list that is answered is never refused |
| `Screens.Interface.FetchMatches` | chat262-wire-protocol/src/client/interface.cc:301-309 | a search that is answered is never refused and shows exactly the live names that match at the moment of the answer |
| `Screens.Interface.DeleteAccountTurn` | chat262-wire-protocol/src/client/interface.cc:322-344 | the account is deleted exactly on the second choice; a deletion that is answered has removed the account and ended the session; the other keys lead back to the menu and call nothing |
| `Screens.Interface.SendTxtTurn` | chat262-wire-protocol/src/client/interface.cc:247-289 | sending with the listener at work: on escape only chats have been requested; otherwise the text has been sent, the refusal is shown if and only if the correspondent was not live then, and the chat is shown again if and only if the correspondent was live at a second request after that; it then holds the text just sent |
| `Screens.Interface.FetchChat` | chat262-wire-protocol/src/client/interface.cc:229-240 | the chat shown after a call was held by the database during the call |
| `Screens.Interface.SendTyped` | chat262-wire-protocol/src/client/interface.cc:266-279 | the text is refused if and only if the correspondent has no account at the moment of sending |
| `Screens.Interface.BackgroundListener` | chat262-wire-protocol/src/client/interface.cc:363-382 | any number of background requests change no session and keep the chat on screen one the database has held since the login |
| `Screens.Interface.RegistrationTurn` | chat262-wire-protocol/src/client/interface.cc:115-130 | unless the user escapes, which calls nothing, one registration has been made, and the success screen follows if and only if nobody had asked for the name before it |
| `Screens.Interface.LoginTurn` | chat262-wire-protocol/src/client/interface.cc:82-97 | unless the user escapes, which calls nothing, one login has been made, and the menu follows if and only if the password was that of the account at its moment |
| `Screens.Interface.RecvTxtTurn` | chat262-wire-protocol/src/client/interface.cc:229-240 | one request for the chat has been made, and the chat is shown if and only if the correspondent was live at its moment |
| `Screens.Interface.OpenChatsSuccessTurn` | chat262-wire-protocol/src/client/interface.cc:202-213 | a chat is opened only with a correspondent from the list shown |
| `Screens.KeysReachSuccessors` | chat262-wire-protocol/src/client/interface.cc:61-80 | from a screen that only waits for a key, exactly the screens that may follow can be reached |

## Left out

- Replication counters are unbounded naturals; a wrap-around of the 64-bit field is not modelled.
- Restarts of a replication server, and the pickle files it would load, are outside the runs.
- Two client writes in flight at once: `server.py` has no lock, and its handler threads could interleave inside one write.
- A remote call that times out although its target lives is not modelled; the client treats one second of silence as a crash.
- `ReceiveMessage` may insert an empty list into the defaulting dictionary; an absent inbox and an empty one are the same here.
- The texts of replication replies and the formatting of what reads return: a read (`Login`, `GetUsers`, `ReceiveMessage`) is the store it is answered from.
- `chat262-grpc`: the same operations without replication would add only easy members.
- Sockets, partial sends and receives, signals, address parsing and logging: one receive is an exact read.
- Send errors, which only end a connection earlier.
- Messages whose body would reach 2^32 bytes: the writers truncate the length; here a response of that size ends the run (`TooLong`), and a request must fit.
- ChatDatabase.Database.DeleteUser: what the database holds after the loop has gone on from an erased entry is not defined and not modelled; the process is taken to end there, and what is proved of a database in a longer run says nothing of that database.
- The map of sessions is keyed by thread; that a finished thread's identifier is reused is modelled, the operating system's choice of identifiers is not.
- `src/chat262_protocol` readers of the four fixed-size special responses, and the two lookup tables of names: they follow from the integer codec.
- Terminal handling, drawing and key reading: each user choice is arbitrary; typed input of a refused length stands for the loop that asks again.
- A typed text of nearly 2^32 bytes is not modelled.
- After the background listener has lost the connection, the model lets the next call of the main loop fail without sending.
- Client.Client.SendTxt: like every call, it is made on a connection that has not been found closed before; a later call could not reach the server.
