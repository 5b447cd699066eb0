/** Whole connections over the shared database: every request takes effect by at
    most one call, what one connection does is what the others allow for, and the
    doubly stored chats stay the restriction of one append-only list. */
module ServerRuns {
  import opened Bytes
  import opened ChatDb
  import opened Wire
  import opened Handlers

  /** Only the others have run, or besides them this thread's session has ended. */
  ghost predicate Prepared(trace: Trace, later: Trace, t: ThreadId) {
    OthersOnly(trace, later, t) || SessionEnded(trace, later, t)
  }

  /** No call, or one call of this thread that a handler can make. */
  ghost predicate InOneCall(at: Trace, after: Trace, t: ThreadId) {
    after == at || (|after| == |at| + 1 && at <= after && after[|at|].thread == t && Admissible(after[|at|].call))
  }

  /** Whatever the request, its handler is at most one call made at one moment. */
  lemma RequestIsOneCall(e: Exchange, t: ThreadId)
    requires IsServed(e, t)
    ensures Prepared(e.before, e.at, t) && InOneCall(e.at, e.after, t)
  {
  }

  /** Every call between the two moments is one that a handler can make. */
  ghost predicate Grows(trace: Trace, later: Trace) {
    trace <= later && forall i :: |trace| <= i < |later| ==> Admissible(later[i].call)
  }

  lemma PreparedGrows(trace: Trace, later: Trace, t: ThreadId)
    requires Prepared(trace, later, t)
    ensures Grows(trace, later)
  {
    if !OthersOnly(trace, later, t) {
      var k :| |trace| <= k < |later| && later[k] == Turn(t, CallLogout)
            && OthersOnly(trace, later[..k], t) && OthersOnly(later[..k + 1], later, t);
      assert forall i :: |trace| <= i < k ==> later[..k][i] == later[i];
    }
  }

  lemma {:induction false} ConversationGrowsTrace(log: seq<Exchange>, t: ThreadId, start: Trace)
    requires IsConversation(log, t, start)
    ensures Grows(start, TraceAfter(log, start))
  {
    if log != [] {
      var front, e := log[..|log| - 1], log[|log| - 1];
      ConversationGrowsTrace(front, t, start);
      RequestIsOneCall(e, t);
      PreparedGrows(e.before, e.at, t);
    }
  }

  /** What a connection does, and what it allows the others to do, is for every
      third connection the doing of others: the handlers' assumption about the
      other connections is met by the handlers themselves. */
  lemma ConversationIsForeign(log: seq<Exchange>, t: ThreadId, start: Trace, s: ThreadId)
    requires IsConversation(log, t, start)
    requires forall i :: |start| <= i < |TraceAfter(log, start)| ==> TraceAfter(log, start)[i].thread != s
    ensures OthersOnly(start, TraceAfter(log, start), s)
  {
    ConversationGrowsTrace(log, t, start);
  }

  /** Through a whole connection, with any number of others at work, every stored
      chat stays the restriction of one list to which texts are only appended. */
  lemma ConversationExtends(log: seq<Exchange>, t: ThreadId, start: Trace)
    requires IsConversation(log, t, start)
    ensures Records(StateOf(TraceAfter(log, start)), History(TraceAfter(log, start)))
    ensures History(start) <= History(TraceAfter(log, start))
  {
    ConversationGrowsTrace(log, t, start);
    ChatsRefineHistory(TraceAfter(log, start));
    HistoryOnlyGrows(start, TraceAfter(log, start));
  }
}
