/** The writers and readers of chat262_protocol.cc as they run: cursors moving
    through one allocated buffer, and checked reads from a received body.  Each is
    proved against the format in Wire. */
module WireCode {
  import opened Bytes
  import opened ChatDb
  import opened Wire

  /** `s` with `src` written over it at `at`. */
  function Patch(s: Str, at: nat, src: Str): (r: Str)
    requires at + |src| <= |s|
    ensures |r| == |s|
  {
    s[..at] + src + s[at + |src|..]
  }

  lemma PatchAt(s: Str, at: nat, src: Str)
    requires at + |src| <= |s|
    ensures forall k :: 0 <= k < |s| ==> Patch(s, at, src)[k] == if at <= k < at + |src| then src[k - at] else s[k]
  {
  }

  lemma PatchExtends(s: Str, at: nat, src: Str)
    requires at + |src| <= |s|
    ensures Patch(s, at, src)[..at + |src|] == s[..at] + src
  {
  }

  /** The `n` places from `at` on. */
  ghost function Span(at: nat, n: nat): set<nat> { set k: nat | k < at + n && From(at, k) }

  predicate From(at: nat, k: nat) { at <= k }

  lemma SpanGrows(a: nat, m: nat, n: nat)
    ensures Span(a, m) + Span(a + m, n) == Span(a, m + n)
    ensures Span(a, m) !! Span(a + m, n)
  {
  }

  /** A message under construction.  `written` is bookkeeping, the places stored to
      so far; no place can be stored to twice. */
  class Outgoing {
    const bytes: array<byte>
    ghost var written: set<nat>

    constructor (size: nat)
      ensures fresh(bytes) && bytes.Length == size && written == {}
    {
      bytes, written := new byte[size], {};
    }

    /** The finished message, each of its bytes stored exactly once. */
    ghost predicate Is(s: Str)
      reads this, bytes
    {
      bytes[..] == s && written == Span(0, |s|)
    }

    method Store(k: nat, b: byte)
      requires k < bytes.Length && k !in written
      modifies this, bytes
      ensures bytes[..] == old(bytes[..])[k := b] && written == old(written) + {k}
    {
      bytes[k] := b;
      written := written + {k};
    }

    method Memcpy(at: nat, src: Str)
      requires at + |src| <= bytes.Length && written !! Span(at, |src|)
      modifies this, bytes
      ensures bytes[..] == Patch(old(bytes[..]), at, src)
      ensures written == old(written) + Span(at, |src|)
    {
      var i := 0;
      while i < |src|
        invariant 0 <= i <= |src| && written == old(written) + Span(at, i)
        invariant bytes[..] == Patch(old(bytes[..]), at, src[..i])
      {
        PatchOneMore(old(bytes[..]), at, src, i);
        SpanGrows(at, i, 1);
        assert at + i in Span(at, |src|) && at + i !in Span(at, i);
        Store(at + i, src[i]);
        i := i + 1;
      }
      assert src[..|src|] == src;
    }

    /** Write the next field of a message that is filled from the front. */
    method Emit(at: nat, src: Str)
      requires at + |src| <= bytes.Length && written == Span(0, at)
      modifies this, bytes
      ensures bytes[..at + |src|] == old(bytes[..at]) + src && written == Span(0, at + |src|)
    {
      PatchExtends(bytes[..], at, src);
      SpanGrows(0, at, |src|);
      Memcpy(at, src);
      assert bytes[..][..at + |src|] == bytes[..at + |src|];
      assert old(bytes[..])[..at] == old(bytes[..at]);
    }

    lemma Finished(s: Str)
      requires bytes[..] == s && written == Span(0, bytes.Length)
      ensures Is(s)
    {
    }

    lemma Whole(s: Str)
      requires |s| == bytes.Length && bytes[..|s|] == s && written == Span(0, |s|)
      ensures Is(s)
    {
    }
  }

  lemma PatchOneMore(s: Str, at: nat, src: Str, i: nat)
    requires i < |src| && at + |src| <= |s|
    ensures Patch(s, at, src[..i])[at + i := src[i]] == Patch(s, at, src[..i + 1])
    ensures Patch(s, at, src[..0]) == s
  {
    PatchAt(s, at, src[..i]);
    PatchAt(s, at, src[..i + 1]);
  }

  /** Allocate a message and fill in its header. */
  method Allocate(kind: nat, bodyLen: nat) returns (msg: Outgoing)
    ensures fresh(msg) && fresh(msg.bytes) && msg.bytes.Length == HEADER + bodyLen
    ensures msg.bytes[..HEADER] == PutHeader(Header(VERSION, kind, bodyLen)) && msg.written == Span(0, HEADER)
  {
    msg := new Outgoing(HEADER + bodyLen);
    msg.Emit(0, PutHeader(Header(VERSION, kind, bodyLen)));
    assert msg.bytes[..0] == [];
  }

  lemma Reassociate(h: Str, a: Str, b: Str, c: Str, d: Str)
    ensures h + a + b + c + d == h + (a + b + c + d)
    ensures h + a + b + (c + d) == h + (a + b + c + d)
    ensures h + a + b == h + (a + b)
  {
  }

  /** The registration, login and send-text requests. */
  method SerializePair(kind: nat, a: Str, b: Str) returns (msg: Outgoing)
    requires 8 + |a| + |b| < WORD
    ensures fresh(msg) && fresh(msg.bytes) && msg.Is(Frame(kind, PairBody(a, b)))
  {
    var bodyLen := 8 + |a| + |b|;
    msg := Allocate(kind, bodyLen);
    ghost var h := PutHeader(Header(VERSION, kind, bodyLen));
    msg.Emit(8, PutU32(|a|));
    msg.Emit(12, PutU32(|b|));
    msg.Emit(16, a);
    msg.Emit(16 + |a|, b);
    Reassociate(h, PutU32(|a|), PutU32(|b|), a, b);
    msg.Whole(h + PutU32(|a|) + PutU32(|b|) + a + b);
  }

  /** The search and receive-text requests. */
  method SerializeSingle(kind: nat, a: Str) returns (msg: Outgoing)
    requires 4 + |a| < WORD
    ensures fresh(msg) && fresh(msg.bytes) && msg.Is(Frame(kind, SingleBody(a)))
  {
    msg := Allocate(kind, 4 + |a|);
    msg.Emit(8, PutU32(|a|));
    msg.Emit(12, a);
    ghost var h := PutHeader(Header(VERSION, kind, 4 + |a|));
    Reassociate(h, PutU32(|a|), a, [], []);
    msg.Whole(h + PutU32(|a|) + a);
  }

  /** The logout, correspondents and delete requests. */
  method SerializeEmpty(kind: nat) returns (msg: Outgoing)
    ensures fresh(msg) && fresh(msg.bytes) && msg.Is(Frame(kind, []))
  {
    msg := Allocate(kind, 0);
    msg.Whole(Frame(kind, []));
  }

  /** The responses that consist of a status code. */
  method SerializeCode(kind: nat, code: nat) returns (msg: Outgoing)
    ensures fresh(msg) && fresh(msg.bytes) && msg.Is(Frame(kind, PutU32(code)))
  {
    msg := Allocate(kind, 4);
    msg.Emit(8, PutU32(code));
    msg.Whole(Frame(kind, PutU32(code)));
  }

  /* Length tables and strings, by how many have been written. */

  function LensTo(ss: seq<Str>, i: nat): (s: Str)
    requires i <= |ss|
    ensures |s| == 4 * i
  {
    if i == 0 then [] else LensTo(ss, i - 1) + PutU32(|ss[i - 1]|)
  }

  function ConcatTo(ss: seq<Str>, i: nat): Str
    requires i <= |ss|
  {
    if i == 0 then [] else ConcatTo(ss, i - 1) + ss[i - 1]
  }

  lemma {:induction false} PrefixesAreLists(ss: seq<Str>, i: nat)
    requires i <= |ss|
    ensures LensTo(ss, i) == Lens(ss[..i]) && ConcatTo(ss, i) == Concat(ss[..i])
  {
    if i > 0 {
      PrefixesAreLists(ss, i - 1);
      assert ss[..i][..i - 1] == ss[..i - 1];
    }
  }

  lemma WholeLists(ss: seq<Str>)
    ensures LensTo(ss, |ss|) == Lens(ss) && ConcatTo(ss, |ss|) == Concat(ss)
  {
    PrefixesAreLists(ss, |ss|);
    assert ss[..|ss|] == ss;
  }

  lemma {:induction false} ConcatGrows(ss: seq<Str>, i: nat, j: nat)
    requires i <= j <= |ss|
    ensures |ConcatTo(ss, i)| <= |ConcatTo(ss, j)|
  {
    if i < j { ConcatGrows(ss, i, j - 1); }
  }

  /* A list response is a head, the sender bytes (of a chat), the length table and
     the strings; each cursor stays in its own part. */

  lemma PatchWithin(pre: Str, part: Str, post: Str, at: nat, src: Str)
    requires at + |src| <= |part|
    ensures Patch(pre + part + post, |pre| + at, src) == pre + Patch(part, at, src) + post
  {
    PatchAt(pre + part + post, |pre| + at, src);
    PatchAt(part, at, src);
  }

  /** Write into the part of the message that `part` stands for, and change no
      other byte. */
  method WritePart(msg: Outgoing, ptr: nat, src: Str, ghost pre: Str, ghost part: Str, ghost post: Str, ghost at: nat)
      returns (ghost part': Str)
    requires msg.bytes[..] == pre + part + post && ptr == |pre| + at && at + |src| <= |part|
    requires msg.written !! Span(ptr, |src|)
    modifies msg, msg.bytes
    ensures part' == Patch(part, at, src) && msg.bytes[..] == pre + part' + post
    ensures msg.written == old(msg.written) + Span(ptr, |src|)
  {
    PatchWithin(pre, part, post, at, src);
    msg.Memcpy(ptr, src);
    part' := Patch(part, at, src);
  }

  lemma Parts(a: Str, b: Str, c: Str, d: Str)
    ensures a + b + c == a + b + c + [] && a + (b + c) == a + b + c && a + b + (c + d) == a + b + c + d
  {
  }

  /** One turn of a writer's loop: a length into the table, a string behind it. */
  method WriteTurn(msg: Outgoing, lensPtr: nat, strPtr: nat, s: Str,
                   ghost pre: Str, ghost table: Str, ghost strs: Str, ghost t: nat, ghost q: nat)
      returns (ghost table': Str, ghost strs': Str)
    requires msg.bytes[..] == pre + table + strs
    requires lensPtr == |pre| + t && strPtr == |pre| + |table| + q && t + 4 <= |table| && q + |s| <= |strs|
    requires msg.written !! Span(lensPtr, 4) && msg.written !! Span(strPtr, |s|)
    modifies msg, msg.bytes
    ensures table' == Patch(table, t, PutU32(|s|)) && strs' == Patch(strs, q, s)
    ensures msg.bytes[..] == pre + table' + strs'
    ensures msg.written == old(msg.written) + Span(lensPtr, 4) + Span(strPtr, |s|)
  {
    table' := WritePart(msg, lensPtr, PutU32(|s|), pre, table, strs, t);
    Parts(pre, table', strs, []);
    strs' := WritePart(msg, strPtr, s, pre + table', strs, [], q);
    Parts(pre, table', strs', []);
  }

  lemma TwoCursors(p: nat, m: nat, q: nat, n: nat, written: set<nat>)
    requires p + 4 <= q && written == Span(0, p) + Span(q, m)
    ensures written !! Span(p, 4) && written !! Span(q + m, n)
    ensures written + Span(p, 4) + Span(q + m, n) == Span(0, p + 4) + Span(q, m + n)
  {
  }

  /** The table and the strings after `i` turns. */
  ghost predicate StringsTo(ss: seq<Str>, i: nat, table: Str, strs: Str)
    requires i <= |ss|
  {
    && |table| == 4 * |ss| && table[..4 * i] == LensTo(ss, i)
    && |ConcatTo(ss, i)| <= |strs| == |ConcatTo(ss, |ss|)| && strs[..|ConcatTo(ss, i)|] == ConcatTo(ss, i)
  }

  lemma StringsOneMore(ss: seq<Str>, i: nat, table: Str, strs: Str)
    requires i < |ss| && StringsTo(ss, i, table, strs)
    ensures 4 * i + 4 <= |table| && |ConcatTo(ss, i)| + |ss[i]| <= |strs|
    ensures StringsTo(ss, i + 1, Patch(table, 4 * i, PutU32(|ss[i]|)), Patch(strs, |ConcatTo(ss, i)|, ss[i]))
  {
    ConcatGrows(ss, i + 1, |ss|);
    PatchExtends(table, 4 * i, PutU32(|ss[i]|));
    PatchExtends(strs, |ConcatTo(ss, i)|, ss[i]);
  }

  lemma StringsWhole(ss: seq<Str>, table: Str, strs: Str)
    requires StringsTo(ss, |ss|, table, strs)
    ensures table == Lens(ss) && strs == Concat(ss)
  {
    WholeLists(ss);
    TakeAll(table);
    TakeAll(strs);
  }

  /** The writer's loop over a list of strings, over the parts of the message it
      fills: one cursor walks the length table, one the strings behind it. */
  method WriteStringParts(msg: Outgoing, start: nat, ss: seq<Str>, ghost pre: Str, ghost table0: Str, ghost strs0: Str)
    requires msg.bytes[..] == pre + table0 + strs0 && |pre| == start && msg.written == Span(0, start)
    requires |table0| == 4 * |ss| && |strs0| == |ConcatTo(ss, |ss|)|
    modifies msg, msg.bytes
    ensures msg.bytes[..] == pre + Lens(ss) + Concat(ss) && msg.written == Span(0, msg.bytes.Length)
  {
    ghost var table, strs := table0, strs0;
    var lensPtr, strPtr := start, start + 4 * |ss|;
    var i := 0;
    while i < |ss|
      invariant 0 <= i <= |ss| && StringsTo(ss, i, table, strs)
      invariant lensPtr == start + 4 * i && strPtr == start + 4 * |ss| + |ConcatTo(ss, i)|
      invariant msg.bytes[..] == pre + table + strs
      invariant msg.written == Span(0, lensPtr) + Span(start + 4 * |ss|, |ConcatTo(ss, i)|)
    {
      StringsOneMore(ss, i, table, strs);
      TwoCursors(lensPtr, |ConcatTo(ss, i)|, start + 4 * |ss|, |ss[i]|, msg.written);
      table, strs := WriteTurn(msg, lensPtr, strPtr, ss[i], pre, table, strs, 4 * i, |ConcatTo(ss, i)|);
      lensPtr := lensPtr + 4;
      strPtr := strPtr + |ss[i]|;
      i := i + 1;
    }
    SpanGrows(0, lensPtr, |ConcatTo(ss, |ss|)|);
    StringsWhole(ss, table, strs);
  }

  method WriteStrings(msg: Outgoing, start: nat, ss: seq<Str>)
    requires start + 4 * |ss| + |Concat(ss)| == msg.bytes.Length && msg.written == Span(0, start)
    modifies msg, msg.bytes
    ensures msg.bytes[..] == old(msg.bytes[..start]) + Lens(ss) + Concat(ss) && msg.written == Span(0, msg.bytes.Length)
  {
    ghost var m, n := msg.bytes[..], 4 * |ss|;
    Glue4(m, start, start + n, start + n);
    assert m == m[..start] + m[start..start + n] + m[start + n..];
    assert m[..start] == msg.bytes[..start];
    WholeLists(ss);
    WriteStringParts(msg, start, ss, m[..start], m[start..start + n], m[start + n..]);
  }

  /** The body length as the writers add it up. */
  method AddLengths(bodyLen0: nat, ss: seq<Str>) returns (bodyLen: nat)
    ensures bodyLen == bodyLen0 + |Concat(ss)|
  {
    bodyLen := bodyLen0;
    var i := 0;
    while i < |ss|
      invariant 0 <= i <= |ss| && bodyLen == bodyLen0 + |ConcatTo(ss, i)|
    {
      bodyLen := bodyLen + |ss[i]|;
      i := i + 1;
    }
    WholeLists(ss);
  }

  /** The fixed part of a list response: header, status code, number of entries. */
  method StartList(kind: nat, code: nat, count: nat, bodyLen: nat) returns (msg: Outgoing)
    requires bodyLen >= 8
    ensures fresh(msg) && fresh(msg.bytes) && msg.bytes.Length == HEADER + bodyLen && msg.written == Span(0, 16)
    ensures msg.bytes[..16] == PutHeader(Header(VERSION, kind, bodyLen)) + PutU32(code) + PutU32(count)
  {
    msg := Allocate(kind, bodyLen);
    msg.Emit(8, PutU32(code));
    msg.Emit(12, PutU32(count));
  }

  /** The search and correspondents responses.  The cursors stay inside the
      message and every byte is stored exactly once. */
  method SerializeNames(kind: nat, code: nat, names: seq<Str>) returns (msg: Outgoing)
    requires |NamesBody(code, names)| < WORD
    ensures fresh(msg) && fresh(msg.bytes) && msg.Is(Frame(kind, NamesBody(code, names)))
  {
    if code == CODE_OK { msg := SerializeList(kind, names); } else { msg := SerializeCode(kind, code); }
  }

  method SerializeList(kind: nat, names: seq<Str>) returns (msg: Outgoing)
    requires |NamesBody(CODE_OK, names)| < WORD
    ensures fresh(msg) && fresh(msg.bytes) && msg.Is(Frame(kind, NamesBody(CODE_OK, names)))
  {
    var bodyLen := AddLengths(4 + 4 + |names| * 4, names);
    NamesSize(names);
    NamesFrame(kind, names);
    msg := StartList(kind, CODE_OK, |names|, bodyLen);
    WriteStrings(msg, 16, names);
    msg.Finished(Frame(kind, NamesBody(CODE_OK, names)));
  }

  lemma NamesFrame(kind: nat, names: seq<Str>)
    ensures PutHeader(Header(VERSION, kind, |NamesBody(CODE_OK, names)|)) + PutU32(CODE_OK) + PutU32(|names|)
              + Lens(names) + Concat(names) == Frame(kind, NamesBody(CODE_OK, names))
  {
    Reassociate(PutHeader(Header(VERSION, kind, |NamesBody(CODE_OK, names)|)), PutU32(CODE_OK), PutU32(|names|),
      Lens(names), Concat(names));
  }

  /* The receive-text response has a third cursor, for the senders. */

  /** One turn of the chat writer's loop, with its three cursors: each writes into
      its own part, and no other byte changes. */
  method WriteChatTurn(msg: Outgoing, senderPtr: nat, lensPtr: nat, txtPtr: nat, text: Text,
                       ghost pre: Str, ghost froms: Str, ghost table: Str, ghost strs: Str, ghost i: nat, ghost q: nat)
      returns (ghost froms': Str, ghost table': Str, ghost strs': Str)
    requires msg.bytes[..] == pre + froms + table + strs
    requires i < |froms| && 4 * i + 4 <= |table| && q + |text.content| <= |strs|
    requires senderPtr == |pre| + i && lensPtr == |pre| + |froms| + 4 * i && txtPtr == |pre| + |froms| + |table| + q
    requires msg.written !! Span(senderPtr, 1) && msg.written !! Span(lensPtr, 4)
    requires msg.written !! Span(txtPtr, |text.content|)
    modifies msg, msg.bytes
    ensures froms' == Patch(froms, i, [text.sender]) && table' == Patch(table, 4 * i, PutU32(|text.content|))
    ensures strs' == Patch(strs, q, text.content) && msg.bytes[..] == pre + froms' + table' + strs'
    ensures msg.written == old(msg.written) + Span(senderPtr, 1) + Span(lensPtr, 4) + Span(txtPtr, |text.content|)
  {
    Parts(pre, froms, table, strs);
    froms' := WritePart(msg, senderPtr, [text.sender], pre, froms, table + strs, i);
    Parts(pre, froms', table, strs);
    table', strs' := WriteTurn(msg, lensPtr, txtPtr, text.content, pre + froms', table, strs, 4 * i, q);
  }

  lemma ThreeCursors(a: nat, i: nat, b: nat, c: nat, m: nat, n: nat, written: set<nat>)
    requires a + i + 1 <= b && b + 4 * i + 4 <= c
    requires written == Span(0, a + i) + Span(b, 4 * i) + Span(c, m)
    ensures written !! Span(a + i, 1) && written !! Span(b + 4 * i, 4) && written !! Span(c + m, n)
    ensures written + Span(a + i, 1) + Span(b + 4 * i, 4) + Span(c + m, n) ==
            Span(0, a + i + 1) + Span(b, 4 * i + 4) + Span(c, m + n)
  {
  }

  lemma Glue4(m: Str, a: nat, b: nat, c: nat)
    requires a <= b <= c <= |m|
    ensures m == m[..a] + m[a..b] + m[b..c] + m[c..]
  {
  }

  lemma TakeAll(s: Str)
    ensures s[..|s|] == s
  {
  }

  function SendersTo(c: Chat, i: nat): (s: Str)
    requires i <= |c|
    ensures |s| == i
  {
    if i == 0 then [] else SendersTo(c, i - 1) + [c[i - 1].sender]
  }

  lemma {:induction false} SendersToIs(c: Chat, i: nat)
    requires i <= |c|
    ensures SendersTo(c, i) == Senders(c)[..i]
  {
    if i > 0 { SendersToIs(c, i - 1); }
  }

  /** The three parts after `i` turns. */
  ghost predicate WrittenTo(c: Chat, i: nat, froms: Str, table: Str, strs: Str)
    requires i <= |c|
  {
    |froms| == |c| && froms[..i] == SendersTo(c, i) && StringsTo(Contents(c), i, table, strs)
  }

  lemma SenderOneMore(c: Chat, i: nat, froms: Str)
    requires i < |c| == |froms| && froms[..i] == SendersTo(c, i)
    ensures Patch(froms, i, [c[i].sender])[..i + 1] == SendersTo(c, i + 1)
  {
    PatchExtends(froms, i, [c[i].sender]);
  }

  lemma NothingWritten(c: Chat, froms: Str, table: Str, strs: Str)
    requires |froms| == |c| && |table| == 4 * |c| && |strs| == |ConcatTo(Contents(c), |c|)|
    ensures WrittenTo(c, 0, froms, table, strs) && ConcatTo(Contents(c), 0) == []
  {
  }

  lemma WrittenWhole(c: Chat, froms: Str, table: Str, strs: Str)
    requires WrittenTo(c, |c|, froms, table, strs)
    ensures froms == Senders(c) && table == Lens(Contents(c)) && strs == Concat(Contents(c))
  {
    StringsWhole(Contents(c), table, strs);
    TakeAll(froms);
    TakeAll(Senders(c));
    SendersToIs(c, |c|);
  }

  /** The places written to after `i` turns. */
  ghost function ChatSpans(start: nat, c: Chat, i: nat): set<nat>
    requires i <= |c|
  {
    Span(0, start + i) + Span(start + |c|, 4 * i) + Span(start + 5 * |c|, |ConcatTo(Contents(c), i)|)
  }

  lemma ChatSpansWhole(start: nat, c: Chat)
    ensures ChatSpans(start, c, 0) == Span(0, start)
    ensures ChatSpans(start, c, |c|) == Span(0, start + 5 * |c| + |ConcatTo(Contents(c), |c|)|)
  {
    SpanGrows(0, start + |c|, 4 * |c|);
    SpanGrows(0, start + 5 * |c|, |ConcatTo(Contents(c), |c|)|);
  }

  /** Turn `i` of the chat writer's loop. */
  method WriteText(msg: Outgoing, start: nat, c: Chat, i: nat, ghost pre: Str, ghost froms: Str, ghost table: Str,
                   ghost strs: Str, senderPtr: nat, lensPtr: nat, txtPtr: nat)
      returns (ghost froms': Str, ghost table': Str, ghost strs': Str)
    requires i < |c| && WrittenTo(c, i, froms, table, strs) && |pre| == start
    requires senderPtr == start + i && lensPtr == start + |c| + 4 * i
    requires txtPtr == start + 5 * |c| + |ConcatTo(Contents(c), i)|
    requires msg.bytes[..] == pre + froms + table + strs && msg.written == ChatSpans(start, c, i)
    modifies msg, msg.bytes
    ensures WrittenTo(c, i + 1, froms', table', strs')
    ensures |ConcatTo(Contents(c), i + 1)| == |ConcatTo(Contents(c), i)| + |c[i].content|
    ensures msg.bytes[..] == pre + froms' + table' + strs' && msg.written == ChatSpans(start, c, i + 1)
  {
    ghost var q := |ConcatTo(Contents(c), i)|;
    SenderOneMore(c, i, froms);
    StringsOneMore(Contents(c), i, table, strs);
    ThreeCursors(start, i, start + |c|, start + 5 * |c|, q, |c[i].content|, msg.written);
    froms', table', strs' := WriteChatTurn(msg, senderPtr, lensPtr, txtPtr, c[i], pre, froms, table, strs, i, q);
  }

  /** The chat writer's loop, over the parts of the message it fills. */
  method WriteChatParts(msg: Outgoing, start: nat, c: Chat, ghost pre: Str, ghost froms0: Str, ghost table0: Str,
                        ghost strs0: Str)
    requires msg.bytes[..] == pre + froms0 + table0 + strs0 && |pre| == start && msg.written == Span(0, start)
    requires |froms0| == |c| && |table0| == 4 * |c| && |strs0| == |ConcatTo(Contents(c), |c|)|
    modifies msg, msg.bytes
    ensures msg.bytes[..] == pre + Senders(c) + Lens(Contents(c)) + Concat(Contents(c))
    ensures msg.written == Span(0, msg.bytes.Length)
  {
    ghost var froms, table, strs := froms0, table0, strs0;
    var senderPtr, lensPtr, txtPtr := start, start + |c|, start + 5 * |c|;
    ChatSpansWhole(start, c);
    NothingWritten(c, froms, table, strs);
    var i := 0;
    while i < |c|
      invariant 0 <= i <= |c| && WrittenTo(c, i, froms, table, strs)
      invariant senderPtr == start + i && lensPtr == start + |c| + 4 * i
      invariant txtPtr == start + 5 * |c| + |ConcatTo(Contents(c), i)|
      invariant msg.bytes[..] == pre + froms + table + strs && msg.written == ChatSpans(start, c, i)
    {
      froms, table, strs := WriteText(msg, start, c, i, pre, froms, table, strs, senderPtr, lensPtr, txtPtr);
      senderPtr := senderPtr + 1;
      lensPtr := lensPtr + 4;
      txtPtr := txtPtr + |c[i].content|;
      i := i + 1;
    }
    WrittenWhole(c, froms, table, strs);
  }

  method WriteChat(msg: Outgoing, start: nat, c: Chat)
    requires start + 5 * |c| + |Concat(Contents(c))| == msg.bytes.Length && msg.written == Span(0, start)
    modifies msg, msg.bytes
    ensures msg.bytes[..] == old(msg.bytes[..start]) + Senders(c) + Lens(Contents(c)) + Concat(Contents(c))
    ensures msg.written == Span(0, msg.bytes.Length)
  {
    ghost var n, m := |c|, msg.bytes[..];
    Glue4(m, start, start + n, start + 5 * n);
    assert m[..start] == msg.bytes[..start];
    WholeLists(Contents(c));
    WriteChatParts(msg, start, c, m[..start], m[start..start + n], m[start + n..start + 5 * n], m[start + 5 * n..]);
  }

  /** The receive-text response.  The three cursors stay inside the message, and
      every byte is stored exactly once. */
  method SerializeChat(code: nat, c: Chat) returns (msg: Outgoing)
    requires |ChatBody(code, c)| < WORD
    ensures fresh(msg) && fresh(msg.bytes) && msg.Is(Frame(RECV_TXT_RESPONSE, ChatBody(code, c)))
  {
    if code == CODE_OK { msg := SerializeTexts(c); } else { msg := SerializeCode(RECV_TXT_RESPONSE, code); }
  }

  method SerializeTexts(c: Chat) returns (msg: Outgoing)
    requires |ChatBody(CODE_OK, c)| < WORD
    ensures fresh(msg) && fresh(msg.bytes) && msg.Is(Frame(RECV_TXT_RESPONSE, ChatBody(CODE_OK, c)))
  {
    var bodyLen := AddLengths(4 + 4 + |c| * 5, Contents(c));
    ChatSize(c);
    ChatFrame(c);
    msg := StartList(RECV_TXT_RESPONSE, CODE_OK, |c|, bodyLen);
    WriteChat(msg, 16, c);
    msg.Finished(Frame(RECV_TXT_RESPONSE, ChatBody(CODE_OK, c)));
  }

  lemma ChatFrame(c: Chat)
    ensures PutHeader(Header(VERSION, RECV_TXT_RESPONSE, |ChatBody(CODE_OK, c)|)) + PutU32(CODE_OK) + PutU32(|c|)
              + Senders(c) + Lens(Contents(c)) + Concat(Contents(c)) == Frame(RECV_TXT_RESPONSE, ChatBody(CODE_OK, c))
  {
    Reassociate5(PutHeader(Header(VERSION, RECV_TXT_RESPONSE, |ChatBody(CODE_OK, c)|)), PutU32(CODE_OK), PutU32(|c|),
      Senders(c), Lens(Contents(c)), Concat(Contents(c)));
  }

  lemma Reassociate5(h: Str, a: Str, b: Str, c: Str, d: Str, e: Str)
    ensures h + a + b + c + d + e == h + (a + b + c + d + e)
  {
  }

  /* Readers.  Out-parameters that the source leaves alone keep their old value. */

  /** ReadPastEnd: the reader would copy bytes beyond the body. */
  datatype ReadStatus = ReadOk | ReadBodyError | ReadPastEnd

  method DeserializeHeader(data: Str) returns (s: ReadStatus, h: Header)
    ensures s == if |data| == HEADER then ReadOk else ReadBodyError
    ensures s == ReadOk ==> h == GetHeader(data)
  {
    h := Header(0, 0, 0);
    if |data| != HEADER { return ReadBodyError, h; }
    h := Header(GetU16(data[..2]), GetU16(data[2..4]), GetU32(data[4..8]));
    s := ReadOk;
  }

  method DeserializePair(data: Str) returns (s: ReadStatus, a: Str, b: Str)
    ensures s == if DecodePair(data).Value? then ReadOk else ReadBodyError
    ensures s == ReadOk ==> DecodePair(data) == Value((a, b))
  {
    a, b := [], [];
    if |data| < 8 { return ReadBodyError, a, b; }
    var m := GetU32(data[..4]);
    var n := GetU32(data[4..8]);
    if 8 + m + n != |data| { return ReadBodyError, a, b; }
    a, b := data[8..8 + m], data[8 + m..8 + m + n];
    s := ReadOk;
  }

  method DeserializeSingle(data: Str) returns (s: ReadStatus, a: Str)
    ensures s == if DecodeSingle(data).Value? then ReadOk else ReadBodyError
    ensures s == ReadOk ==> DecodeSingle(data) == Value(a)
  {
    a := [];
    if |data| < 4 { return ReadBodyError, a; }
    var n := GetU32(data[..4]);
    if 4 + n != |data| { return ReadBodyError, a; }
    a := data[4..4 + n];
    assert data[4..] == a;
    s := ReadOk;
  }

  method DeserializeCode(data: Str, code: nat) returns (s: ReadStatus, code': nat)
    ensures s == if |data| == 4 then ReadOk else ReadBodyError
    ensures code' == if s == ReadOk then GetU32(data) else code
  {
    if |data| != 4 { return ReadBodyError, code; }
    s, code' := ReadOk, GetU32(data);
  }

  /* Sums of lengths, by how many have been read. */

  function SumTo(lens: seq<nat>, i: nat): nat
    requires i <= |lens|
  {
    if i == 0 then 0 else SumTo(lens, i - 1) + lens[i - 1]
  }

  lemma {:induction false} SumToPrefix(lens: seq<nat>, i: nat)
    requires i <= |lens|
    ensures SumTo(lens, i) == Sum(lens[..i])
  {
    if i > 0 {
      SumToPrefix(lens, i - 1);
      assert lens[..i][..i - 1] == lens[..i - 1];
    }
  }

  lemma SumToAll(lens: seq<nat>)
    ensures SumTo(lens, |lens|) == Sum(lens)
  {
    SumToPrefix(lens, |lens|);
    assert lens[..|lens|] == lens;
  }

  lemma {:induction false} SumGrows(lens: seq<nat>, i: nat, j: nat)
    requires i <= j <= |lens|
    ensures SumTo(lens, i) <= SumTo(lens, j)
  {
    if i < j { SumGrows(lens, i, j - 1); }
  }

  lemma WrapAgain(a: nat, b: nat)
    ensures (a % WORD + b) % WORD == (a + b) % WORD
  {
  }

  lemma EntryOfTable(data: Str, start: nat, n: nat, i: nat)
    requires start + 4 * n <= |data| && i < n
    ensures ReadLens(data[start..start + 4 * n], n)[i] == GetU32(data[start + 4 * i..start + 4 * i + 4])
  {
    SliceOfSlice(data, start, start + 4 * n, 4 * i, 4 * i + 4);
  }

  lemma SliceOfSlice(s: Str, a: nat, b: nat, c: nat, d: nat)
    requires a <= b <= |s| && c <= d <= b - a
    ensures s[a..b][c..d] == s[a + c..a + d]
  {
    var u, x, y := s[a..b], s[a..b][c..d], s[a + c..a + d];
    forall k | 0 <= k < d - c ensures x[k] == y[k] {
      assert x[k] == u[c + k] && u[c + k] == s[a + (c + k)];
    }
  }

  /** The reader's loop over a length table; the total is a 32-bit sum. */
  method ReadTable(data: Str, start: nat, n: nat) returns (lens: seq<nat>, total: nat)
    requires start + 4 * n <= |data|
    ensures lens == ReadLens(data[start..start + 4 * n], n)
    ensures total == Sum(lens) % WORD
  {
    ghost var all := ReadLens(data[start..start + 4 * n], n);
    var lenPtr := start;
    lens, total := [], 0;
    var i := 0;
    while i < n
      invariant 0 <= i <= n && lenPtr == start + 4 * i
      invariant lens == all[..i] && total == SumTo(all, i) % WORD
    {
      var len := GetU32(data[lenPtr..lenPtr + 4]);
      EntryOfTable(data, start, n, i);
      WrapAgain(SumTo(all, i), len);
      lens := lens + [len];
      total := (total + len) % WORD;
      lenPtr := lenPtr + 4;
      i := i + 1;
    }
    SumToAll(all);
  }

  lemma ReadOneMore(data: Str, start: nat, ptr: nat, ss: seq<Str>, lens: seq<nat>, i: nat)
    requires i < |lens| && start <= ptr && ptr + lens[i] <= |data|
    requires Sizes(ss) == lens[..i] && Concat(ss) == data[start..ptr]
    ensures Sizes(ss + [data[ptr..ptr + lens[i]]]) == lens[..i + 1]
    ensures Concat(ss + [data[ptr..ptr + lens[i]]]) == data[start..ptr + lens[i]]
  {
    SizesAppend(ss, data[ptr..ptr + lens[i]]);
  }

  /** The reader's loop that copies the strings, stopping where a copy would leave
      the body. */
  method ReadAll(data: Str, start: nat, lens: seq<nat>) returns (ok: bool, ss: seq<Str>)
    requires start <= |data| && |data| - start == Sum(lens) % WORD
    ensures ok <==> Sum(lens) < WORD
    ensures ok ==> ReadStrings(data[start..], lens) == Value(ss)
  {
    SumToAll(lens);
    var ptr := start;
    ss := [];
    var i := 0;
    assert Sizes([]) == lens[..0];
    while i < |lens|
      invariant 0 <= i <= |lens| && start <= ptr == start + SumTo(lens, i) <= |data|
      invariant Sizes(ss) == lens[..i] && Concat(ss) == data[start..ptr]
    {
      SumGrows(lens, i + 1, |lens|);
      if ptr + lens[i] > |data| { return false, ss; }
      ReadOneMore(data, start, ptr, ss, lens, i);
      ss := ss + [data[ptr..ptr + lens[i]]];
      ptr := ptr + lens[i];
      i := i + 1;
    }
    ok := true;
    assert lens[..|lens|] == lens;
    assert data[start..ptr] == data[start..] by { FitsExactly(|data| - start, SumTo(lens, i)); }
    StringsReadBack(ss);
  }

  lemma FitsExactly(room: nat, sum: nat)
    requires sum <= room == sum % WORD
    ensures sum == room < WORD
  {
  }

  /** The search and correspondents responses. */
  method DeserializeNames(data: Str, code: nat, names: seq<Str>) returns (s: ReadStatus, code': nat, names': seq<Str>)
    ensures s == match DecodeNames(data) {
      case BodyError => ReadBodyError
      case Overrun => ReadPastEnd
      case _ => ReadOk
    }
    ensures DecodeNames(data).Value? ==> code' == CODE_OK && names' == DecodeNames(data).value
    ensures DecodeNames(data).Refused? ==> code' == DecodeNames(data).code && names' == names
    ensures DecodeNames(data).BodyError? ==> code' == code && names' == names
  {
    code', names' := code, names;
    if |data| < 4 { return ReadBodyError, code, names; }
    var statCode := GetU32(data[..4]);
    if statCode != CODE_OK { return ReadOk, statCode, names; }
    if |data| < 8 { return ReadBodyError, code, names; }
    var n := GetU32(data[4..8]);
    if |data| < 8 + n * 4 { return ReadBodyError, code, names; }
    var lens, total := ReadTable(data, 8, n);
    if |data| != 8 + n * 4 + total { return ReadBodyError, code, names; }
    var ok, ss := ReadAll(data, 8 + n * 4, lens);
    if !ok { return ReadPastEnd, code, names; }
    s, code', names' := ReadOk, statCode, ss;
  }

  /** The receive-text response. */
  method DeserializeChat(data: Str, code: nat, c: Chat) returns (s: ReadStatus, code': nat, c': Chat)
    ensures s == match DecodeChat(data) { case BodyError => ReadBodyError case Overrun => ReadPastEnd case _ => ReadOk }
    ensures DecodeChat(data).Value? ==> code' == CODE_OK && c' == DecodeChat(data).value
    ensures DecodeChat(data).Refused? ==> code' == DecodeChat(data).code && c' == c
    ensures DecodeChat(data).BodyError? ==> code' == code && c' == c
  {
    code', c' := code, c;
    if |data| < 4 { return ReadBodyError, code, c; }
    var statCode := GetU32(data[..4]);
    if statCode != CODE_OK { return ReadOk, statCode, c; }
    if |data| < 8 { return ReadBodyError, code, c; }
    var n := GetU32(data[4..8]);
    if |data| < 8 + n * 5 { return ReadBodyError, code, c; }
    var senders := data[8..8 + n];
    var lens, total := ReadTable(data, 8 + n, n);
    if |data| != 8 + n * 5 + total { return ReadBodyError, code, c; }
    var ok, ss := ReadAll(data, 8 + n * 5, lens);
    if !ok { return ReadPastEnd, code, c; }
    c' := BuildChat(senders, ss);
    s, code' := ReadOk, statCode;
  }

  method BuildChat(senders: Str, ss: seq<Str>) returns (c: Chat)
    requires |senders| == |ss|
    ensures c == MakeChat(senders, ss)
  {
    c := [];
    var i := 0;
    while i < |ss|
      invariant 0 <= i <= |ss| && c == MakeChat(senders, ss)[..i]
    {
      c := c + [Text(senders[i], ss[i])];
      i := i + 1;
    }
  }
}
