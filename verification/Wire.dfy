/** The Chat 262 message format (chat262_protocol.cc): what each message looks like,
    what its reader accepts, and that the two are inverse. */
module Wire {
  import opened Bytes
  import opened ChatDb

  const VERSION: nat := 1
  const HEADER: nat := 8

  /* Message types and status codes (chat262_protocol.h). */
  const REGISTRATION_REQUEST: nat := 101
  const LOGIN_REQUEST: nat := 102
  const LOGOUT_REQUEST: nat := 103
  const ACCOUNTS_REQUEST: nat := 104
  const SEND_TXT_REQUEST: nat := 105
  const RECV_TXT_REQUEST: nat := 106
  const CORRESPONDENTS_REQUEST: nat := 107
  const DELETE_REQUEST: nat := 108
  const REGISTRATION_RESPONSE: nat := 201
  const LOGIN_RESPONSE: nat := 202
  const LOGOUT_RESPONSE: nat := 203
  const ACCOUNTS_RESPONSE: nat := 204
  const SEND_TXT_RESPONSE: nat := 205
  const RECV_TXT_RESPONSE: nat := 206
  const CORRESPONDENTS_RESPONSE: nat := 207
  const DELETE_RESPONSE: nat := 208
  const WRONG_VERSION_RESPONSE: nat := 301
  const INVALID_TYPE_RESPONSE: nat := 302
  const INVALID_BODY_RESPONSE: nat := 303

  const CODE_OK: nat := 0
  const CODE_INVALID_CREDENTIALS: nat := 1
  const CODE_USER_EXISTS: nat := 2
  const CODE_USER_NOEXIST: nat := 3
  const CODE_USERNAME_INVALID: nat := 4
  const CODE_PASSWORD_INVALID: nat := 5
  const CODE_UNAUTHORIZED: nat := 6

  datatype Header = Header(version: nat, kind: nat, bodyLen: nat)

  function PutHeader(h: Header): (s: Str)
    ensures |s| == HEADER
  {
    PutU16(h.version) + PutU16(h.kind) + PutU32(h.bodyLen)
  }

  function GetHeader(s: Str): Header
    requires |s| == HEADER
  {
    Header(GetU16(s[..2]), GetU16(s[2..4]), GetU32(s[4..8]))
  }

  /** A complete message. */
  function Frame(kind: nat, body: Str): Str {
    PutHeader(Header(VERSION, kind, |body|)) + body
  }

  /* Bodies. */

  function PairBody(a: Str, b: Str): Str { PutU32(|a|) + PutU32(|b|) + a + b }

  function SingleBody(a: Str): Str { PutU32(|a|) + a }

  /** The length table of a list of strings, and the strings themselves. */
  function Lens(ss: seq<Str>): (s: Str)
    ensures |s| == 4 * |ss|
  {
    if ss == [] then [] else Lens(ss[..|ss| - 1]) + PutU32(|ss[|ss| - 1]|)
  }

  function Concat(ss: seq<Str>): Str {
    if ss == [] then [] else Concat(ss[..|ss| - 1]) + ss[|ss| - 1]
  }

  function NamesBody(code: nat, names: seq<Str>): Str {
    if code == CODE_OK then PutU32(code) + PutU32(|names|) + Lens(names) + Concat(names) else PutU32(code)
  }

  function Senders(c: Chat): (s: Str)
    ensures |s| == |c| && forall i :: 0 <= i < |c| ==> s[i] == c[i].sender
  {
    seq(|c|, i requires 0 <= i < |c| => c[i].sender)
  }

  function Contents(c: Chat): (s: seq<Str>)
    ensures |s| == |c| && forall i :: 0 <= i < |c| ==> s[i] == c[i].content
  {
    seq(|c|, i requires 0 <= i < |c| => c[i].content)
  }

  function ChatBody(code: nat, c: Chat): Str {
    if code == CODE_OK then PutU32(code) + PutU32(|c|) + Senders(c) + Lens(Contents(c)) + Concat(Contents(c))
      else PutU32(code)
  }

  /* Readers. */

  /** What a reader makes of a body: a size mismatch, an error code without a
      payload, or a value.  Overrun is the case in which the 32-bit sum of the
      declared lengths has wrapped, so that the size check passes although the
      strings do not fit the body. */
  datatype Decoded<+T> = BodyError | Refused(code: nat) | Value(value: T) | Overrun

  function DecodePair(data: Str): Decoded<(Str, Str)> {
    if |data| < 8 then BodyError
    else
      var m, n := GetU32(data[..4]), GetU32(data[4..8]);
      if 8 + m + n != |data| then BodyError else Value((data[8..8 + m], data[8 + m..8 + m + n]))
  }

  function DecodeSingle(data: Str): Decoded<Str> {
    if |data| < 4 then BodyError
    else if 4 + GetU32(data[..4]) != |data| then BodyError
    else Value(data[4..])
  }

  function Sum(lens: seq<nat>): nat {
    if lens == [] then 0 else Sum(lens[..|lens| - 1]) + lens[|lens| - 1]
  }

  function ReadLens(table: Str, n: nat): (lens: seq<nat>)
    requires |table| == 4 * n
    ensures |lens| == n && forall i :: 0 <= i < n ==> lens[i] == GetU32(table[4 * i..4 * i + 4])
  {
    seq(n, i requires 0 <= i < n => GetU32(table[4 * i..4 * i + 4]))
  }

  /** `s` cut into pieces of the given lengths. */
  function Cut(s: Str, lens: seq<nat>): (ss: seq<Str>)
    requires |s| == Sum(lens)
    ensures |ss| == |lens|
    decreases |lens|
  {
    if lens == [] then []
    else
      var k := |s| - lens[|lens| - 1];
      Cut(s[..k], lens[..|lens| - 1]) + [s[k..]]
  }

  /** The strings behind a length table.  The check compares the rest of the body
      with the 32-bit sum of the lengths. */
  function ReadStrings(rest: Str, lens: seq<nat>): (r: Decoded<seq<Str>>)
    ensures r.Value? ==> |r.value| == |lens|
  {
    if |rest| != Sum(lens) % WORD then BodyError
    else if Sum(lens) >= WORD then Overrun
    else Value(Cut(rest, lens))
  }

  function DecodeNames(data: Str): Decoded<seq<Str>> {
    if |data| < 4 then BodyError
    else if GetU32(data[..4]) != CODE_OK then Refused(GetU32(data[..4]))
    else if |data| < 8 then BodyError
    else
      var n := GetU32(data[4..8]);
      if |data| < 8 + 4 * n then BodyError
      else
        ReadStrings(data[8 + 4 * n..], ReadLens(data[8..8 + 4 * n], n))
  }

  function MakeChat(senders: Str, contents: seq<Str>): (c: Chat)
    requires |senders| == |contents|
    ensures |c| == |senders|
  {
    seq(|senders|, i requires 0 <= i < |senders| => Text(senders[i], contents[i]))
  }

  function DecodeChat(data: Str): Decoded<Chat> {
    if |data| < 4 then BodyError
    else if GetU32(data[..4]) != CODE_OK then Refused(GetU32(data[..4]))
    else if |data| < 8 then BodyError
    else
      var n := GetU32(data[4..8]);
      if |data| < 8 + 5 * n then BodyError
      else
        match ReadStrings(data[8 + 5 * n..], ReadLens(data[8 + n..8 + 5 * n], n))
        case Value(contents) => Value(MakeChat(data[8..8 + n], contents))
        case Overrun => Overrun
        case _ => BodyError
  }

  /* Round trips. */

  lemma HeaderRoundTrip(h: Header)
    requires h.version < 0x1_0000 && h.kind < 0x1_0000 && h.bodyLen < WORD
    ensures GetHeader(PutHeader(h)) == h
  {
    var s := PutHeader(h);
    assert s[..2] == PutU16(h.version) && s[2..4] == PutU16(h.kind) && s[4..8] == PutU32(h.bodyLen);
    U16RoundTrip(h.version);
    U16RoundTrip(h.kind);
    U32RoundTrip(h.bodyLen);
  }

  lemma Split3(a: Str, b: Str, c: Str)
    ensures var s := a + b + c;
            s[..|a|] == a && s[|a|..|a| + |b|] == b && s[|a| + |b|..] == c
  {
  }

  lemma Split4(a: Str, b: Str, c: Str, d: Str)
    ensures var s := a + b + c + d;
            s[..|a|] == a && s[|a|..|a| + |b|] == b && s[|a| + |b|..|a| + |b| + |c|] == c && s[|a| + |b| + |c|..] == d
  {
  }

  lemma PairRoundTrip(a: Str, b: Str)
    requires |a| < WORD && |b| < WORD
    ensures DecodePair(PairBody(a, b)) == Value((a, b))
  {
    Split4(PutU32(|a|), PutU32(|b|), a, b);
    U32RoundTrip(|a|);
    U32RoundTrip(|b|);
    assert PairBody(a, b)[8 + |a|..8 + |a| + |b|] == b;
  }

  /** Whatever a two-string reader accepts is what the writer makes of it. */
  lemma PairIsCanonical(data: Str)
    requires DecodePair(data).Value?
    ensures data == PairBody(DecodePair(data).value.0, DecodePair(data).value.1)
  {
    U32Canonical(data[..4]);
    U32Canonical(data[4..8]);
    var m := GetU32(data[..4]);
    assert data == data[..4] + data[4..8] + data[8..8 + m] + data[8 + m..];
  }

  lemma SingleRoundTrip(a: Str)
    requires |a| < WORD
    ensures DecodeSingle(SingleBody(a)) == Value(a)
  {
    assert SingleBody(a)[..4] == PutU32(|a|);
    U32RoundTrip(|a|);
  }

  lemma SingleIsCanonical(data: Str)
    requires DecodeSingle(data).Value?
    ensures data == SingleBody(DecodeSingle(data).value)
  {
    U32Canonical(data[..4]);
    assert data == data[..4] + data[4..];
  }

  function Sizes(ss: seq<Str>): (lens: seq<nat>)
    ensures |lens| == |ss| && forall i :: 0 <= i < |ss| ==> lens[i] == |ss[i]|
  {
    seq(|ss|, i requires 0 <= i < |ss| => |ss[i]|)
  }

  lemma {:induction false} SumOfSizes(ss: seq<Str>)
    ensures Sum(Sizes(ss)) == |Concat(ss)|
    ensures forall i :: 0 <= i < |ss| ==> |ss[i]| <= |Concat(ss)|
  {
    if ss != [] {
      SumOfSizes(ss[..|ss| - 1]);
      assert Sizes(ss)[..|ss| - 1] == Sizes(ss[..|ss| - 1]);
      assert forall i :: 0 <= i < |ss| - 1 ==> ss[i] == ss[..|ss| - 1][i];
    }
  }

  lemma LensAt(ss: seq<Str>, n: nat, i: nat)
    requires i < n < |ss|
    ensures Lens(ss[..n + 1])[4 * i..4 * i + 4] == Lens(ss[..n])[4 * i..4 * i + 4]
    ensures Lens(ss[..n + 1])[4 * n..] == PutU32(|ss[n]|)
  {
    assert ss[..n + 1][..n] == ss[..n];
    assert 4 * i + 4 <= 4 * n;
  }

  lemma {:induction false} LensEntry(ss: seq<Str>, n: nat, i: nat)
    requires i < n <= |ss|
    ensures Lens(ss[..n])[4 * i..4 * i + 4] == PutU32(|ss[i]|)
    decreases n
  {
    if i < n - 1 {
      LensAt(ss, n - 1, i);
      LensEntry(ss, n - 1, i);
    } else {
      assert ss[..n][..n - 1] == ss[..n - 1];
      Split3(Lens(ss[..n - 1]), PutU32(|ss[i]|), []);
    }
  }

  lemma LensRoundTrip(ss: seq<Str>)
    requires forall i :: 0 <= i < |ss| ==> |ss[i]| < WORD
    ensures ReadLens(Lens(ss), |ss|) == Sizes(ss)
  {
    assert ss[..|ss|] == ss;
    forall i | 0 <= i < |ss| ensures ReadLens(Lens(ss), |ss|)[i] == Sizes(ss)[i] {
      LensEntry(ss, |ss|, i);
      U32RoundTrip(|ss[i]|);
    }
  }

  lemma {:induction false} CutRoundTrip(ss: seq<Str>)
    requires |Concat(ss)| == Sum(Sizes(ss))
    ensures Cut(Concat(ss), Sizes(ss)) == ss
  {
    if ss != [] {
      var front, last := ss[..|ss| - 1], ss[|ss| - 1];
      SumOfSizes(front);
      CutRoundTrip(front);
      assert Sizes(ss)[..|ss| - 1] == Sizes(front);
      var k := |Concat(ss)| - |last|;
      assert Concat(ss)[..k] == Concat(front) && Concat(ss)[k..] == last;
    }
  }

  lemma SizesAppend(ss: seq<Str>, x: Str)
    ensures Sizes(ss + [x]) == Sizes(ss) + [|x|] && Concat(ss + [x]) == Concat(ss) + x
  {
    assert (ss + [x])[..|ss|] == ss;
  }

  lemma CutOneMore(s: Str, lens: seq<nat>, ss: seq<Str>)
    requires lens != [] && lens[|lens| - 1] <= |s|
    requires var k, n := |s| - lens[|lens| - 1], |lens| - 1; Concat(ss) == s[..k] && Sizes(ss) == lens[..n]
    ensures var k := |s| - lens[|lens| - 1]; Concat(ss + [s[k..]]) == s && Sizes(ss + [s[k..]]) == lens
  {
    var k := |s| - lens[|lens| - 1];
    SizesAppend(ss, s[k..]);
    assert s[..k] + s[k..] == s && lens[..|lens| - 1] + [lens[|lens| - 1]] == lens;
  }

  lemma {:induction false} CutIsCanonical(s: Str, lens: seq<nat>)
    requires |s| == Sum(lens)
    ensures Concat(Cut(s, lens)) == s && Sizes(Cut(s, lens)) == lens
    decreases |lens|
  {
    if lens != [] {
      var front := lens[..|lens| - 1];
      var k := |s| - lens[|lens| - 1];
      CutIsCanonical(s[..k], front);
      CutOneMore(s, lens, Cut(s[..k], front));
    }
  }

  lemma StringsReadBack(ss: seq<Str>)
    requires |Concat(ss)| < WORD
    ensures ReadStrings(Concat(ss), Sizes(ss)) == Value(ss)
  {
    SumOfSizes(ss);
    CutRoundTrip(ss);
    ReadsWhole(Concat(ss), Sizes(ss));
  }

  lemma ReadsWhole(rest: Str, lens: seq<nat>)
    requires |rest| == Sum(lens) < WORD
    ensures ReadStrings(rest, lens) == Value(Cut(rest, lens))
  {
  }

  lemma StringsAreCanonical(rest: Str, lens: seq<nat>)
    requires ReadStrings(rest, lens).Value?
    ensures Concat(ReadStrings(rest, lens).value) == rest && Sizes(ReadStrings(rest, lens).value) == lens
  {
    CutIsCanonical(rest, lens);
  }

  lemma LensOfFront(table: Str, ss: seq<Str>, n: nat)
    requires |ss| == n + 1 && |table| == 4 * |ss| && ReadLens(table, |ss|) == Sizes(ss)
    ensures ReadLens(table[..4 * n], n) == Sizes(ss[..n])
    ensures GetU32(table[4 * n..4 * n + 4]) == |ss[n]|
  {
    forall i | 0 <= i < n ensures ReadLens(table[..4 * n], n)[i] == Sizes(ss[..n])[i] {
      assert table[..4 * n][4 * i..4 * i + 4] == table[4 * i..4 * i + 4];
      assert ReadLens(table, |ss|)[i] == Sizes(ss)[i];
    }
    assert ReadLens(table, |ss|)[n] == Sizes(ss)[n];
  }

  lemma {:induction false} LensIsCanonical(table: Str, ss: seq<Str>)
    requires |table| == 4 * |ss| && ReadLens(table, |ss|) == Sizes(ss)
    ensures Lens(ss) == table
  {
    if ss != [] {
      var n := |ss| - 1;
      LensOfFront(table, ss, n);
      LensIsCanonical(table[..4 * n], ss[..n]);
      U32Canonical(table[4 * n..4 * n + 4]);
      assert table[..4 * n] + table[4 * n..4 * n + 4] == table;
    }
  }

  /** A list body in its four parts. */
  lemma NamesParts(code: Str, count: Str, table: Str, rest: Str)
    requires |code| == |count| == 4 && GetU32(code) == CODE_OK && |table| == 4 * GetU32(count)
    ensures DecodeNames(code + count + table + rest) == ReadStrings(rest, ReadLens(table, GetU32(count)))
  {
    Split4(code, count, table, rest);
  }

  lemma NamesSplit(data: Str)
    requires DecodeNames(data).Value? || DecodeNames(data).Overrun?
    ensures |data| >= 8 && |data| >= 8 + 4 * GetU32(data[4..8]) && GetU32(data[..4]) == CODE_OK
    ensures data == data[..4] + data[4..8] + data[8..8 + 4 * GetU32(data[4..8])] + data[8 + 4 * GetU32(data[4..8])..]
  {
  }

  lemma NamesSize(names: seq<Str>)
    ensures |NamesBody(CODE_OK, names)| == 8 + 4 * |names| + |Concat(names)|
    ensures forall i :: 0 <= i < |names| ==> |names[i]| <= |Concat(names)|
  {
    SumOfSizes(names);
  }

  lemma NamesRoundTrip(names: seq<Str>)
    requires |NamesBody(CODE_OK, names)| < WORD
    ensures DecodeNames(NamesBody(CODE_OK, names)) == Value(names)
  {
    NamesSize(names);
    U32RoundTrip(CODE_OK);
    U32RoundTrip(|names|);
    LensRoundTrip(names);
    NamesParts(PutU32(CODE_OK), PutU32(|names|), Lens(names), Concat(names));
    StringsReadBack(names);
  }

  /** An accepted list of names is byte for byte what the writer makes of it. */
  lemma NamesAreCanonical(data: Str)
    requires DecodeNames(data).Value?
    ensures data == NamesBody(CODE_OK, DecodeNames(data).value)
  {
    NamesSplit(data);
    var n := GetU32(data[4..8]);
    var table, rest := data[8..8 + 4 * n], data[8 + 4 * n..];
    NamesParts(data[..4], data[4..8], table, rest);
    U32Canonical(data[..4]);
    U32Canonical(data[4..8]);
    StringsAreCanonical(rest, ReadLens(table, n));
    LensIsCanonical(table, DecodeNames(data).value);
  }

  lemma Split5(a: Str, b: Str, c: Str, d: Str, e: Str)
    ensures var s := a + b + c + d + e;
            && s[..|a|] == a && s[|a|..|a| + |b|] == b && s[|a| + |b|..|a| + |b| + |c|] == c
            && s[|a| + |b| + |c|..|a| + |b| + |c| + |d|] == d && s[|a| + |b| + |c| + |d|..] == e
  {
    Split4(a, b, c, d);
    Split3(a + b + c + d, e, []);
  }

  /** A chat body in its five parts. */
  lemma ChatParts(code: Str, count: Str, senders: Str, table: Str, rest: Str)
    requires |code| == |count| == 4 && GetU32(code) == CODE_OK
    requires |senders| == GetU32(count) && |table| == 4 * GetU32(count)
    ensures var strings := ReadStrings(rest, ReadLens(table, GetU32(count)));
            DecodeChat(code + count + senders + table + rest) ==
              if strings.Value? then Value(MakeChat(senders, strings.value))
              else if strings.Overrun? then Overrun else BodyError
  {
    Split5(code, count, senders, table, rest);
  }

  lemma ChatSplit(data: Str)
    requires DecodeChat(data).Value? || DecodeChat(data).Overrun?
    ensures |data| >= 8 && |data| >= 8 + 5 * GetU32(data[4..8]) && GetU32(data[..4]) == CODE_OK
    ensures var n := GetU32(data[4..8]);
            data == data[..4] + data[4..8] + data[8..8 + n] + data[8 + n..8 + 5 * n] + data[8 + 5 * n..]
  {
  }

  lemma ChatSize(c: Chat)
    ensures |ChatBody(CODE_OK, c)| == 8 + 5 * |c| + |Concat(Contents(c))|
    ensures forall i :: 0 <= i < |c| ==> |Contents(c)[i]| <= |Concat(Contents(c))|
  {
    SumOfSizes(Contents(c));
  }

  lemma ChatOfParts(c: Chat)
    ensures MakeChat(Senders(c), Contents(c)) == c
  {
  }

  lemma PartsOfChat(senders: Str, contents: seq<Str>)
    requires |senders| == |contents|
    ensures Senders(MakeChat(senders, contents)) == senders && Contents(MakeChat(senders, contents)) == contents
  {
  }

  lemma ChatRoundTrip(c: Chat)
    requires |ChatBody(CODE_OK, c)| < WORD
    ensures DecodeChat(ChatBody(CODE_OK, c)) == Value(c)
  {
    ChatSize(c);
    U32RoundTrip(CODE_OK);
    U32RoundTrip(|c|);
    LensRoundTrip(Contents(c));
    ChatParts(PutU32(CODE_OK), PutU32(|c|), Senders(c), Lens(Contents(c)), Concat(Contents(c)));
    StringsReadBack(Contents(c));
    ChatOfParts(c);
  }

  /** An accepted chat is byte for byte what the writer makes of it. */
  lemma ChatIsCanonical(data: Str)
    requires DecodeChat(data).Value?
    ensures data == ChatBody(CODE_OK, DecodeChat(data).value)
  {
    ChatSplit(data);
    var n := GetU32(data[4..8]);
    var senders, table, rest := data[8..8 + n], data[8 + n..8 + 5 * n], data[8 + 5 * n..];
    ChatParts(data[..4], data[4..8], senders, table, rest);
    U32Canonical(data[..4]);
    U32Canonical(data[4..8]);
    StringsAreCanonical(rest, ReadLens(table, n));
    var ss := ReadStrings(rest, ReadLens(table, n)).value;
    LensIsCanonical(table, ss);
    PartsOfChat(senders, ss);
  }

  /* Exactly when a list is read back. */

  /** The declared lengths of a list of names, added up without wrapping. */
  function DeclaredNames(data: Str): nat
    requires |data| >= 8 && |data| >= 8 + 4 * GetU32(data[4..8])
  {
    Sum(ReadLens(data[8..8 + 4 * GetU32(data[4..8])], GetU32(data[4..8])))
  }

  function DeclaredTexts(data: Str): nat
    requires |data| >= 8 && |data| >= 8 + 5 * GetU32(data[4..8])
  {
    Sum(ReadLens(data[8 + GetU32(data[4..8])..8 + 5 * GetU32(data[4..8])], GetU32(data[4..8])))
  }

  /** A list body that passes the size checks is read as a canonical list exactly
      when its declared lengths add up to less than 2^32; otherwise its strings do
      not fit the body. */
  lemma NamesReadExactly(data: Str)
    requires DecodeNames(data).Value? || DecodeNames(data).Overrun?
    ensures |data| >= 8 && |data| >= 8 + 4 * GetU32(data[4..8])
    ensures DecodeNames(data).Value? <==> DeclaredNames(data) < WORD
    ensures DecodeNames(data).Value? <==> 8 + 4 * GetU32(data[4..8]) + DeclaredNames(data) == |data|
  {
  }

  lemma TextsReadExactly(data: Str)
    requires DecodeChat(data).Value? || DecodeChat(data).Overrun?
    ensures |data| >= 8 && |data| >= 8 + 5 * GetU32(data[4..8])
    ensures DecodeChat(data).Value? <==> DeclaredTexts(data) < WORD
    ensures DecodeChat(data).Value? <==> 8 + 5 * GetU32(data[4..8]) + DeclaredTexts(data) == |data|
  {
  }

  /** A body with two declared lengths of 2^31 and no strings passes the checks. */
  lemma WrappedSumIsAccepted()
    ensures DecodeNames(PutU32(CODE_OK) + PutU32(2) + (PutU32(0x8000_0000) + PutU32(0x8000_0000))) == Overrun
  {
    var half := PutU32(0x8000_0000);
    U32RoundTrip(CODE_OK);
    U32RoundTrip(2);
    U32RoundTrip(0x8000_0000);
    Split3(half, half, []);
    assert half + half + [] == half + half && (half + half)[0..4] == (half + half)[..4]
      && (half + half)[4..8] == (half + half)[4..];
    assert ReadLens(half + half, 2) == [0x8000_0000, 0x8000_0000];
    SumOfTwo(0x8000_0000, 0x8000_0000);
    NamesParts(PutU32(CODE_OK), PutU32(2), half + half, []);
    assert PutU32(CODE_OK) + PutU32(2) + (half + half) + [] == PutU32(CODE_OK) + PutU32(2) + (half + half);
  }

  lemma SumOfTwo(a: nat, b: nat)
    ensures Sum([a, b]) == a + b
  {
    assert [a, b][..1] == [a] && Sum([a, b]) == Sum([a]) + b;
    assert [a][..0] == [] && Sum([a]) == Sum([]) + a;
  }

  /* A stream of messages. */

  /** The first message of a stream: its type, its body, and what follows. */
  function CutMessage(stream: Str): Decoded<(nat, Str, Str)> {
    if |stream| < HEADER then BodyError
    else
      var h := GetHeader(stream[..HEADER]);
      if |stream| < HEADER + h.bodyLen then BodyError
      else Value((h.kind, stream[HEADER..HEADER + h.bodyLen], stream[HEADER + h.bodyLen..]))
  }

  /** Every header length equals its body, so a message is cut off a stream exactly. */
  lemma FrameIsCutOff(kind: nat, body: Str, rest: Str)
    requires kind < 0x1_0000 && |body| < WORD
    ensures CutMessage(Frame(kind, body) + rest) == Value((kind, body, rest))
    ensures GetHeader(Frame(kind, body)[..HEADER]) == Header(VERSION, kind, |body|)
  {
    var h := PutHeader(Header(VERSION, kind, |body|));
    HeaderRoundTrip(Header(VERSION, kind, |body|));
    Split3(h, body, rest);
    Split3(h, body, []);
    assert h + body + [] == h + body;
  }

  datatype Packet = Packet(kind: nat, body: Str)

  function Stream(ps: seq<Packet>): Str {
    if ps == [] then [] else Frame(ps[0].kind, ps[0].body) + Stream(ps[1..])
  }

  ghost predicate Sendable(ps: seq<Packet>) {
    forall i :: 0 <= i < |ps| ==> ps[i].kind < 0x1_0000 && |ps[i].body| < WORD
  }

  /** A concatenation of messages can be cut back in one way only. */
  lemma {:induction false} StreamsAreUnambiguous(ps: seq<Packet>, qs: seq<Packet>)
    requires Sendable(ps) && Sendable(qs) && Stream(ps) == Stream(qs)
    ensures ps == qs
    decreases |ps|
  {
    if ps == [] {
      StreamIsEmpty(qs);
    } else if qs == [] {
      StreamIsEmpty(ps);
    } else {
      FrameIsCutOff(ps[0].kind, ps[0].body, Stream(ps[1..]));
      FrameIsCutOff(qs[0].kind, qs[0].body, Stream(qs[1..]));
      StreamsAreUnambiguous(ps[1..], qs[1..]);
      assert ps == [ps[0]] + ps[1..] && qs == [qs[0]] + qs[1..];
    }
  }

  lemma StreamIsEmpty(ps: seq<Packet>)
    requires Stream(ps) == []
    ensures ps == []
  {
    assert ps != [] ==> |Stream(ps)| >= HEADER;
  }
}
