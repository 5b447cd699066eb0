/** Where the fields of each message lie, byte by byte. */
module WireLayout {
  import opened Bytes
  import opened ChatDb
  import opened Wire

  /** The bytes `[from, from + |field|)` of a message are this field. */
  predicate FieldAt(s: Str, from: nat, field: Str) {
    from + |field| <= |s| && forall k :: 0 <= k < |field| ==> s[from + k] == field[k]
  }

  lemma FieldIsThere(before: Str, field: Str, after: Str)
    ensures FieldAt(before + field + after, |before|, field)
  {
  }

  lemma FieldInField(s: Str, from: nat, part: Str, at: nat, field: Str)
    requires FieldAt(s, from, part) && FieldAt(part, at, field)
    ensures FieldAt(s, from + at, field)
  {
  }

  /** The eight bytes in front of every body: version 1, the type and the length. */
  lemma HeaderLayout(kind: nat, body: Str)
    requires kind < 0x1_0000 && |body| < WORD
    ensures |Frame(kind, body)| == 8 + |body| && FieldAt(Frame(kind, body), 8, body)
    ensures var n := |body|;
            Frame(kind, body)[..8] ==
              [1, 0, (kind % 0x100) as byte, (kind / 0x100) as byte, (n % 0x100) as byte, (n / 0x100 % 0x100) as byte,
               (n / 0x1_0000 % 0x100) as byte, (n / 0x100_0000) as byte]
  {
    BytesOfU16(VERSION);
    BytesOfU16(kind);
    BytesOfU32(|body|);
  }

  lemma PairLayout(a: Str, b: Str)
    ensures var s := PairBody(a, b);
            && |s| == 8 + |a| + |b|
            && FieldAt(s, 0, PutU32(|a|)) && FieldAt(s, 4, PutU32(|b|)) && FieldAt(s, 8, a) && FieldAt(s, 8 + |a|, b)
  {
    Split4(PutU32(|a|), PutU32(|b|), a, b);
  }

  lemma SingleLayout(a: Str)
    ensures |SingleBody(a)| == 4 + |a| && FieldAt(SingleBody(a), 0, PutU32(|a|)) && FieldAt(SingleBody(a), 4, a)
  {
  }

  /** The total length of the first `n` strings. */
  function Total(ss: seq<Str>, n: nat): nat
    requires n <= |ss|
  {
    if n == 0 then 0 else Total(ss, n - 1) + |ss[n - 1]|
  }

  lemma {:induction false} ConcatLayout(ss: seq<Str>, i: nat, n: nat)
    requires i < n <= |ss|
    ensures |Concat(ss[..n])| == Total(ss, n)
    ensures FieldAt(Concat(ss[..n]), Total(ss, i), ss[i])
    decreases n
  {
    assert ss[..n][..n - 1] == ss[..n - 1];
    var front := Concat(ss[..n - 1]);
    if i < n - 1 {
      ConcatLayout(ss, i, n - 1);
      FieldIsThere([], front, ss[n - 1]);
      FieldInField(front + ss[n - 1], 0, front, Total(ss, i), ss[i]);
    } else {
      if n > 1 { ConcatLayout(ss, n - 2, n - 1); }
      FieldIsThere(front, ss[i], []);
    }
  }

  lemma LensLayout(ss: seq<Str>, i: nat)
    requires i < |ss|
    ensures FieldAt(Lens(ss), 4 * i, PutU32(|ss[i]|))
  {
    assert ss[..|ss|] == ss;
    LensEntry(ss, |ss|, i);
  }

  lemma StringLayout(ss: seq<Str>, i: nat)
    requires i < |ss|
    ensures |Concat(ss)| == Total(ss, |ss|) && FieldAt(Concat(ss), Total(ss, i), ss[i])
  {
    assert ss[..|ss|] == ss;
    ConcatLayout(ss, i, |ss|);
  }

  lemma LengthInTable(s: Str, from: nat, ss: seq<Str>, i: nat)
    requires i < |ss| && FieldAt(s, from, Lens(ss))
    ensures FieldAt(s, from + 4 * i, PutU32(|ss[i]|))
  {
    LensLayout(ss, i);
    FieldInField(s, from, Lens(ss), 4 * i, PutU32(|ss[i]|));
  }

  lemma StringInStrings(s: Str, from: nat, ss: seq<Str>, i: nat)
    requires i < |ss| && FieldAt(s, from, Concat(ss))
    ensures |Concat(ss)| == Total(ss, |ss|) && FieldAt(s, from + Total(ss, i), ss[i])
  {
    StringLayout(ss, i);
    FieldInField(s, from, Concat(ss), Total(ss, i), ss[i]);
  }

  /** The four parts of a list body, and the five of a chat body. */
  predicate ListParts(s: Str, names: seq<Str>) {
    && FieldAt(s, 0, PutU32(CODE_OK)) && FieldAt(s, 4, PutU32(|names|))
    && FieldAt(s, 8, Lens(names)) && FieldAt(s, 8 + 4 * |names|, Concat(names))
    && |s| == 8 + 4 * |names| + |Concat(names)|
  }

  predicate TextParts(s: Str, c: Chat) {
    && FieldAt(s, 0, PutU32(CODE_OK)) && FieldAt(s, 4, PutU32(|c|)) && FieldAt(s, 8, Senders(c))
    && FieldAt(s, 8 + |c|, Lens(Contents(c))) && FieldAt(s, 8 + 5 * |c|, Concat(Contents(c)))
    && |s| == 8 + 5 * |c| + |Concat(Contents(c))|
  }

  lemma NamesHasParts(names: seq<Str>)
    ensures ListParts(NamesBody(CODE_OK, names), names)
  {
    Split4(PutU32(CODE_OK), PutU32(|names|), Lens(names), Concat(names));
  }

  lemma ChatHasParts(c: Chat)
    ensures TextParts(ChatBody(CODE_OK, c), c)
  {
    Split5(PutU32(CODE_OK), PutU32(|c|), Senders(c), Lens(Contents(c)), Concat(Contents(c)));
  }

  /** A list of names: status, count, the table of lengths, the names themselves. */
  predicate NameAt(s: Str, names: seq<Str>, i: nat)
    requires i < |names|
  {
    && FieldAt(s, 0, PutU32(CODE_OK)) && FieldAt(s, 4, PutU32(|names|))
    && FieldAt(s, 8 + 4 * i, PutU32(|names[i]|))
    && FieldAt(s, 8 + 4 * |names| + Total(names, i), names[i])
    && |s| == 8 + 4 * |names| + Total(names, |names|)
  }

  /** A chat: status, count, one byte for each sender, the table of lengths, the texts. */
  predicate TextAt(s: Str, c: Chat, i: nat)
    requires i < |c|
  {
    && FieldAt(s, 0, PutU32(CODE_OK)) && FieldAt(s, 4, PutU32(|c|))
    && FieldAt(s, 8 + i, [c[i].sender])
    && FieldAt(s, 8 + |c| + 4 * i, PutU32(|c[i].content|))
    && FieldAt(s, 8 + 5 * |c| + Total(Contents(c), i), c[i].content)
    && |s| == 8 + 5 * |c| + Total(Contents(c), |c|)
  }

  lemma PartsHoldName(s: Str, names: seq<Str>, i: nat)
    requires i < |names| && ListParts(s, names)
    ensures NameAt(s, names, i)
  {
    LengthInTable(s, 8, names, i);
    StringInStrings(s, 8 + 4 * |names|, names, i);
  }

  lemma PartsHoldText(s: Str, c: Chat, i: nat)
    requires i < |c| && TextParts(s, c)
    ensures TextAt(s, c, i)
  {
    SenderLayout(c, i);
    FieldInField(s, 8, Senders(c), i, [c[i].sender]);
    LengthInTable(s, 8 + |c|, Contents(c), i);
    StringInStrings(s, 8 + 5 * |c|, Contents(c), i);
  }

  lemma NamesLayout(names: seq<Str>, i: nat)
    requires i < |names|
    ensures NameAt(NamesBody(CODE_OK, names), names, i)
  {
    NamesHasParts(names);
    PartsHoldName(NamesBody(CODE_OK, names), names, i);
  }

  lemma ChatLayout(c: Chat, i: nat)
    requires i < |c|
    ensures TextAt(ChatBody(CODE_OK, c), c, i)
  {
    ChatHasParts(c);
    PartsHoldText(ChatBody(CODE_OK, c), c, i);
  }

  lemma SenderLayout(c: Chat, i: nat)
    requires i < |c|
    ensures FieldAt(Senders(c), i, [c[i].sender])
  {
  }

  /** An empty list or chat is its status and its count; a refusal its status alone. */
  lemma ShortBodies(code: nat)
    ensures NamesBody(CODE_OK, []) == ChatBody(CODE_OK, []) == PutU32(CODE_OK) + PutU32(0)
    ensures code != CODE_OK ==> NamesBody(code, []) == ChatBody(code, []) == PutU32(code)
  {
  }
}
