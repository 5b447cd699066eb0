/** Byte strings and the little-endian integers of the wire format. */
module Bytes {

  newtype byte = x: int | 0 <= x < 0x100

  /** A `std::string` or a received buffer. */
  type Str = seq<byte>

  const STAR: byte := 42
  const SPACE: byte := 32

  /** `std::string` order. */
  predicate Less(a: Str, b: Str)
    decreases a
  {
    b != [] && (a == [] || a[0] < b[0] || (a[0] == b[0] && Less(a[1..], b[1..])))
  }

  lemma {:induction false} LessIsTotal(a: Str, b: Str)
    ensures Less(a, b) || a == b || Less(b, a)
    decreases a
  {
    if a != [] && b != [] && a[0] == b[0] {
      LessIsTotal(a[1..], b[1..]);
      assert a == [a[0]] + a[1..] && b == [b[0]] + b[1..];
    }
  }

  lemma {:induction false} LessIsTransitive(a: Str, b: Str, c: Str)
    requires Less(a, b) && Less(b, c)
    ensures Less(a, c)
    decreases a
  {
    if a != [] && a[0] == b[0] && b[0] == c[0] { LessIsTransitive(a[1..], b[1..], c[1..]); }
  }

  lemma {:induction false} LessIsStrict(a: Str)
    ensures !Less(a, a)
    decreases a
  {
    if a != [] { LessIsStrict(a[1..]); }
  }

  /** The first `k` bytes agree, and then `a` ends or has the smaller byte. */
  predicate DiffersAt(a: Str, b: Str, k: nat) {
    k <= |a| && k < |b| && a[..k] == b[..k] && (k == |a| || a[k] < b[k])
  }

  lemma DiffersLater(a: Str, b: Str, k: nat)
    requires a != [] && b != [] && a[0] == b[0]
    ensures DiffersAt(a[1..], b[1..], k) <==> DiffersAt(a, b, k + 1)
  {
    if k < |a| && k + 1 < |b| {
      assert a[..k + 1] == [a[0]] + a[1..][..k] && b[..k + 1] == [b[0]] + b[1..][..k];
    }
  }

  /** One string comes before another exactly if it does at the first byte in which
      they differ. */
  lemma {:induction false} LessIsByteOrder(a: Str, b: Str)
    ensures Less(a, b) <==> exists k: nat :: DiffersAt(a, b, k)
    decreases a
  {
    if b == [] {
    } else if a == [] || a[0] < b[0] {
      assert DiffersAt(a, b, 0);
    } else if a[0] > b[0] {
      forall k: nat ensures !DiffersAt(a, b, k) {
        if k > 0 && k <= |a| && k < |b| { assert a[..k][0] != b[..k][0]; }
      }
    } else {
      LessIsByteOrder(a[1..], b[1..]);
      if k: nat :| DiffersAt(a[1..], b[1..], k) {
        DiffersLater(a, b, k);
      }
      if k: nat :| DiffersAt(a, b, k) {
        assert k > 0;
        DiffersLater(a, b, k - 1);
      }
    }
  }

  ghost predicate Increasing(s: seq<Str>) {
    forall i, j :: 0 <= i < j < |s| ==> Less(s[i], s[j])
  }

  /** An increasing list holds each string once, in byte order. */
  lemma IncreasingIsByteOrder(s: seq<Str>, i: nat, j: nat)
    requires Increasing(s) && i < j < |s|
    ensures s[i] != s[j] && exists k: nat :: DiffersAt(s[i], s[j], k)
  {
    LessIsStrict(s[i]);
    LessIsByteOrder(s[i], s[j]);
  }

  const WORD: nat := 0x1_0000_0000

  /** The `k` low bytes of `n`, least significant first. */
  function Put(n: nat, k: nat): (s: Str)
    ensures |s| == k
  {
    if k == 0 then [] else [(n % 0x100) as byte] + Put(n / 0x100, k - 1)
  }

  function Get(s: Str): nat {
    if s == [] then 0 else s[0] as nat + 0x100 * Get(s[1..])
  }

  function Range(k: nat): nat { if k == 0 then 1 else 0x100 * Range(k - 1) }

  lemma {:induction false} GetIsBounded(s: Str)
    ensures Get(s) < Range(|s|)
  {
    if s != [] { GetIsBounded(s[1..]); }
  }

  lemma {:induction false} PutGet(n: nat, k: nat)
    requires n < Range(k)
    ensures Get(Put(n, k)) == n
  {
    if k > 0 {
      PutGet(n / 0x100, k - 1);
      assert Put(n, k)[1..] == Put(n / 0x100, k - 1);
    }
  }

  lemma {:induction false} GetPut(s: Str)
    ensures Put(Get(s), |s|) == s
  {
    if s != [] {
      GetPut(s[1..]);
      assert Get(s) % 0x100 == s[0] as nat && Get(s) / 0x100 == Get(s[1..]);
      assert s == [s[0]] + s[1..];
    }
  }

  function PutU32(n: nat): (s: Str)
    ensures |s| == 4
  {
    Put(n, 4)
  }

  function GetU32(s: Str): (n: nat)
    requires |s| == 4
    ensures n < WORD
  {
    GetIsBounded(s);
    assert Range(4) == WORD by { assert Range(2) == 0x1_0000; }
    Get(s)
  }

  function PutU16(n: nat): (s: Str)
    ensures |s| == 2
  {
    Put(n, 2)
  }

  function GetU16(s: Str): (n: nat)
    requires |s| == 2
    ensures n < 0x1_0000
  {
    GetIsBounded(s);
    assert Range(1) == 0x100;
    Get(s)
  }

  /** The bytes of a 32-bit integer, least significant first. */
  lemma BytesOfU32(n: nat)
    ensures PutU32(n) == [(n % 0x100) as byte, (n / 0x100 % 0x100) as byte,
                          (n / 0x1_0000 % 0x100) as byte, (n / 0x100_0000 % 0x100) as byte]
  {
    var n1 := n / 0x100;
    var n2 := n1 / 0x100;
    var n3 := n2 / 0x100;
    assert n2 == n / 0x1_0000 && n3 == n / 0x100_0000;
    assert Put(n3, 1) == [(n3 % 0x100) as byte] + Put(n3 / 0x100, 0);
    assert Put(n2, 2) == [(n2 % 0x100) as byte] + Put(n3, 1);
    assert Put(n1, 3) == [(n1 % 0x100) as byte] + Put(n2, 2);
  }

  lemma BytesOfU16(n: nat)
    ensures PutU16(n) == [(n % 0x100) as byte, (n / 0x100 % 0x100) as byte]
  {
    var n1 := n / 0x100;
    assert Put(n1, 1) == [(n1 % 0x100) as byte] + Put(n1 / 0x100, 0);
  }

  lemma U32RoundTrip(n: nat)
    requires n < WORD
    ensures GetU32(PutU32(n)) == n
  {
    assert Range(2) == 0x1_0000;
    PutGet(n, 4);
  }

  lemma U32Canonical(s: Str)
    requires |s| == 4
    ensures PutU32(GetU32(s)) == s
  {
    GetPut(s);
  }

  lemma U16Canonical(s: Str)
    requires |s| == 2
    ensures PutU16(GetU16(s)) == s
  {
    GetPut(s);
  }

  lemma U16RoundTrip(n: nat)
    requires n < 0x1_0000
    ensures GetU16(PutU16(n)) == n
  {
    assert Range(1) == 0x100;
    PutGet(n, 2);
  }
}
