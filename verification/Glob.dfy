/** The username pattern matcher of database.cc. */
module Glob {
  import opened Bytes

  /** The declared meaning of a pattern: each `*` stands for some string, every
      other byte for itself. */
  ghost predicate Matches(p: Str, t: Str)
    decreases p
  {
    if p == [] then t == []
    else if p[0] == STAR then exists k :: 0 <= k <= |t| && Matches(p[1..], t[k..])
    else t != [] && t[0] == p[0] && Matches(p[1..], t[1..])
  }

  /** No `*` before the last byte. */
  ghost predicate StarOnlyLast(t: Str) {
    forall k :: 0 <= k < |t| - 1 ==> t[k] != STAR
  }

  lemma StarSkips(p: Str, t: Str, k: nat)
    requires p != [] && p[0] == STAR && k <= |t| && Matches(p, t[k..])
    ensures Matches(p, t)
  {
    var j :| 0 <= j <= |t[k..]| && Matches(p[1..], t[k..][j..]);
    assert t[k..][j..] == t[k + j..];
  }

  /** A leading `*` matches nothing, or takes one byte and stays. */
  lemma StarUnfolds(p: Str, t: Str)
    requires p != [] && p[0] == STAR
    ensures Matches(p, t) <==> Matches(p[1..], t) || (t != [] && Matches(p, t[1..]))
  {
    assert t[0..] == t;
    if Matches(p, t) {
      var k :| 0 <= k <= |t| && Matches(p[1..], t[k..]);
      if k > 0 { assert t[1..][k - 1..] == t[k..]; }
    }
    if t != [] && Matches(p, t[1..]) { StarSkips(p, t, 1); }
  }

  /** A literal stretch of the pattern can only match itself. */
  lemma {:induction false} LiteralStretch(p: Str, t: Str, n: nat)
    requires n <= |p| && (forall k :: 0 <= k < n ==> p[k] != STAR) && Matches(p, t)
    ensures n <= |t| && t[..n] == p[..n] && Matches(p[n..], t[n..])
    decreases n
  {
    if n == 0 {
      assert p[0..] == p && t[0..] == t;
    } else {
      LiteralStretch(p[1..], t[1..], n - 1);
      assert p[1..][n - 1..] == p[n..] && t[1..][n - 1..] == t[n..];
      assert t == [t[0]] + t[1..] && p == [p[0]] + p[1..];
      assert t[..n] == [t[0]] + t[1..][..n - 1] && p[..n] == [p[0]] + p[1..][..n - 1];
    }
  }

  lemma {:induction false} LiteralStretchMatches(p: Str, t: Str, n: nat)
    requires n <= |p| && n <= |t| && (forall k :: 0 <= k < n ==> p[k] != STAR) && t[..n] == p[..n]
    requires Matches(p[n..], t[n..])
    ensures Matches(p, t)
    decreases n
  {
    if n == 0 {
      assert p[0..] == p && t[0..] == t;
    } else {
      assert p[1..][n - 1..] == p[n..] && t[1..][n - 1..] == t[n..];
      assert t[0] == t[..n][0] == p[..n][0] == p[0];
      assert t[1..][..n - 1] == t[..n][1..] == p[..n][1..] == p[1..][..n - 1];
      LiteralStretchMatches(p[1..], t[1..], n - 1);
    }
  }

  /** The exchange argument: the pattern starts with a star, `n - 1` literals and
      another star.  Once the literals have been found at all, their first place is
      as good as any other, so the matcher may forget the first star. */
  lemma LastStarSuffices(p: Str, t: Str, n: nat)
    requires 0 < n < |p| && p[0] == STAR && p[n] == STAR
    requires forall k :: 1 <= k < n ==> p[k] != STAR
    requires n - 1 <= |t| && Matches(p, t)
    ensures Matches(p[n..], t[n - 1..])
  {
    var k :| 0 <= k <= |t| && Matches(p[1..], t[k..]);
    StretchAt(p[1..], t[k..], n - 1);
    assert p[1..][n - 1..] == p[n..];
    assert t[k..][n - 1..] == t[n - 1..][k..];
    StarSkips(p[n..], t[n - 1..], k);
  }

  lemma StretchAt(q: Str, u: Str, n: nat)
    requires n <= |q| && (forall k :: 0 <= k < n ==> q[k] != STAR) && Matches(q, u)
    ensures n <= |u| && Matches(q[n..], u[n..])
  {
    LiteralStretch(q, u, n);
  }

  predicate AllStars(p: Str) {
    forall k :: 0 <= k < |p| ==> p[k] == STAR
  }

  lemma {:induction false} OnlyStarsMatchNothing(p: Str)
    requires Matches(p, [])
    ensures AllStars(p)
    decreases p
  {
    if p != [] {
      StarUnfolds(p, []);
      OnlyStarsMatchNothing(p[1..]);
      assert forall k :: 1 <= k < |p| ==> p[k] == p[1..][k - 1];
    }
  }

  lemma {:induction false} AllStarsMatchNothing(p: Str)
    requires AllStars(p)
    ensures Matches(p, [])
    decreases p
  {
    if p != [] {
      AllStarsMatchNothing(p[1..]);
      StarUnfolds(p, []);
    }
  }

  lemma {:induction false} OnlyStarsMatchStar(p: Str)
    requires Matches(p, [STAR])
    ensures AllStars(p)
    decreases p
  {
    assert p != [] && p[0] == STAR;
    assert [STAR][1..] == [];
    StarUnfolds(p, [STAR]);
    if Matches(p, []) { OnlyStarsMatchNothing(p); } else { OnlyStarsMatchStar(p[1..]); }
    assert forall k :: 1 <= k < |p| ==> p[k] == p[1..][k - 1];
  }

  /** The matcher from a given state of its four index variables; `last` is -1
      while no star has been seen. */
  predicate Scan(p: Str, t: Str, pi: nat, ti: nat, last: int, saved: nat)
    requires pi <= |p| && saved <= ti <= |t| && -1 <= last < pi
    decreases |t| - saved, |p| - pi
  {
    if ti == |t| then AllStars(p[pi..])
    else if pi < |p| && t[ti] == p[pi] then Scan(p, t, pi + 1, ti + 1, last, saved)
    else if pi < |p| && p[pi] == STAR then Scan(p, t, pi + 1, ti, pi, ti)
    else if last != -1 then Scan(p, t, last + 1, saved + 1, last, saved + 1)
    else false
  }

  predicate Wildcard(p: Str, t: Str) { Scan(p, t, 0, 0, -1, 0) }

  /** The loop of `wildcard_match`; it ends within (|p| + 1) * (|t| + 1) turns. */
  method WildcardMatch(pattern: Str, target: Str) returns (matched: bool, ghost turns: nat)
    ensures matched == Wildcard(pattern, target)
    ensures turns <= (|pattern| + 1) * (|target| + 1)
  {
    var targetIdx, patternIdx, lastStar, savedTarget := 0, 0, -1, 0;
    turns := 0;
    while targetIdx < |target|
      invariant patternIdx <= |pattern| && savedTarget <= targetIdx <= |target| && -1 <= lastStar < patternIdx
      invariant Wildcard(pattern, target) == Scan(pattern, target, patternIdx, targetIdx, lastStar, savedTarget)
      invariant turns <= savedTarget * (|pattern| + 1) + patternIdx
      decreases |target| - savedTarget, |pattern| - patternIdx
    {
      turns := turns + 1;
      if patternIdx < |pattern| && target[targetIdx] == pattern[patternIdx] {
        targetIdx := targetIdx + 1;
        patternIdx := patternIdx + 1;
      } else if patternIdx < |pattern| && pattern[patternIdx] == STAR {
        TurnsGrow(savedTarget, targetIdx, |pattern| + 1);
        lastStar := patternIdx;
        patternIdx := patternIdx + 1;
        savedTarget := targetIdx;
      } else if lastStar != -1 {
        TurnsStep(savedTarget, |pattern| + 1);
        patternIdx := lastStar + 1;
        targetIdx := savedTarget + 1;
        savedTarget := savedTarget + 1;
      } else {
        TurnsGrow(savedTarget, |target|, |pattern| + 1);
        TurnsStep(|target|, |pattern| + 1);
        return false, turns;
      }
    }
    TurnsGrow(savedTarget, |target|, |pattern| + 1);
    TurnsStep(|target|, |pattern| + 1);
    ghost var rest := pattern[patternIdx..];
    while patternIdx < |pattern| && pattern[patternIdx] == STAR
      invariant |pattern| - |rest| <= patternIdx <= |pattern|
      invariant AllStars(rest) <==> AllStars(pattern[patternIdx..])
    {
      assert pattern[patternIdx..] == [STAR] + pattern[patternIdx + 1..];
      patternIdx := patternIdx + 1;
    }
    assert patternIdx < |pattern| ==> !AllStars(pattern[patternIdx..]) by {
      if patternIdx < |pattern| { assert pattern[patternIdx..][0] == pattern[patternIdx]; }
    }
    matched := patternIdx == |pattern|;
  }

  lemma TurnsGrow(a: nat, b: nat, n: nat)
    requires a <= b
    ensures a * n <= b * n
  {
  }

  lemma TurnsStep(a: nat, n: nat)
    ensures a * n + n == (a + 1) * n
    ensures n * (a + 1) == (a + 1) * n
  {
  }

  /** Every answer "yes" is right, for every pattern and every target. */
  lemma {:induction false} ScanIsSound(p: Str, t: Str, pi: nat, ti: nat, last: int, saved: nat)
    requires pi <= |p| && saved <= ti <= |t| && -1 <= last < pi && (last >= 0 ==> p[last] == STAR)
    requires Scan(p, t, pi, ti, last, saved)
    ensures Matches(p[pi..], t[ti..]) || (last >= 0 && Matches(p[last..], t[saved..]))
    decreases |t| - saved, |p| - pi
  {
    if ti == |t| {
      AllStarsMatchNothing(p[pi..]);
    } else if pi < |p| && t[ti] == p[pi] {
      ScanIsSound(p, t, pi + 1, ti + 1, last, saved);
      assert p[pi..][1..] == p[pi + 1..] && t[ti..][1..] == t[ti + 1..];
    } else if pi < |p| && p[pi] == STAR {
      ScanIsSound(p, t, pi + 1, ti, pi, ti);
      assert p[pi..][1..] == p[pi + 1..];
      StarUnfolds(p[pi..], t[ti..]);
    } else {
      ScanIsSound(p, t, last + 1, saved + 1, last, saved + 1);
      assert p[last..][1..] == p[last + 1..] && t[saved..][1..] == t[saved + 1..];
      StarUnfolds(p[last..], t[saved..]);
      StarUnfolds(p[last..], t[saved + 1..]);
    }
  }

  /** What the four indices mean while the match is still open. */
  ghost predicate Tracks(p: Str, t: Str, pi: nat, ti: nat, last: int, saved: nat) {
    && pi <= |p| && saved <= ti <= |t| && -1 <= last < pi
    && (last == -1 ==> Matches(p[pi..], t[ti..]))
    && (last >= 0 ==>
          && p[last] == STAR && ti - saved == pi - last - 1 && t[saved..ti] == p[last + 1..pi]
          && (forall k :: last < k < pi ==> p[k] != STAR)
          && Matches(p[last..], t[saved..]))
  }

  /** The rest after the stretch matches where the stretch was found, if the star
      before it takes no more. */
  lemma TracksForward(p: Str, t: Str, pi: nat, ti: nat, last: int, saved: nat)
    requires Tracks(p, t, pi, ti, last, saved) && last >= 0
    requires pi == |p| || p[pi] != STAR
    requires ti < |t| && (pi == |p| || p[pi] != t[ti])
    ensures saved < |t| && Matches(p[last..], t[saved + 1..])
  {
    StarUnfolds(p[last..], t[saved..]);
    assert p[last..][1..] == p[last + 1..] && t[saved..][1..] == t[saved + 1..];
    assert p[last + 1..][pi - last - 1..] == p[pi..] && t[saved..][ti - saved..] == t[ti..];
    if Matches(p[last + 1..], t[saved..]) { LiteralStretch(p[last + 1..], t[saved..], pi - last - 1); }
  }

  lemma TracksToStar(p: Str, t: Str, pi: nat, ti: nat, last: int, saved: nat)
    requires Tracks(p, t, pi, ti, last, saved) && pi < |p| && p[pi] == STAR
    ensures Matches(p[pi..], t[ti..])
  {
    if last >= 0 {
      var q, u, n := p[last..], t[saved..], pi - last;
      LastStarSuffices(q, u, n);
      assert q[n..] == p[pi..] && u[n - 1..] == t[ti..];
    }
  }

  lemma TracksAtEnd(p: Str, t: Str, pi: nat, last: int, saved: nat)
    requires Tracks(p, t, pi, |t|, last, saved)
    ensures AllStars(p[pi..])
  {
    if last >= 0 {
      var k :| 0 <= k <= |t[saved..]| && Matches(p[last..][1..], t[saved..][k..]);
      assert p[last..][1..] == p[last + 1..];
      LiteralStretch(p[last + 1..], t[saved..][k..], pi - last - 1);
      assert k == 0 && p[last + 1..][pi - last - 1..] == p[pi..];
      assert t[saved..][0..][pi - last - 1..] == [];
    }
    OnlyStarsMatchNothing(p[pi..]);
  }

  /** Remembering only the last star loses no match. */
  lemma {:induction false} ScanIsComplete(p: Str, t: Str, pi: nat, ti: nat, last: int, saved: nat)
    requires StarOnlyLast(t) && Tracks(p, t, pi, ti, last, saved)
    ensures Scan(p, t, pi, ti, last, saved)
    decreases |t| - saved, |p| - pi
  {
    if ti == |t| {
      TracksAtEnd(p, t, pi, last, saved);
    } else if pi < |p| && t[ti] == p[pi] == STAR {
      TracksToStar(p, t, pi, ti, last, saved);
      assert t[ti..] == [STAR];
      OnlyStarsMatchStar(p[pi..]);
      assert p[pi + 1..] == p[pi..][1..];
    } else if pi < |p| && t[ti] == p[pi] {
      assert p[pi..][1..] == p[pi + 1..] && t[ti..][1..] == t[ti + 1..];
      if last >= 0 {
        assert t[saved..ti + 1] == t[saved..ti] + [t[ti]] && p[last + 1..pi + 1] == p[last + 1..pi] + [p[pi]];
      }
      ScanIsComplete(p, t, pi + 1, ti + 1, last, saved);
    } else if pi < |p| && p[pi] == STAR {
      TracksToStar(p, t, pi, ti, last, saved);
      ScanIsComplete(p, t, pi + 1, ti, pi, ti);
    } else if last != -1 {
      TracksForward(p, t, pi, ti, last, saved);
      ScanIsComplete(p, t, last + 1, saved + 1, last, saved + 1);
    }
  }

  lemma WildcardIsSound(p: Str, t: Str)
    requires Wildcard(p, t)
    ensures Matches(p, t)
  {
    ScanIsSound(p, t, 0, 0, -1, 0);
    assert p[0..] == p && t[0..] == t;
  }

  lemma WildcardIsRight(p: Str, t: Str)
    requires StarOnlyLast(t)
    ensures Wildcard(p, t) <==> Matches(p, t)
  {
    assert p[0..] == p && t[0..] == t;
    if Matches(p, t) { ScanIsComplete(p, t, 0, 0, -1, 0); }
    if Wildcard(p, t) { WildcardIsSound(p, t); }
  }

  lemma {:induction false} FirstStar(t: Str) returns (k: nat)
    requires !StarOnlyLast(t)
    ensures k < |t| - 1 && t[k] == STAR && forall j :: 0 <= j < k ==> t[j] != STAR
  {
    k := 0;
    while t[k] != STAR
      invariant k < |t| - 1 && forall j :: 0 <= j < k ==> t[j] != STAR
      decreases |t| - k
    {
      if k + 1 == |t| - 1 { assert StarOnlyLast(t); }
      k := k + 1;
    }
  }

  /** The literal reading of a star in the target is tried first and never undone. */
  lemma {:induction false} PrefixAndStarScans(t: Str, k: nat, i: nat)
    requires k < |t| - 1 && t[k] == STAR && i <= k + 1
    ensures !Scan(t[..k] + [STAR], t, i, i, -1, 0)
    decreases k + 1 - i
  {
    if i <= k {
      assert (t[..k] + [STAR])[i] == t[i];
      PrefixAndStarScans(t, k, i + 1);
    }
  }

  /** A target with an earlier star is missed by some pattern: its own beginning up
      to that star. */
  lemma EarlierStarIsMissed(t: Str) returns (p: Str)
    requires !StarOnlyLast(t)
    ensures Matches(p, t) && !Wildcard(p, t)
  {
    var k := FirstStar(t);
    p := t[..k] + [STAR];
    PrefixAndStarScans(t, k, 0);
    assert p[k..] == [STAR] && p[k..][1..] == [];
    assert t[k..][|t[k..]|..] == [] && Matches([], []);
    assert Matches(p[k..], t[k..]);
    LiteralStretchMatches(p, t, k);
  }

  /** The matcher agrees with the meaning of patterns on exactly the targets that
      have no star before their last byte. */
  lemma WildcardIsExact(t: Str)
    ensures (forall p :: Wildcard(p, t) <==> Matches(p, t)) <==> StarOnlyLast(t)
  {
    if StarOnlyLast(t) {
      forall p ensures Wildcard(p, t) <==> Matches(p, t) { WildcardIsRight(p, t); }
    } else {
      var p := EarlierStarIsMissed(t);
      assert !(Wildcard(p, t) <==> Matches(p, t));
    }
  }
}
