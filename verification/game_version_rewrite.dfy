/** The profile half of the schema-154 migration
    (src/version_update/update_to_154.rs, `update_profile`): the first
    occurrence of `game_version="<digits>"` in the file's text is replaced by
    `game_version="154"`, and nothing else is touched. The pattern's `\d`
    is taken to be an ASCII digit. */
module GameVersionRewrite {
  import opened Wrappers
  import opened Numerals

  const Prefix: string := "game_version=\""
  const Replacement: string := "game_version=\"154\""

  /** The pattern `game_version="\d+"` matches the `n` characters of `t`
      starting at `i`: the prefix, one or more digits, a closing quote. */
  predicate IsMatch(t: string, i: nat, n: nat) {
    && i + n <= |t|
    && n >= |Prefix| + 2
    && t[i..i + |Prefix|] == Prefix
    && (forall k :: i + |Prefix| <= k < i + n - 1 ==> IsDigit(t[k]))
    && t[i + n - 1] == '"'
  }

  /** The number of digits in the run that starts at `j`. */
  function DigitRun(t: string, j: nat): (n: nat)
    requires j <= |t|
    ensures j + n <= |t|
    ensures forall k :: j <= k < j + n ==> IsDigit(t[k])
    ensures j + n < |t| ==> !IsDigit(t[j + n])
    decreases |t| - j
  {
    if j < |t| && IsDigit(t[j]) then 1 + DigitRun(t, j + 1) else 0
  }

  /** The length of the match at `i`, if there is one: `\d+` takes the
      whole digit run, which must be followed by the closing quote. */
  function MatchAt(t: string, i: nat): (r: Option<nat>)
    requires i <= |t|
    ensures r.Some? ==> i + r.value <= |t|
  {
    if i + |Prefix| <= |t| && t[i..i + |Prefix|] == Prefix then
      var d := DigitRun(t, i + |Prefix|);
      var e := i + |Prefix| + d;
      if d > 0 && e < |t| && t[e] == '"' then Some(|Prefix| + d + 1) else None
    else None
  }

  /** The leftmost match at or after `from`, as start and length. */
  function FirstMatch(t: string, from: nat): (r: Option<(nat, nat)>)
    requires from <= |t|
    ensures r.Some? ==> from <= r.value.0 <= |t| && MatchAt(t, r.value.0) == Some(r.value.1)
    decreases |t| - from
  {
    match MatchAt(t, from)
    case Some(n) => Some((from, n))
    case None => if from == |t| then None else FirstMatch(t, from + 1)
  }

  /** `re.replace(&file_content, new_text)`: the leftmost match only. Text
      before and after it is kept, and what takes its place is itself a
      match of the pattern. */
  function Rewrite(t: string): (r: string)
    ensures FirstMatch(t, 0).None? ==> r == t
    ensures FirstMatch(t, 0).Some? ==>
      var i, n := FirstMatch(t, 0).value.0, FirstMatch(t, 0).value.1;
      && i + |Replacement| <= |r| && i + n <= |t|
      && r[..i] == t[..i] && IsMatch(r, i, |Replacement|) && r[i + |Replacement|..] == t[i + n..]
  {
    match FirstMatch(t, 0)
    case None => t
    case Some((i, n)) =>
      var r := t[..i] + Replacement + t[i + n..];
      ReplacedPieces(t, i, n);
      ReplacementMatches(r, i);
      r
  }

  // ---------------------------------------------------------------------
  // Properties
  // ---------------------------------------------------------------------

  /** A run of exactly `d` digits followed by a non-digit has length `d`. */
  lemma {:induction false} DigitRunExact(t: string, j: nat, d: nat)
    requires j + d <= |t|
    requires forall k :: j <= k < j + d ==> IsDigit(t[k])
    requires j + d < |t| ==> !IsDigit(t[j + d])
    ensures DigitRun(t, j) == d
    decreases d
  {
    if d > 0 {
      DigitRunExact(t, j + 1, d - 1);
    }
  }

  /** `MatchAt` finds exactly the matches of the pattern: there is at most
      one match length at a position, because `\d+` can neither stop short
      of the quote nor run past it. */
  lemma MatchAtIsMatch(t: string, i: nat, n: nat)
    requires i <= |t|
    ensures MatchAt(t, i) == Some(n) <==> IsMatch(t, i, n)
  {
    if IsMatch(t, i, n) {
      DigitRunExact(t, i + |Prefix|, n - |Prefix| - 1);
    }
  }

  /** `FirstMatch` is the leftmost match: none starts between `from` and
      the position it returns, and none at all when it returns nothing. */
  lemma {:induction false} FirstMatchLeftmost(t: string, from: nat)
    requires from <= |t|
    ensures FirstMatch(t, from).Some? ==> forall j :: from <= j < FirstMatch(t, from).value.0 ==> MatchAt(t, j).None?
    ensures FirstMatch(t, from).None? ==> forall j :: from <= j <= |t| ==> MatchAt(t, j).None?
    decreases |t| - from
  {
    if MatchAt(t, from).None? && from < |t| {
      FirstMatchLeftmost(t, from + 1);
    }
  }

  /** The converse: a match with none before it is the one found. */
  lemma {:induction false} FirstMatchFinds(t: string, from: nat, i: nat, n: nat)
    requires from <= i <= |t|
    requires MatchAt(t, i) == Some(n)
    requires forall j :: from <= j < i ==> MatchAt(t, j).None?
    ensures FirstMatch(t, from) == Some((i, n))
    decreases i - from
  {
    if from < i {
      FirstMatchFinds(t, from + 1, i, n);
    }
  }

  /** Text without a match is left as it is. */
  lemma RewriteNoMatch(t: string)
    requires forall j :: 0 <= j <= |t| ==> MatchAt(t, j).None?
    ensures Rewrite(t) == t
  {
    FirstMatchLeftmost(t, 0);
  }

  /** Only the leftmost match changes: everything before it and everything
      after it is kept, and the match itself becomes `game_version="154"`. */
  lemma RewriteLeftmost(t: string, i: nat, n: nat)
    requires i <= |t| && IsMatch(t, i, n)
    requires forall j :: 0 <= j < i ==> MatchAt(t, j).None?
    ensures Rewrite(t) == t[..i] + Replacement + t[i + n..]
  {
    MatchAtIsMatch(t, i, n);
    FirstMatchFinds(t, 0, i, n);
  }

  /** The replacement is itself a match of the pattern. */
  lemma ReplacementMatches(r: string, i: nat)
    requires i + |Replacement| <= |r| && r[i..i + |Replacement|] == Replacement
    ensures IsMatch(r, i, |Replacement|)
  {
    assert r[i..i + |Prefix|] == r[i..i + |Replacement|][..|Prefix|];
    forall k | i + |Prefix| <= k < i + |Replacement| - 1 ensures IsDigit(r[k]) {
      assert r[k] == Replacement[k - i];
    }
    assert r[i + |Replacement| - 1] == Replacement[|Replacement| - 1];
  }

  /** No match of `r` that starts before `i` can reach position `i` when a
      `game_version="` starts there: its `g` is neither inside the prefix,
      nor a digit, nor the closing quote. */
  lemma MatchStopsBefore(r: string, i: nat, j: nat, m: nat)
    requires i + |Prefix| <= |r| && r[i..i + |Prefix|] == Prefix
    requires j < i && IsMatch(r, j, m)
    ensures j + m <= i
  {
    NoLetterGInside(r, j, m);
    assert r[i] == r[i..i + |Prefix|][0] == 'g';
  }

  /** Past its first character, a match holds no `g`. */
  lemma NoLetterGInside(r: string, j: nat, m: nat)
    requires IsMatch(r, j, m)
    ensures forall p :: j < p < j + m ==> r[p] != 'g'
  {
    forall p | j < p < j + m ensures r[p] != 'g' {
      if p < j + |Prefix| {
        assert r[p] == r[j..j + |Prefix|][p - j];
      }
    }
  }

  /** Text that agrees with `t` before `i` and has `game_version="` at
      `i` has no match before `i` where `t` has none. */
  lemma NoEarlierMatch(t: string, r: string, i: nat, j: nat)
    requires i <= |t| && i + |Prefix| <= |r| && r[..i] == t[..i] && r[i..i + |Prefix|] == Prefix
    requires j < i && MatchAt(t, j).None?
    ensures MatchAt(r, j).None?
  {
    if MatchAt(r, j).Some? {
      var m := MatchAt(r, j).value;
      MatchAtIsMatch(r, j, m);
      MatchStopsBefore(r, i, j, m);
      forall k | 0 <= k < i ensures t[k] == r[k] {
        assert t[k] == t[..i][k];
      }
      assert t[j..j + |Prefix|] == r[j..j + |Prefix|];
      assert IsMatch(t, j, m);
      MatchAtIsMatch(t, j, m);
    }
  }

  /** Text that already has the replacement at its leftmost match
      position, and no match before it, is a fixed point of the rewrite. */
  lemma RewriteKeepsReplacement(r: string, i: nat)
    requires i + |Replacement| <= |r| && r[i..i + |Replacement|] == Replacement
    requires forall j :: 0 <= j < i ==> MatchAt(r, j).None?
    ensures Rewrite(r) == r
  {
    ReplacementMatches(r, i);
    RewriteLeftmost(r, i, |Replacement|);
    SplitAround(r, i, i + |Replacement|);
  }

  /** A sequence is its three pieces around a slice put back together. */
  lemma SplitAround(r: string, i: nat, j: nat)
    requires i <= j <= |r|
    ensures r == r[..i] + r[i..j] + r[j..]
  {
    assert r[i..] == r[i..j] + r[j..];
  }

  /** Rewriting twice is rewriting once: after the first rewrite the
      leftmost match is the replacement itself, which is replaced by itself. */
  lemma RewriteIdempotent(t: string)
    ensures Rewrite(Rewrite(t)) == Rewrite(t)
  {
    FirstMatchLeftmost(t, 0);
    if FirstMatch(t, 0).None? {
      RewriteNoMatch(t);
    } else {
      var i := FirstMatch(t, 0).value.0;
      var n := FirstMatch(t, 0).value.1;
      var r := t[..i] + Replacement + t[i + n..];
      assert Rewrite(t) == r;
      ReplacedPieces(t, i, n);
      forall j | 0 <= j < i ensures MatchAt(r, j).None? {
        NoEarlierMatch(t, r, i, j);
      }
      RewriteKeepsReplacement(r, i);
    }
  }

  /** What putting the replacement over `t[i..i + n]` leaves at and before `i`. */
  lemma ReplacedPieces(t: string, i: nat, n: nat)
    requires i + n <= |t|
    ensures var r := t[..i] + Replacement + t[i + n..];
      && i + |Replacement| <= |r|
      && r[..i] == t[..i]
      && r[i..i + |Replacement|] == Replacement
      && r[i..i + |Prefix|] == Prefix
  {
    var r := t[..i] + Replacement + t[i + n..];
    assert r[i..i + |Replacement|] == Replacement;
    assert r[i..i + |Prefix|] == r[i..i + |Replacement|][..|Prefix|];
  }
}
