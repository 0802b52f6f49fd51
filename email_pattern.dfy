/**
 * The guardian-email check `/\S+@\S+\.\S+/.test(email)`: an unanchored
 * search for a run of non-whitespace, an '@', a run of non-whitespace, a
 * '.', and a run of non-whitespace.
 */
module EmailPattern {
  import opened JsString

  /** `s[lo..hi]` is non-empty and matches `\S+`. */
  ghost predicate NonSpaceRun(s: string, lo: int, hi: int)
  {
    0 <= lo < hi <= |s| && forall k | lo <= k < hi :: !IsSpace(s[k])
  }

  /** `s[i..j]` matches `\S+@\S+\.\S+`, with the '@' at `a` and the '.' at `d`. */
  ghost predicate MatchSpan(s: string, i: int, a: int, d: int, j: int)
  {
    && NonSpaceRun(s, i, a) && a < |s| && s[a] == '@'
    && NonSpaceRun(s, a + 1, d) && d < |s| && s[d] == '.'
    && NonSpaceRun(s, d + 1, j)
  }

  /** The regular expression finds a match somewhere in `s` (what `test` returns). */
  ghost predicate PatternOccurs(s: string)
    ensures PatternOccurs(s) ==> '@' in s && '.' in s && |s| >= 5
  {
    exists i, a, d, j :: MatchSpan(s, i, a, d, j)
  }

  /** The shortest match around an '@' at `a` and a '.' at `d`: one
      non-whitespace character before the '@', only non-whitespace between
      them (at least one), and one non-whitespace character after the '.'. */
  ghost predicate Witness(s: string, a: int, d: int)
  {
    && 0 < a && a + 1 < d && d + 1 < |s|
    && s[a] == '@' && !IsSpace(s[a - 1])
    && s[d] == '.' && !IsSpace(s[d + 1])
    && forall t | a < t < d :: !IsSpace(s[t])
  }

  /** Every match shrinks to a shortest one, and every shortest one is a match. */
  lemma PatternIffWitness(s: string)
    ensures PatternOccurs(s) <==> exists a, d :: Witness(s, a, d)
  {
    if PatternOccurs(s) {
      var i, a, d, j :| MatchSpan(s, i, a, d, j);
      assert !IsSpace(s[a - 1]);
      assert !IsSpace(s[d + 1]);
      assert Witness(s, a, d);
    }
    if exists a, d :: Witness(s, a, d) {
      var a, d :| Witness(s, a, d);
      assert MatchSpan(s, a - 1, a, d, d + 2);
    }
  }

  /** Scans the non-whitespace run after the '@' at `a`, from `k` on, for a
      '.' that completes a match. */
  function DotFollows(s: string, a: nat, k: nat): (b: bool)
    requires 0 < a < k <= |s| && s[a] == '@' && !IsSpace(s[a - 1])
    requires forall t | a < t < k :: !IsSpace(s[t])
    ensures b <==> exists d | k <= d :: Witness(s, a, d)
    decreases |s| - k
  {
    if k == |s| || IsSpace(s[k]) then
      assert forall d | k <= d :: !Witness(s, a, d) by {
        forall d | k <= d ensures !Witness(s, a, d) {
          if k < |s| && d > k { assert a < k < d && IsSpace(s[k]); }
        }
      }
      false
    else if s[k] == '.' && a + 1 < k && k + 1 < |s| && !IsSpace(s[k + 1]) then
      assert Witness(s, a, k);
      true
    else
      DotFollows(s, a, k + 1)
  }

  /** Tries every position from `k` on as the '@' of a match. */
  function AtFrom(s: string, k: nat): (b: bool)
    requires k <= |s|
    ensures b <==> exists a, d | k <= a :: Witness(s, a, d)
    decreases |s| - k
  {
    if k == |s| then
      false
    else if 0 < k && s[k] == '@' && !IsSpace(s[k - 1]) && DotFollows(s, k, k + 1) then
      true
    else
      AtFrom(s, k + 1)
  }

  /** `/\S+@\S+\.\S+/.test(s)`. */
  function ContainsEmailPattern(s: string): (b: bool)
    ensures b <==> PatternOccurs(s)
  {
    PatternIffWitness(s);
    AtFrom(s, 0)
  }
}
