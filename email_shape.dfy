/** The two email patterns of the client forms, stated over character positions.
    `\S+@\S+\.\S+` is matched unanchored (somewhere in the string); `^[^\s@]+@[^\s@]+\.[^\s@]+$`
    must match the whole string. `\s` and `\S` use the same white space as `trim`. */
module EmailShape {
  import opened Text

  /** `\S+@\S+\.\S+` matches with its `@` at p and its `.` at q. The shortest match around those
      two positions is one character before the `@`, the run between them, and one after the `.`. */
  predicate LooseEmailAt(s: string, p: int, q: int) {
    && 1 <= p && p + 1 < q && q + 1 < |s|
    && s[p] == '@' && s[q] == '.'
    && !IsWhitespace(s[p - 1]) && !IsWhitespace(s[q + 1])
    && forall k | p < k < q :: !IsWhitespace(s[k])
  }

  /** `/\S+@\S+\.\S+/.test(s)`. */
  predicate ContainsLooseEmail(s: string) {
    exists p, q | 0 <= p < |s| && 0 <= q < |s| :: LooseEmailAt(s, p, q)
  }

  /** Neither `@` nor white space: the class `[^\s@]`. */
  predicate NoAtNoSpace(s: string) {
    forall i | 0 <= i < |s| :: s[i] != '@' && !IsWhitespace(s[i])
  }

  /** `^[^\s@]+@[^\s@]+\.[^\s@]+$` matches with its `@` at p and the `.` it needs at q. */
  predicate StrictEmailAt(s: string, p: int, q: int) {
    && 0 < p && p + 1 < q && q + 1 < |s|
    && s[p] == '@' && s[q] == '.'
    && NoAtNoSpace(s[..p]) && NoAtNoSpace(s[p + 1..])
  }

  /** `/^[^\s@]+@[^\s@]+\.[^\s@]+$/.test(s)`. */
  predicate MatchesStrictEmail(s: string) {
    exists p, q | 0 <= p < |s| && 0 <= q < |s| :: StrictEmailAt(s, p, q)
  }

  /** A string the anchored pattern accepts has no white space and exactly one `@`. */
  lemma StrictEmailShape(s: string)
    requires MatchesStrictEmail(s)
    ensures NoWhitespace(s)
    ensures exists p | 0 <= p < |s| :: s[p] == '@' && forall i | 0 <= i < |s| && s[i] == '@' :: i == p
  {
    var p, q :| 0 <= p < |s| && 0 <= q < |s| && StrictEmailAt(s, p, q);
    forall i | 0 <= i < |s| ensures !IsWhitespace(s[i]) && (s[i] == '@' ==> i == p) {
      if i < p {
        assert s[i] == s[..p][i];
      } else if i > p {
        assert s[i] == s[p + 1..][i - p - 1];
      }
    }
  }

  /** The anchored pattern is the stricter one: whatever it accepts, the unanchored one accepts. */
  lemma StrictImpliesLoose(s: string)
    requires MatchesStrictEmail(s)
    ensures ContainsLooseEmail(s)
  {
    var p, q :| 0 <= p < |s| && 0 <= q < |s| && StrictEmailAt(s, p, q);
    assert s[p - 1] == s[..p][p - 1];
    assert s[q + 1] == s[p + 1..][q - p];
    forall k | p < k < q ensures !IsWhitespace(s[k]) {
      assert s[k] == s[p + 1..][k - p - 1];
    }
    assert LooseEmailAt(s, p, q);
  }

  /** The converse fails: the unanchored pattern finds an address inside a string with a space. */
  lemma LooseAcceptsSpaces()
    ensures ContainsLooseEmail("a b@c.d") && !MatchesStrictEmail("a b@c.d")
  {
    var s := "a b@c.d";
    assert LooseEmailAt(s, 3, 5);
    assert IsWhitespace(s[1]);
    if MatchesStrictEmail(s) {
      StrictEmailShape(s);
    }
  }

  /** A string the unanchored pattern accepts is not blank. */
  lemma LooseEmailNotBlank(s: string)
    requires ContainsLooseEmail(s)
    ensures Trim(s) != ""
  {
    var p, q :| 0 <= p < |s| && 0 <= q < |s| && LooseEmailAt(s, p, q);
    assert !IsWhitespace(s[p]);
  }
}
