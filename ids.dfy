/**
 * Role, category and plugin identifiers are compared after normalisation: trimmed,
 * ASCII-lower-cased and with `_` spelled `-`.  The plugin registry and the spawn-permission
 * editor each carry their own copy of this function; both copies do the same thing and are
 * modelled once here.
 */
module RoleIds {
  import opened Text

  /** An identifier in normal form: no surrounding whitespace, no ASCII capital, no `_`. */
  predicate IsNormalized(id: string) {
    Trim(id) == id && forall i :: 0 <= i < |id| ==> id[i] != '_' && !('A' <= id[i] <= 'Z')
  }

  /** One character of `to_ascii_lowercase().replace('_', "-")`. */
  function NormalizeChar(c: char): char {
    if c == '_' then '-' else LowerChar(c)
  }

  /** `s.to_ascii_lowercase().replace('_', "-")`. */
  function LowerAndDash(s: string): string {
    if s == [] then [] else [NormalizeChar(s[0])] + LowerAndDash(s[1..])
  }

  /** Normalisation works character by character and keeps the length. */
  lemma {:induction false} LowerAndDashChars(s: string)
    ensures |LowerAndDash(s)| == |s| && forall i :: 0 <= i < |s| ==> LowerAndDash(s)[i] == NormalizeChar(s[i])
  {
    if s != [] {
      LowerAndDashChars(s[1..]);
      assert forall i :: 1 <= i < |s| ==> s[1..][i - 1] == s[i];
    }
  }

  /** `normalize_id` / `normalize_role_id`. */
  function NormalizeId(raw: string): string {
    LowerAndDash(Trim(raw))
  }

  /** A normalised identifier is in normal form, and is empty exactly when the raw one is blank. */
  lemma NormalizeIdIsNormalized(raw: string)
    ensures IsNormalized(NormalizeId(raw))
    ensures NormalizeId(raw) == [] <==> IsBlank(raw)
  {
    LowerAndDashNormalized(Trim(raw));
  }

  /** Lower-casing and dashing a string with no whitespace at its ends puts it in normal form. */
  lemma LowerAndDashNormalized(t: string)
    requires t != [] ==> !IsWhitespace(t[0]) && !IsWhitespace(t[|t| - 1])
    ensures IsNormalized(LowerAndDash(t))
  {
    var r := LowerAndDash(t);
    LowerAndDashChars(t);
    forall i | 0 <= i < |r| ensures r[i] != '_' && !('A' <= r[i] <= 'Z') {
      NormalizeCharFacts(t[i]);
    }
    if t != [] {
      NormalizeCharFacts(t[0]);
      NormalizeCharFacts(t[|t| - 1]);
    }
    TrimOfTrimmed(r);
  }

  lemma NormalizeCharFacts(c: char)
    ensures NormalizeChar(c) != '_' && !('A' <= NormalizeChar(c) <= 'Z')
    ensures !IsWhitespace(c) ==> !IsWhitespace(NormalizeChar(c))
  {
  }

  /** Normalising changes nothing in an identifier that is already normal. */
  lemma NormalizeNormalized(id: string)
    requires IsNormalized(id)
    ensures NormalizeId(id) == id
  {
    LowerAndDashChars(id);
  }

  lemma NormalizeIdIdempotent(raw: string)
    ensures NormalizeId(NormalizeId(raw)) == NormalizeId(raw)
  {
    NormalizeIdIsNormalized(raw);
    NormalizeNormalized(NormalizeId(raw));
  }

  /** `matches_allow_all_token`: `*` or `all` in any case, with surrounding whitespace ignored. */
  predicate MatchesAllowAllToken(raw: string) {
    IsAllowAllToken(Trim(raw))
  }

  /** The comparison `matches_allow_all_token` makes on the trimmed token. */
  predicate IsAllowAllToken(token: string) {
    token == "*" || EqIgnoreAsciiCase(token, "all")
  }

  /** Two strings without ASCII capitals are equal ignoring ASCII case only when they are equal. */
  lemma EqIgnoreCaseOfLower(a: string, b: string)
    requires forall i :: 0 <= i < |a| ==> !('A' <= a[i] <= 'Z')
    requires forall i :: 0 <= i < |b| ==> !('A' <= b[i] <= 'Z')
    ensures EqIgnoreAsciiCase(a, b) <==> a == b
  {
    if EqIgnoreAsciiCase(a, b) {
      forall i | 0 <= i < |a| ensures a[i] == b[i] {
        assert LowerChar(a[i]) == a[i] && LowerChar(b[i]) == b[i];
      }
    }
  }

  /** A token without ASCII capitals means "allow all" only when it is spelt `*` or `all`. */
  lemma LowerAllowAllToken(t: string)
    requires forall i :: 0 <= i < |t| ==> !('A' <= t[i] <= 'Z')
    ensures IsAllowAllToken(t) <==> t == "*" || t == "all"
  {
    var all := "all";
    assert forall i :: 0 <= i < |all| ==> !('A' <= all[i] <= 'Z') by {
      assert all[0] == 'a' && all[1] == 'l' && all[2] == 'l';
    }
    EqIgnoreCaseOfLower(t, all);
  }

  /** A normalised identifier that means "allow all" is spelt exactly `*` or `all`. */
  lemma NormalizedAllowAllToken(id: string)
    requires IsNormalized(id)
    ensures MatchesAllowAllToken(id) <==> id == "*" || id == "all"
  {
    LowerAllowAllToken(id);
  }
}
