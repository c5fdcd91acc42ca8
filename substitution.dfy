/**
 * Rust's `str::replace(pattern, replacement)`, which the collaboration-mode templates use to
 * fill in their `{{NAME}}` placeholders, and what can be proved about a placeholder once it has
 * been replaced: it is gone, other placeholders and plain text around it survive, and the
 * replacement text appears where the placeholder was.
 */
module Substitution {
  import opened Text

  /** `str::replace`: scans left to right and replaces non-overlapping occurrences of `pat`. */
  function ReplaceAll(s: string, pat: string, rep: string): string
    requires pat != []
    decreases |s|
  {
    if StartsWith(s, pat) then rep + ReplaceAll(s[|pat|..], pat, rep)
    else if s == [] then []
    else [s[0]] + ReplaceAll(s[1..], pat, rep)
  }

  /** `{{name}}`, the shape of both template placeholders. */
  function PlaceholderOf(name: string): string {
    "{{" + name + "}}"
  }

  predicate IsPlaceholderName(name: string) {
    '{' !in name && '}' !in name
  }

  /**
   * A replacement cannot forge an occurrence of `q`: `q` neither begins nor ends with a
   * character of `rep`, and `rep` does not occur inside `q`.
   */
  predicate Unforgeable(q: string, rep: string) {
    |q| >= 1 && q[0] !in rep && q[|q| - 1] !in rep && !Contains(q, rep)
  }

  /** If the output begins with `q` and `rep` cannot end or sit inside `q`, the input began with `q`. */
  lemma {:induction false} PrefixReflect(x: string, pat: string, rep: string, q: string)
    requires pat != [] && |q| >= 1 && q[|q| - 1] !in rep && !Contains(q, rep)
    ensures StartsWith(ReplaceAll(x, pat, rep), q) ==> StartsWith(x, q)
    decreases |x|
  {
    var out := ReplaceAll(x, pat, rep);
    assert StartsWith(x, pat) && StartsWith(out, q) && |q| > |rep| ==> StartsWith(q[0..], rep);
    if !StartsWith(x, pat) && x != [] && |q| > 1 {
      var tail := ReplaceAll(x[1..], pat, rep);
      assert StartsWith(out, q) ==> StartsWith(tail, q[1..]);
      ContainsInSuffix(q, 1, rep);
      PrefixReflect(x[1..], pat, rep, q[1..]);
    }
  }

  /** Text that no occurrence of `pat` starts inside is copied through unchanged. */
  lemma {:induction false} KeepPrefix(x: string, pat: string, rep: string, q: string)
    requires pat != [] && StartsWith(x, q)
    requires forall j :: 0 <= j < |q| ==> !StartsWith(x[j..], pat)
    ensures ReplaceAll(x, pat, rep) == q + ReplaceAll(x[|q|..], pat, rep)
    decreases |q|
  {
    if q != [] {
      assert x[0..] == x;
      assert !StartsWith(x, pat);
      assert ReplaceAll(x, pat, rep) == [x[0]] + ReplaceAll(x[1..], pat, rep);
      forall j | 0 <= j < |q| - 1 ensures !StartsWith(x[1..][j..], pat) {
        assert x[1..][j..] == x[j + 1..];
      }
      assert StartsWith(x[1..], q[1..]);
      KeepPrefix(x[1..], pat, rep, q[1..]);
      assert x[1..][|q| - 1..] == x[|q|..];
      assert q == [x[0]] + q[1..];
    }
  }

  /** Text without the first character of `pat` is copied through unchanged. */
  lemma KeepPlainPrefix(x: string, pat: string, rep: string, q: string)
    requires pat != [] && StartsWith(x, q) && pat[0] !in q
    ensures ReplaceAll(x, pat, rep) == q + ReplaceAll(x[|q|..], pat, rep)
  {
    forall j | 0 <= j < |q| ensures !StartsWith(x[j..], pat) {
      assert x[j] == q[j];
    }
    KeepPrefix(x, pat, rep, q);
  }

  /** Text that does not end in the last character of `pat` and does not occur in it cannot start inside an occurrence of `pat`. */
  lemma PlainOverlap(s: string, pat: string, w: string, i: nat)
    requires pat != [] && |w| >= 1 && pat[|pat| - 1] !in w && !Contains(pat, w)
    requires i <= |s| && StartsWith(s, pat) && StartsWith(s[i..], w)
    ensures i >= |pat|
  {
    assert i < |pat| && i + |w| <= |pat| ==> StartsWith(pat[i..], w);
  }

  /** After replacement no occurrence of the pattern is left, if the replacement cannot forge one. */
  lemma {:induction false} ReplaceAllRemoves(s: string, pat: string, rep: string)
    requires |pat| >= 2 && Unforgeable(pat, rep)
    ensures !Contains(ReplaceAll(s, pat, rep), pat)
    decreases |s|
  {
    var out := ReplaceAll(s, pat, rep);
    if StartsWith(s, pat) {
      var tail := ReplaceAll(s[|pat|..], pat, rep);
      ReplaceAllRemoves(s[|pat|..], pat, rep);
      forall i | 0 <= i <= |out| ensures !StartsWith(out[i..], pat) {
        if i < |rep| {
          assert out[i] == rep[i];
        } else {
          assert out[i..] == tail[i - |rep|..];
        }
      }
    } else if s != [] {
      var tail := ReplaceAll(s[1..], pat, rep);
      ReplaceAllRemoves(s[1..], pat, rep);
      ContainsInSuffix(pat, 1, rep);
      forall i | 0 <= i <= |out| ensures !StartsWith(out[i..], pat) {
        if i == 0 {
          var s0, p0, p1 := s[0], pat[0], pat[1..];
          assert out[0..] == out && out[1..] == tail;
          assert StartsWith(out, pat) ==> StartsWith(tail, p1) && s0 == p0;
          PrefixReflect(s[1..], pat, rep, p1);
          assert StartsWith(s[1..], pat[1..]) && s[0] == pat[0] ==> StartsWith(s, pat);
        } else {
          assert out[i..] == tail[i - 1..];
        }
      }
    }
  }

  /** Replacing one pattern does not create another, if the replacement cannot forge it. */
  lemma {:induction false} ReplaceAllKeepsAbsent(s: string, pat: string, rep: string, q: string)
    requires pat != [] && Unforgeable(q, rep) && !Contains(s, q)
    ensures !Contains(ReplaceAll(s, pat, rep), q)
    decreases |s|
  {
    var out := ReplaceAll(s, pat, rep);
    if StartsWith(s, pat) {
      var tail := ReplaceAll(s[|pat|..], pat, rep);
      ContainsInSuffix(s, |pat|, q);
      ReplaceAllKeepsAbsent(s[|pat|..], pat, rep, q);
      forall i | 0 <= i <= |out| ensures !StartsWith(out[i..], q) {
        if i < |rep| {
          assert out[i] == rep[i];
        } else {
          assert out[i..] == tail[i - |rep|..];
        }
      }
    } else if s != [] {
      var tail := ReplaceAll(s[1..], pat, rep);
      ContainsInSuffix(s, 1, q);
      ReplaceAllKeepsAbsent(s[1..], pat, rep, q);
      PrefixReflect(s, pat, rep, q);
      forall i | 0 <= i <= |out| ensures !StartsWith(out[i..], q) {
        if i == 0 {
          assert out[0..] == out && s[0..] == s;
        } else {
          assert out[i..] == tail[i - 1..];
        }
      }
    }
  }

  /** Wherever the pattern occurs, the replacement text occurs in the output. */
  lemma {:induction false} ReplaceAllInserts(s: string, pat: string, rep: string)
    requires pat != [] && Contains(s, pat)
    ensures Contains(ReplaceAll(s, pat, rep), rep)
    decreases |s|
  {
    var out := ReplaceAll(s, pat, rep);
    if StartsWith(s, pat) {
      assert StartsWith(out[0..], rep);
    } else {
      var i :| 0 <= i <= |s| && StartsWith(s[i..], pat);
      assert s[0..] == s;
      assert s[1..][i - 1..] == s[i..];
      ReplaceAllInserts(s[1..], pat, rep);
      ContainsExtended([s[0]], ReplaceAll(s[1..], pat, rep), "", rep);
      assert [s[0]] + ReplaceAll(s[1..], pat, rep) + "" == out;
    }
  }

  /** Text that begins with `u + pat + v` is replaced into text that begins with `u + rep + v`. */
  lemma ContextAtStart(s: string, pat: string, rep: string, u: string, v: string)
    requires pat != [] && pat[0] !in u && pat[0] !in v
    requires StartsWith(s, u + pat + v)
    ensures StartsWith(ReplaceAll(s, pat, rep), u + rep + v)
  {
    assert u + pat + v == u + (pat + v);
    StartsWithSplit(s, u, pat + v);
    var s1 := s[|u|..];
    StartsWithSplit(s1, pat, v);
    var s2 := s1[|pat|..];
    assert ReplaceAll(s1, pat, rep) == rep + ReplaceAll(s2, pat, rep);
    KeepPlainPrefix(s, pat, rep, u);
    KeepPlainPrefix(s2, pat, rep, v);
    var rest := ReplaceAll(s2[|v|..], pat, rep);
    StartsWithChain(ReplaceAll(s, pat, rep), ReplaceAll(s1, pat, rep), ReplaceAll(s2, pat, rep), u, rep, v, rest);
  }

  /**
   * An occurrence of `u + pat + v` becomes `u + rep + v`, when `u` and `v` cannot be part of
   * an occurrence of `pat` that the scan would find first.
   */
  lemma {:induction false} ReplaceAllInContext(s: string, pat: string, rep: string, u: string, v: string)
    requires pat != [] && |u| >= 1
    requires pat[0] !in u && pat[|pat| - 1] !in u && !Contains(pat, u) && pat[0] !in v
    requires Contains(s, u + pat + v)
    ensures Contains(ReplaceAll(s, pat, rep), u + rep + v)
    decreases |s|
  {
    var w := u + pat + v;
    var i :| 0 <= i <= |s| && StartsWith(s[i..], w);
    assert s[i..][..|u|] == w[..|u|] == u;
    if StartsWith(s, pat) {
      PlainOverlap(s, pat, u, i);
      assert s[|pat|..][i - |pat|..] == s[i..];
      ReplaceAllInContext(s[|pat|..], pat, rep, u, v);
      ContainsExtended(rep, ReplaceAll(s[|pat|..], pat, rep), "", u + rep + v);
      assert rep + ReplaceAll(s[|pat|..], pat, rep) + "" == ReplaceAll(s, pat, rep);
    } else if i == 0 {
      assert s[0..] == s;
      ContextAtStart(s, pat, rep, u, v);
      assert StartsWith(ReplaceAll(s, pat, rep)[0..], u + rep + v);
    } else {
      assert s[1..][i - 1..] == s[i..];
      ReplaceAllInContext(s[1..], pat, rep, u, v);
      ContainsExtended([s[0]], ReplaceAll(s[1..], pat, rep), "", u + rep + v);
      assert [s[0]] + ReplaceAll(s[1..], pat, rep) + "" == ReplaceAll(s, pat, rep);
    }
  }

  /** Plain text that cannot overlap an occurrence of `pat` survives replacement. */
  lemma {:induction false} ReplaceAllKeepsPlain(s: string, pat: string, rep: string, w: string)
    requires pat != [] && |w| >= 1
    requires pat[0] !in w && pat[|pat| - 1] !in w && !Contains(pat, w)
    requires Contains(s, w)
    ensures Contains(ReplaceAll(s, pat, rep), w)
    decreases |s|
  {
    var i :| 0 <= i <= |s| && StartsWith(s[i..], w);
    if StartsWith(s, pat) {
      PlainOverlap(s, pat, w, i);
      assert s[|pat|..][i - |pat|..] == s[i..];
      ReplaceAllKeepsPlain(s[|pat|..], pat, rep, w);
      ContainsExtended(rep, ReplaceAll(s[|pat|..], pat, rep), "", w);
      assert rep + ReplaceAll(s[|pat|..], pat, rep) + "" == ReplaceAll(s, pat, rep);
    } else if i == 0 {
      assert s[0..] == s;
      KeepPlainPrefix(s, pat, rep, w);
      var out := ReplaceAll(s, pat, rep);
      assert StartsWith(out[0..], w);
    } else {
      assert s[1..][i - 1..] == s[i..];
      ReplaceAllKeepsPlain(s[1..], pat, rep, w);
      ContainsExtended([s[0]], ReplaceAll(s[1..], pat, rep), "", w);
      assert [s[0]] + ReplaceAll(s[1..], pat, rep) + "" == ReplaceAll(s, pat, rep);
    }
  }

  /** In text that begins with `{{name}}`, the braces of the placeholder are its first two and last two characters. */
  lemma PlaceholderBraces(name: string, s: string, k: nat)
    requires IsPlaceholderName(name)
    ensures StartsWith(s, PlaceholderOf(name)) && k < |PlaceholderOf(name)| ==>
      (s[k] == '{' <==> k <= 1) && (s[k] == '}' <==> k >= |name| + 2)
  {
    var p := PlaceholderOf(name);
    if StartsWith(s, p) && k < |p| {
      assert s[k] == p[k];
      if 2 <= k < |name| + 2 {
        assert p[k] == name[k - 2];
      }
    }
  }

  lemma PlaceholderInjective(a: string, b: string)
    ensures PlaceholderOf(a) == PlaceholderOf(b) ==> a == b
  {
    assert PlaceholderOf(a)[2..|a| + 2] == a;
    assert PlaceholderOf(b)[2..|b| + 2] == b;
  }

  /** Two different placeholders cannot start within one another. */
  lemma PlaceholdersDoNotOverlap(a: string, b: string, s: string, i: nat)
    requires IsPlaceholderName(a) && IsPlaceholderName(b) && a != b && i <= |s|
    ensures StartsWith(s, PlaceholderOf(a)) && StartsWith(s[i..], PlaceholderOf(b)) ==> i >= |PlaceholderOf(a)|
  {
    var pa, pb := PlaceholderOf(a), PlaceholderOf(b);
    PlaceholderBraces(a, s, i);
    PlaceholderBraces(b, s[i..], 0);
    PlaceholderBraces(a, s, 2);
    PlaceholderBraces(b, s[i..], 1);
    PlaceholderBraces(a, s, |b| + 2);
    PlaceholderBraces(a, s, |b| + 3);
    PlaceholderBraces(b, s, |a| + 2);
    PlaceholderBraces(b, s, |a| + 3);
    PlaceholderInjective(a, b);
    assert i < |s| ==> s[i..][0] == s[i];
    assert i + 2 < |s| ==> s[i..][1] == s[i + 1];
    assert s[0..] == s;
  }

  /** A different placeholder survives replacement. */
  lemma {:induction false} ReplaceAllKeepsPlaceholder(s: string, a: string, rep: string, b: string)
    requires IsPlaceholderName(a) && IsPlaceholderName(b) && a != b
    requires Contains(s, PlaceholderOf(b))
    ensures Contains(ReplaceAll(s, PlaceholderOf(a), rep), PlaceholderOf(b))
    decreases |s|
  {
    var pat, w := PlaceholderOf(a), PlaceholderOf(b);
    var i :| 0 <= i <= |s| && StartsWith(s[i..], w);
    if StartsWith(s, pat) {
      PlaceholdersDoNotOverlap(a, b, s, i);
      assert s[|pat|..][i - |pat|..] == s[i..];
      ReplaceAllKeepsPlaceholder(s[|pat|..], a, rep, b);
      ContainsExtended(rep, ReplaceAll(s[|pat|..], pat, rep), "", w);
      assert rep + ReplaceAll(s[|pat|..], pat, rep) + "" == ReplaceAll(s, pat, rep);
    } else if i == 0 {
      assert s[0..] == s;
      forall j | 0 <= j < |w| ensures !StartsWith(s[j..], pat) {
        PlaceholdersDoNotOverlap(b, a, s, j);
      }
      KeepPrefix(s, pat, rep, w);
      var out := ReplaceAll(s, pat, rep);
      assert StartsWith(out[0..], w);
    } else {
      assert s[1..][i - 1..] == s[i..];
      ReplaceAllKeepsPlaceholder(s[1..], a, rep, b);
      ContainsExtended([s[0]], ReplaceAll(s[1..], pat, rep), "", w);
      assert [s[0]] + ReplaceAll(s[1..], pat, rep) + "" == ReplaceAll(s, pat, rep);
    }
  }

  /** Replacing with text that has a non-whitespace character keeps one in the output. */
  lemma {:induction false} ReplaceAllKeepsNonWhitespace(s: string, pat: string, rep: string)
    requires pat != [] && !AllWhitespace(s) && !AllWhitespace(rep)
    ensures !AllWhitespace(ReplaceAll(s, pat, rep))
    decreases |s|
  {
    var out := ReplaceAll(s, pat, rep);
    if StartsWith(s, pat) {
      var j :| 0 <= j < |rep| && !IsWhitespace(rep[j]);
      assert out[j] == rep[j];
    } else if !IsWhitespace(s[0]) {
      assert out[0] == s[0];
    } else {
      var i :| 0 <= i < |s| && !IsWhitespace(s[i]);
      assert s[1..][i - 1] == s[i];
      ReplaceAllKeepsNonWhitespace(s[1..], pat, rep);
      var tail := ReplaceAll(s[1..], pat, rep);
      var k :| 0 <= k < |tail| && !IsWhitespace(tail[k]);
      assert out[k + 1] == tail[k];
    }
  }

  /** Replacing with non-blank text never makes a non-blank string blank. */
  lemma ReplaceAllKeepsNonBlank(s: string, pat: string, rep: string)
    requires pat != [] && !IsBlank(s) && !IsBlank(rep)
    ensures !IsBlank(ReplaceAll(s, pat, rep))
  {
    BlankIffAllWhitespace(s);
    BlankIffAllWhitespace(rep);
    ReplaceAllKeepsNonWhitespace(s, pat, rep);
    BlankIffAllWhitespace(ReplaceAll(s, pat, rep));
  }
}
