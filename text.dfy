/**
 * The string operations of Rust's `str` that the collaboration code uses, on `seq<char>`:
 * `trim`, `to_ascii_lowercase`, `eq_ignore_ascii_case`, `replace(char, ..)`, `split`,
 * `lines`, `split_whitespace`, `join`, `contains`, and decimal formatting of counters.
 */
module Text {

  /** Unicode's White_Space property: the characters `str::trim` and `split_whitespace` remove. */
  predicate IsWhitespace(c: char) {
    c == ' ' || ('\t' <= c <= '\r') || c == '\U{85}' || c == '\U{A0}' || c == '\U{1680}'
    || ('\U{2000}' <= c <= '\U{200A}') || c == '\U{2028}' || c == '\U{2029}'
    || c == '\U{202F}' || c == '\U{205F}' || c == '\U{3000}'
  }

  predicate AllWhitespace(s: string) {
    forall i :: 0 <= i < |s| ==> IsWhitespace(s[i])
  }

  /** `str::trim_start`: the suffix left after dropping the leading whitespace. */
  function TrimStart(s: string): (r: string)
    ensures |r| <= |s|
    ensures r != [] ==> !IsWhitespace(r[0])
  {
    if s != [] && IsWhitespace(s[0]) then TrimStart(s[1..]) else s
  }

  /** What `TrimStart` drops is a whitespace prefix; what it keeps is the rest. */
  lemma {:induction false} TrimStartShape(s: string)
    ensures var r := TrimStart(s); r == s[|s| - |r|..] && AllWhitespace(s[..|s| - |r|])
  {
    if s != [] && IsWhitespace(s[0]) {
      TrimStartShape(s[1..]);
      TrimStartStep(s, TrimStart(s[1..]));
    }
  }

  lemma TrimStartStep(s: string, r: string)
    requires s != [] && IsWhitespace(s[0]) && |r| <= |s| - 1
    requires r == s[1..][|s| - 1 - |r|..] && AllWhitespace(s[1..][..|s| - 1 - |r|])
    ensures r == s[|s| - |r|..] && AllWhitespace(s[..|s| - |r|])
  {
    assert s[..|s| - |r|] == [s[0]] + s[1..][..|s| - 1 - |r|];
  }

  /** `str::trim_end`: the prefix left after dropping the trailing whitespace. */
  function TrimEnd(s: string): (r: string)
    ensures |r| <= |s|
    ensures r != [] ==> r[0] == s[0] && !IsWhitespace(r[|r| - 1])
  {
    if s != [] && IsWhitespace(s[|s| - 1]) then TrimEnd(s[..|s| - 1]) else s
  }

  /** What `TrimEnd` drops is a whitespace suffix; what it keeps is the rest. */
  lemma {:induction false} TrimEndShape(s: string)
    ensures var r := TrimEnd(s); r == s[..|r|] && AllWhitespace(s[|r|..])
  {
    if s != [] && IsWhitespace(s[|s| - 1]) {
      TrimEndShape(s[..|s| - 1]);
      TrimEndStep(s, TrimEnd(s[..|s| - 1]));
    }
  }

  lemma TrimEndStep(s: string, r: string)
    requires s != [] && IsWhitespace(s[|s| - 1]) && |r| <= |s| - 1
    requires r == s[..|s| - 1][..|r|] && AllWhitespace(s[..|s| - 1][|r|..])
    ensures r == s[..|r|] && AllWhitespace(s[|r|..])
  {
    assert s[|r|..] == s[..|s| - 1][|r|..] + [s[|s| - 1]];
  }

  /** `str::trim`. */
  function Trim(s: string): (r: string)
    ensures |r| <= |s|
    ensures r != [] ==> !IsWhitespace(r[0]) && !IsWhitespace(r[|r| - 1])
  {
    TrimEnd(TrimStart(s))
  }

  /** `s.trim().is_empty()`. */
  predicate IsBlank(s: string) {
    Trim(s) == []
  }

  /** A string with no whitespace at either end is its own trim. */
  lemma TrimOfTrimmed(s: string)
    requires s != [] ==> !IsWhitespace(s[0]) && !IsWhitespace(s[|s| - 1])
    ensures Trim(s) == s
  {
  }

  lemma TrimIdempotent(s: string)
    ensures Trim(Trim(s)) == Trim(s)
  {
    TrimOfTrimmed(Trim(s));
  }

  /** A string is blank exactly when every character of it is whitespace. */
  lemma BlankIffAllWhitespace(s: string)
    ensures IsBlank(s) <==> AllWhitespace(s)
  {
    var t := TrimStart(s);
    TrimStartShape(s);
    TrimEndShape(t);
    assert t != [] ==> t[0] == s[|s| - |t|];
    assert t != [] ==> TrimEnd(t) != [];
    if IsBlank(s) {
      assert t == [];
      assert s[..|s|] == s;
    }
  }

  /** A string that has a non-whitespace character somewhere is not blank. */
  lemma NotBlankAt(s: string, i: nat)
    requires i < |s| && !IsWhitespace(s[i])
    ensures !IsBlank(s)
  {
    BlankIffAllWhitespace(s);
  }

  function LowerChar(c: char): char {
    if 'A' <= c <= 'Z' then (c as int + 32) as char else c
  }

  /** `str::eq_ignore_ascii_case`. */
  predicate EqIgnoreAsciiCase(a: string, b: string) {
    |a| == |b| && forall i :: 0 <= i < |a| ==> LowerChar(a[i]) == LowerChar(b[i])
  }

  predicate StartsWith(s: string, prefix: string) {
    |prefix| <= |s| && s[..|prefix|] == prefix
  }

  lemma StartsWithConcat(a: string, b: string)
    ensures StartsWith(a + b, a)
  {
    assert (a + b)[..|a|] == a;
  }

  lemma StartsWithSplit(s: string, a: string, b: string)
    requires StartsWith(s, a + b)
    ensures StartsWith(s, a) && StartsWith(s[|a|..], b)
  {
    assert s[..|a|] == (a + b)[..|a|];
    assert s[|a|..][..|b|] == (a + b)[|a|..];
  }

  lemma StartsWithChain(r0: string, r1: string, r2: string, a: string, b: string, c: string, rest: string)
    requires r0 == a + r1 && r1 == b + r2 && r2 == c + rest
    ensures StartsWith(r0, a + b + c)
  {
    assert r0 == (a + b + c) + rest;
    StartsWithConcat(a + b + c, rest);
  }

  /** `str::contains` for a string pattern. */
  predicate Contains(s: string, sub: string) {
    exists i :: 0 <= i <= |s| && StartsWith(s[i..], sub)
  }

  lemma ContainsAt(s: string, sub: string, i: nat)
    requires i <= |s| && StartsWith(s[i..], sub)
    ensures Contains(s, sub)
  {
  }

  /** A string containing a pattern that starts with a non-whitespace character is not blank. */
  lemma ContainsNonBlank(s: string, sub: string)
    requires Contains(s, sub) && sub != [] && !IsWhitespace(sub[0])
    ensures !IsBlank(s)
  {
    var i :| 0 <= i <= |s| && StartsWith(s[i..], sub);
    assert s[i] == sub[0];
    NotBlankAt(s, i);
  }

  /** A string shorter than the pattern cannot contain it. */
  lemma ShortDoesNotContain(s: string, sub: string)
    requires |s| < |sub|
    ensures !Contains(s, sub)
  {
  }

  /** An occurrence in a suffix is an occurrence in the whole string. */
  lemma ContainsInSuffix(s: string, k: nat, sub: string)
    requires k <= |s|
    ensures Contains(s[k..], sub) ==> Contains(s, sub)
  {
    if Contains(s[k..], sub) {
      var i :| 0 <= i <= |s[k..]| && StartsWith(s[k..][i..], sub);
      assert s[k..][i..] == s[k + i..];
    }
  }

  /** Containment is kept when text is added on either side. */
  lemma ContainsExtended(a: string, s: string, b: string, sub: string)
    requires Contains(s, sub)
    ensures Contains(a + s + b, sub)
  {
    var i :| 0 <= i <= |s| && StartsWith(s[i..], sub);
    assert (a + s + b)[|a| + i..][..|sub|] == s[i..][..|sub|];
    ContainsAt(a + s + b, sub, |a| + i);
  }

  /** `[T]::join(sep)` on a list of strings. */
  function Join(parts: seq<string>, sep: string): string
  {
    if |parts| == 0 then ""
    else if |parts| == 1 then parts[0]
    else parts[0] + sep + Join(parts[1..], sep)
  }

  /** Joining keeps the parts in order: a longer list extends the join of a shorter one. */
  lemma {:induction false} JoinSnoc(parts: seq<string>, last: string, sep: string)
    requires parts != []
    ensures Join(parts + [last], sep) == Join(parts, sep) + sep + last
  {
    if |parts| == 1 {
      assert parts + [last] == [parts[0], last];
    } else {
      assert (parts + [last])[1..] == parts[1..] + [last];
      JoinSnoc(parts[1..], last, sep);
    }
  }

  /** Every part occurs in the join. */
  lemma {:induction false} JoinContainsPart(parts: seq<string>, sep: string, k: nat)
    requires k < |parts|
    ensures Contains(Join(parts, sep), parts[k])
  {
    if |parts| == 1 {
      assert StartsWith(parts[0][0..], parts[0]);
    } else if k == 0 {
      var j := Join(parts, sep);
      assert j[0..][..|parts[0]|] == parts[0];
      assert StartsWith(j[0..], parts[0]);
    } else {
      JoinContainsPart(parts[1..], sep, k - 1);
      ContainsExtended(parts[0] + sep, Join(parts[1..], sep), "", parts[k]);
      assert parts[0] + sep + Join(parts[1..], sep) + "" == Join(parts, sep);
    }
  }

  /** `str::split(c)`: the pieces between occurrences of `c` (an empty string gives one empty piece). */
  function Split(s: string, c: char): (r: seq<string>)
    ensures |r| >= 1
    ensures forall k :: 0 <= k < |r| ==> c !in r[k]
  {
    if s == [] then [""]
    else if s[0] == c then [""] + Split(s[1..], c)
    else
      var rest := Split(s[1..], c);
      [[s[0]] + rest[0]] + rest[1..]
  }

  /** Splitting and joining with the same separator gives back the string. */
  lemma {:induction false} SplitJoin(s: string, c: char)
    ensures Join(Split(s, c), [c]) == s
  {
    if s == [] {
    } else if s[0] == c {
      SplitJoin(s[1..], c);
      var rest := Split(s[1..], c);
      if |rest| == 1 {
        assert [""] + rest == ["", rest[0]];
      } else {
        assert ([""] + rest)[1..] == rest;
      }
    } else {
      SplitJoin(s[1..], c);
      var rest := Split(s[1..], c);
      var r := [[s[0]] + rest[0]] + rest[1..];
      if |rest| == 1 {
        assert r == [[s[0]] + rest[0]];
      } else {
        assert r[1..] == rest[1..];
        assert Join(rest, [c]) == rest[0] + [c] + Join(rest[1..], [c]);
      }
    }
  }

  function StripCarriageReturn(line: string): string {
    if line != [] && line[|line| - 1] == '\r' then line[..|line| - 1] else line
  }

  /** Drops one trailing carriage return from every line. */
  function StripCarriageReturns(lines: seq<string>): (r: seq<string>)
    ensures |r| == |lines|
  {
    if lines == [] then [] else [StripCarriageReturn(lines[0])] + StripCarriageReturns(lines[1..])
  }

  /**
   * `str::lines`: the pieces between line feeds; a piece that ended in a line feed also loses
   * one trailing carriage return, and a line feed at the very end does not start another line.
   */
  function Lines(s: string): (r: seq<string>)
  {
    if s == [] then []
    else
      var pieces := Split(s, '\n');
      var n := |pieces|;
      var terminated := StripCarriageReturns(pieces[..n - 1]);
      if pieces[n - 1] == "" then terminated else terminated + [pieces[n - 1]]
  }

  /**
   * For text without carriage returns that does not end in a line feed, the lines are
   * exactly the pieces between line feeds, so joining them with line feeds gives the text back.
   */
  lemma LinesJoin(s: string)
    requires s != [] && s[|s| - 1] != '\n' && '\r' !in s
    ensures Lines(s) == Split(s, '\n')
    ensures Join(Lines(s), "\n") == s
  {
    LinesAreSplit(s);
    SplitJoin(s, '\n');
  }

  lemma LinesAreSplit(s: string)
    requires s != [] && s[|s| - 1] != '\n' && '\r' !in s
    ensures Lines(s) == Split(s, '\n')
  {
    var pieces := Split(s, '\n');
    var n := |pieces|;
    var init := pieces[..n - 1];
    LastPieceNonEmpty(s, '\n');
    forall k | 0 <= k < |init| ensures '\r' !in init[k] {
      PieceChars(s, '\n', k);
    }
    NoCarriageReturns(init);
    var last := [pieces[n - 1]];
    assert pieces[n - 1] != "";
    assert Lines(s) == StripCarriageReturns(init) + last;
    InitAndLast(pieces);
  }

  lemma InitAndLast<T>(xs: seq<T>)
    requires xs != []
    ensures xs[..|xs| - 1] + [xs[|xs| - 1]] == xs
  {
  }

  /** Lines without carriage returns are left as they are. */
  lemma {:induction false} NoCarriageReturns(lines: seq<string>)
    requires forall k :: 0 <= k < |lines| ==> '\r' !in lines[k]
    ensures StripCarriageReturns(lines) == lines
  {
    if lines != [] {
      NoCarriageReturn(lines[0]);
      NoCarriageReturns(lines[1..]);
    }
  }

  lemma NoCarriageReturn(line: string)
    requires '\r' !in line
    ensures StripCarriageReturn(line) == line
  {
    if line != [] {
      assert line[|line| - 1] in line;
    }
  }

  /** The last piece of a split is empty only when the string ends with the separator (or is empty). */
  lemma {:induction false} LastPieceNonEmpty(s: string, c: char)
    requires s != [] && s[|s| - 1] != c
    ensures Split(s, c)[|Split(s, c)| - 1] != ""
  {
    if |s| > 1 {
      LastPieceNonEmpty(s[1..], c);
    }
  }

  /** Every character of a piece comes from the string. */
  lemma {:induction false} PieceChars(s: string, c: char, k: nat)
    requires k < |Split(s, c)|
    ensures forall x :: x in Split(s, c)[k] ==> x in s
  {
    if s == [] {
    } else if s[0] == c {
      if k > 0 {
        PieceChars(s[1..], c, k - 1);
      }
    } else if k == 0 {
      PieceChars(s[1..], c, 0);
    } else {
      PieceChars(s[1..], c, k);
    }
  }

  /** A non-empty run of non-whitespace characters. */
  predicate IsWord(w: string) {
    w != [] && forall i :: 0 <= i < |w| ==> !IsWhitespace(w[i])
  }

  /** `str::split_whitespace`: the maximal runs of non-whitespace characters, in order. */
  function SplitWhitespace(s: string): (r: seq<string>)
    ensures forall k :: 0 <= k < |r| ==> IsWord(r[k])
    decreases |s|
  {
    var t := TrimStart(s);
    if t == [] then []
    else
      FirstWord(t);
      var n := WordLength(t);
      var rest := SplitWhitespace(t[n..]);
      WordCons(t[..n], rest);
      [t[..n]] + rest
  }

  lemma FirstWord(t: string)
    requires t != [] && !IsWhitespace(t[0])
    ensures 0 < WordLength(t) && IsWord(t[..WordLength(t)])
  {
  }

  lemma WordCons(w: string, rest: seq<string>)
    requires IsWord(w) && forall k :: 0 <= k < |rest| ==> IsWord(rest[k])
    ensures forall k :: 0 <= k < |[w] + rest| ==> IsWord(([w] + rest)[k])
  {
  }

  /** Length of the run of non-whitespace characters that starts `s`. */
  function WordLength(s: string): (n: nat)
    ensures n <= |s|
    ensures forall i :: 0 <= i < n ==> !IsWhitespace(s[i])
    ensures n < |s| ==> IsWhitespace(s[n])
    ensures s != [] && !IsWhitespace(s[0]) ==> n > 0
  {
    if s == [] || IsWhitespace(s[0]) then 0 else 1 + WordLength(s[1..])
  }

  /** `s.split_whitespace().collect::<Vec<_>>().join(" ")`. */
  function CollapseWhitespace(s: string): string {
    Join(SplitWhitespace(s), " ")
  }

  function DigitChar(d: nat): char
    requires d < 10
  {
    ('0' as int + d) as char
  }

  predicate IsDigit(c: char) {
    '0' <= c <= '9'
  }

  /** Decimal rendering of a count, as `format!("{}", n)`. */
  function NatToString(n: nat): (r: string)
    ensures r != [] && forall i :: 0 <= i < |r| ==> IsDigit(r[i])
  {
    if n < 10 then [DigitChar(n)] else NatToString(n / 10) + [DigitChar(n % 10)]
  }

  function ParseDigits(s: string): nat
    requires forall i :: 0 <= i < |s| ==> IsDigit(s[i])
  {
    if s == [] then 0
    else
      assert IsDigit(s[|s| - 1]);
      ParseDigits(s[..|s| - 1]) * 10 + (s[|s| - 1] as int - '0' as int)
  }

  /** Reading back the decimal rendering of a count gives the count. */
  lemma {:induction false} NatToStringRoundTrip(n: nat)
    ensures ParseDigits(NatToString(n)) == n
  {
    if n >= 10 {
      var r := NatToString(n);
      assert r[..|r| - 1] == NatToString(n / 10);
      NatToStringRoundTrip(n / 10);
    }
  }

  /** Different counts are rendered differently. */
  lemma NatToStringInjective(m: nat, n: nat)
    requires NatToString(m) == NatToString(n)
    ensures m == n
  {
    NatToStringRoundTrip(m);
    NatToStringRoundTrip(n);
  }

  /** A string without the separator is a single piece. */
  lemma {:induction false} SplitNoSeparator(s: string, c: char)
    requires c !in s
    ensures Split(s, c) == [s]
  {
    if s != [] {
      assert s[0] in s;
      assert c !in s[1..];
      SplitNoSeparator(s[1..], c);
      assert [s[0]] + s[1..] == s;
    }
  }

  /** The first separator ends the first piece. */
  lemma {:induction false} SplitAtSeparator(a: string, c: char, b: string)
    requires c !in a
    ensures Split(a + [c] + b, c) == [a] + Split(b, c)
  {
    var s := a + [c] + b;
    if a == [] {
      assert s[0] == c && s[1..] == b;
    } else {
      assert a[0] in a;
      assert c !in a[1..];
      assert s[0] == a[0] && s[1..] == a[1..] + [c] + b;
      SplitAtSeparator(a[1..], c, b);
      var rest := Split(s[1..], c);
      assert rest == [a[1..]] + Split(b, c);
      assert [s[0]] + rest[0] == a;
      assert rest[1..] == Split(b, c);
    }
  }

  /** A run of `n` non-whitespace characters followed by whitespace is a word of length `n`. */
  lemma {:induction false} WordLengthAt(s: string, n: nat)
    requires n < |s| && IsWhitespace(s[n])
    requires forall i :: 0 <= i < n ==> !IsWhitespace(s[i])
    ensures WordLength(s) == n
  {
    if n > 0 {
      WordLengthAt(s[1..], n - 1);
    }
  }

  lemma WordLengthOfWord(w: string)
    requires IsWord(w)
    ensures WordLength(w) == |w|
  {
    if |w| > 1 {
      WordLengthOfWord(w[1..]);
    }
  }

  /** Leading spaces do not change the words. */
  lemma SplitWhitespaceSpace(x: string)
    ensures SplitWhitespace([' '] + x) == SplitWhitespace(x)
  {
    assert ([' '] + x)[1..] == x;
    assert TrimStart([' '] + x) == TrimStart(x);
  }

  /** A word followed by whitespace (or by nothing) is the first word. */
  lemma SplitWhitespaceCons(w: string, x: string)
    requires IsWord(w) && (x == [] || IsWhitespace(x[0]))
    ensures SplitWhitespace(w + x) == [w] + SplitWhitespace(x)
  {
    var s := w + x;
    assert s[0] == w[0];
    assert TrimStart(s) == s;
    if x == [] {
      assert s == w;
      WordLengthOfWord(w);
      assert s[|w|..] == x;
    } else {
      assert s[|w|] == x[0];
      WordLengthAt(s, |w|);
    }
    assert s[..|w|] == w && s[|w|..] == x;
  }

  /** Splitting words joined by single spaces gives the words back. */
  lemma {:induction false} SplitWhitespaceOfJoin(words: seq<string>)
    requires forall k :: 0 <= k < |words| ==> IsWord(words[k])
    ensures SplitWhitespace(Join(words, " ")) == words
    decreases |words|
  {
    if words == [] {
    } else if |words| == 1 {
      assert IsWord(words[0]);
      SplitWhitespaceCons(words[0], []);
      assert words[0] + [] == words[0];
    } else {
      var w := words[0];
      var rest := Join(words[1..], " ");
      assert IsWord(w);
      assert Join(words, " ") == w + ([' '] + rest);
      SplitWhitespaceCons(w, [' '] + rest);
      SplitWhitespaceSpace(rest);
      SplitWhitespaceOfJoin(words[1..]);
      assert words == [w] + words[1..];
    }
  }

  /** In words joined by single spaces, the only whitespace is those spaces. */
  lemma {:induction false} JoinedWordsSpaces(words: seq<string>)
    requires forall k :: 0 <= k < |words| ==> IsWord(words[k])
    ensures forall i :: 0 <= i < |Join(words, " ")| && IsWhitespace(Join(words, " ")[i]) ==> Join(words, " ")[i] == ' '
    decreases |words|
  {
    if |words| > 1 {
      JoinedWordsSpaces(words[1..]);
      var w := words[0];
      var rest := Join(words[1..], " ");
      assert IsWord(w);
      forall i | 0 <= i < |w + " " + rest| && IsWhitespace((w + " " + rest)[i])
        ensures (w + " " + rest)[i] == ' '
      {
        if i > |w| {
          assert (w + " " + rest)[i] == rest[i - |w| - 1];
        }
      }
    } else if |words| == 1 {
      assert IsWord(words[0]);
    }
  }

  /**
   * Collapsing keeps the words of the text, in order, and leaves single spaces as the only
   * whitespace, so the result has no line breaks.
   */
  lemma CollapseWhitespaceKeepsWords(s: string)
    ensures SplitWhitespace(CollapseWhitespace(s)) == SplitWhitespace(s)
    ensures forall i :: 0 <= i < |CollapseWhitespace(s)| && IsWhitespace(CollapseWhitespace(s)[i]) ==> CollapseWhitespace(s)[i] == ' '
    ensures '\n' !in CollapseWhitespace(s)
  {
    SplitWhitespaceOfJoin(SplitWhitespace(s));
    JoinedWordsSpaces(SplitWhitespace(s));
  }
}
