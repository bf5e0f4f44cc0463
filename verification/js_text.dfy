/** The JavaScript string built-ins the schema generator relies on:
    ASCII case mapping, the `\s` and line-terminator classes of JavaScript
    regular expressions, prefix and substring tests, and
    `String.prototype.split` / `Array.prototype.join` on one character. */
module JsText {

  /** The character class `[A-Z]`. */
  predicate IsUpper(c: char) {
    'A' <= c <= 'Z'
  }

  /** The character class `[a-z]`. */
  predicate IsLower(c: char) {
    'a' <= c <= 'z'
  }

  /** `toUpperCase` on one character; only ASCII letters change. */
  function ToUpper(c: char): (r: char)
    ensures IsLower(c) ==> IsUpper(r) && r as int == c as int - 32
    ensures !IsLower(c) ==> r == c
  {
    if IsLower(c) then (c as int - 32) as char else c
  }

  /** `toLowerCase` on one character; only ASCII letters change. */
  function ToLower(c: char): (r: char)
    ensures IsUpper(c) ==> IsLower(r) && r as int == c as int + 32
    ensures !IsUpper(c) ==> r == c
  {
    if IsUpper(c) then (c as int + 32) as char else c
  }

  lemma CaseRoundTrips(c: char)
    ensures ToLower(ToUpper(c)) == ToLower(c)
    ensures ToUpper(ToLower(c)) == ToUpper(c)
    ensures IsUpper(c) ==> ToUpper(ToLower(c)) == c
  {
  }

  function Upper(s: string): (r: string)
    ensures |r| == |s|
    ensures forall i :: 0 <= i < |s| ==> r[i] == ToUpper(s[i])
  {
    seq(|s|, i requires 0 <= i < |s| => ToUpper(s[i]))
  }

  function Lower(s: string): (r: string)
    ensures |r| == |s|
    ensures forall i :: 0 <= i < |s| ==> r[i] == ToLower(s[i])
  {
    seq(|s|, i requires 0 <= i < |s| => ToLower(s[i]))
  }

  /** `a` and `b` differ at most in the case of their letters. */
  ghost predicate CaseEq(a: string, b: string) {
    |a| == |b| && forall i :: 0 <= i < |a| ==> ToLower(a[i]) == ToLower(b[i])
  }

  /** `toUpperCase` and `toLowerCase` on a string change only the case of
      its letters, leave no letter of the other case behind, and undo
      each other up to the case they end in. */
  lemma {:induction false} CaseMapsRoundTrip(s: string)
    ensures CaseEq(Upper(s), s) && CaseEq(Lower(s), s)
    ensures forall i :: 0 <= i < |s| ==> !IsLower(Upper(s)[i]) && !IsUpper(Lower(s)[i])
    ensures Lower(Upper(s)) == Lower(s) && Upper(Lower(s)) == Upper(s)
  {
    forall i | 0 <= i < |s|
      ensures ToLower(Upper(s)[i]) == ToLower(s[i]) && ToUpper(Lower(s)[i]) == ToUpper(s[i])
    {
      CaseRoundTrips(s[i]);
    }
    assert CaseEq(Lower(s), s) by {
      forall i | 0 <= i < |s| ensures ToLower(Lower(s)[i]) == ToLower(s[i]) {
        CaseRoundTrips(s[i]);
        assert ToLower(ToLower(s[i])) == ToLower(s[i]);
      }
    }
    assert Lower(Upper(s)) == Lower(s);
    assert Upper(Lower(s)) == Upper(s);
  }

  /** ECMAScript LineTerminator: what `.` refuses to match. */
  predicate IsLineTerminator(c: char) {
    c == '\n' || c == '\r' || c == '\U{2028}' || c == '\U{2029}'
  }

  /** ECMAScript `\s`: WhiteSpace and LineTerminator. */
  predicate IsWhitespace(c: char) {
    || IsLineTerminator(c)
    || c == '\t' || c == '\U{000B}' || c == '\U{000C}' || c == ' '
    || c == '\U{00A0}' || c == '\U{1680}' || ('\U{2000}' <= c <= '\U{200A}')
    || c == '\U{202F}' || c == '\U{205F}' || c == '\U{3000}' || c == '\U{FEFF}'
  }

  predicate StartsWith(s: string, prefix: string) {
    |prefix| <= |s| && s[..|prefix|] == prefix
  }

  predicate EndsWith(s: string, suffix: string) {
    |suffix| <= |s| && s[|s| - |suffix|..] == suffix
  }

  /** `s.indexOf(p) >= 0`, and what a regular expression made only of
      the literal `p` finds. */
  predicate Contains(s: string, p: string)
    decreases |s|
  {
    StartsWith(s, p) || (|s| > 0 && Contains(s[1..], p))
  }

  lemma ContainsAt(s: string, p: string, i: nat)
    requires i + |p| <= |s| && s[i..i + |p|] == p
    ensures Contains(s, p)
    decreases i
  {
    if i > 0 {
      assert s[1..][i - 1..i - 1 + |p|] == s[i..i + |p|];
      ContainsAt(s[1..], p, i - 1);
    }
  }

  /** Every character of a contained text occurs in the container. */
  lemma {:induction false} ContainedChar(s: string, p: string, k: nat)
    requires Contains(s, p) && k < |p|
    ensures p[k] in s
    decreases |s|
  {
    if StartsWith(s, p) {
      assert s[k] == p[k];
    } else {
      ContainedChar(s[1..], p, k);
      assert p[k] in s[1..];
    }
  }

  /** What `.*` matches from the start of `s`: everything before the first
      line terminator. */
  function FirstLine(s: string): (r: string)
    ensures StartsWith(s, r)
    ensures forall i :: 0 <= i < |r| ==> !IsLineTerminator(r[i])
    ensures |r| < |s| ==> IsLineTerminator(s[|r|])
  {
    if s == [] || IsLineTerminator(s[0]) then ""
    else [s[0]] + FirstLine(s[1..])
  }

  lemma {:induction false} FirstLineAll(s: string)
    requires forall i :: 0 <= i < |s| ==> !IsLineTerminator(s[i])
    ensures FirstLine(s) == s
    decreases |s|
  {
    if s != [] {
      FirstLineAll(s[1..]);
    }
  }

  /** Length of the longest prefix of `s` free of the characters in
      `stops`: what a greedy `[^...]*` takes. */
  function RunLen(s: string, stops: set<char>): (n: nat)
    ensures n <= |s|
    ensures forall k :: 0 <= k < n ==> s[k] !in stops
    ensures n < |s| ==> s[n] in stops
    decreases |s|
  {
    if s == [] || s[0] in stops then 0 else 1 + RunLen(s[1..], stops)
  }

  /** A run is exactly the stop-free text before the first stop. */
  lemma {:induction false} RunLenOf(x: string, rest: string, stops: set<char>)
    requires forall k :: 0 <= k < |x| ==> x[k] !in stops
    requires rest == [] || rest[0] in stops
    ensures RunLen(x + rest, stops) == |x|
    decreases |x|
  {
    if x != [] {
      assert (x + rest)[1..] == x[1..] + rest;
      RunLenOf(x[1..], rest, stops);
    } else {
      assert x + rest == rest;
    }
  }

  /** Length of the whitespace prefix of `s`: what a greedy `\s*` takes. */
  function WsRun(s: string): (n: nat)
    ensures n <= |s|
    ensures forall k :: 0 <= k < n ==> IsWhitespace(s[k])
    ensures n < |s| ==> !IsWhitespace(s[n])
    decreases |s|
  {
    if s == [] || !IsWhitespace(s[0]) then 0 else 1 + WsRun(s[1..])
  }

  lemma {:induction false} WsRunOf(x: string, rest: string)
    requires forall k :: 0 <= k < |x| ==> IsWhitespace(x[k])
    requires rest == [] || !IsWhitespace(rest[0])
    ensures WsRun(x + rest) == |x|
    decreases |x|
  {
    if x != [] {
      assert (x + rest)[1..] == x[1..] + rest;
      WsRunOf(x[1..], rest);
    } else {
      assert x + rest == rest;
    }
  }

  /** Number of occurrences of `c` in `s`. */
  function CountChar(s: string, c: char): nat {
    if s == [] then 0 else (if s[0] == c then 1 else 0) + CountChar(s[1..], c)
  }

  /** `s.split(sep)` for a one-character separator: as many pieces as
      separators plus one, none of them containing the separator. */
  function Split(s: string, sep: char): (parts: seq<string>)
    ensures |parts| == CountChar(s, sep) + 1
    ensures forall i :: 0 <= i < |parts| ==> sep !in parts[i]
    decreases |s|
  {
    if s == [] then [""]
    else if s[0] == sep then [""] + Split(s[1..], sep)
    else
      var rest := Split(s[1..], sep);
      [[s[0]] + rest[0]] + rest[1..]
  }

  /** `parts.join(sep)` for a one-character separator. */
  function Join(parts: seq<string>, sep: char): string {
    if parts == [] then ""
    else if |parts| == 1 then parts[0]
    else parts[0] + [sep] + Join(parts[1..], sep)
  }

  /** Joining the pieces of a split gives the text back. */
  lemma {:induction false} JoinSplit(s: string, sep: char)
    ensures Join(Split(s, sep), sep) == s
    decreases |s|
  {
    if s == [] {
    } else if s[0] == sep {
      JoinSplit(s[1..], sep);
      assert Split(s, sep)[1..] == Split(s[1..], sep);
    } else {
      var rest := Split(s[1..], sep);
      JoinSplit(s[1..], sep);
      var parts := Split(s, sep);
      assert parts[1..] == rest[1..];
      if |rest| == 1 {
        assert Join(parts, sep) == [s[0]] + rest[0];
      } else {
        assert Join(parts, sep) == [s[0]] + rest[0] + [sep] + Join(rest[1..], sep);
        assert Join(rest, sep) == rest[0] + [sep] + Join(rest[1..], sep);
      }
      assert s == [s[0]] + s[1..];
    }
  }

  /** Splitting a word without the separator, glued to more text, puts
      the word in front of the first piece of that text. */
  lemma {:induction false} SplitAfterWord(w: string, t: string, sep: char)
    requires sep !in w
    ensures Split(w + t, sep) == [w + Split(t, sep)[0]] + Split(t, sep)[1..]
    decreases |w|
  {
    if w != [] {
      SplitAfterWord(w[1..], t, sep);
      assert (w + t)[1..] == w[1..] + t;
      assert (w + t)[0] == w[0];
      assert [w[0]] + (w[1..] + Split(t, sep)[0]) == w + Split(t, sep)[0];
    } else {
      var parts := Split(t, sep);
      assert w + t == t && w + parts[0] == parts[0];
      assert parts == [parts[0]] + parts[1..];
    }
  }

  /** Splitting the join of separator-free pieces gives the pieces back. */
  lemma {:induction false} SplitJoin(parts: seq<string>, sep: char)
    requires parts != []
    requires forall i :: 0 <= i < |parts| ==> sep !in parts[i]
    ensures Split(Join(parts, sep), sep) == parts
    decreases |parts|
  {
    if |parts| == 1 {
      SplitAfterWord(parts[0], "", sep);
      assert parts[0] + "" == parts[0];
    } else {
      var tail := Join(parts[1..], sep);
      SplitJoin(parts[1..], sep);
      assert Join(parts, sep) == parts[0] + ([sep] + tail);
      SplitAfterWord(parts[0], [sep] + tail, sep);
      assert ([sep] + tail)[1..] == tail;
      assert Split([sep] + tail, sep) == [""] + parts[1..];
      assert parts[0] + "" == parts[0];
      assert parts == [parts[0]] + parts[1..];
    }
  }

  lemma CaseEqAppend(a: string, b: string, c: string, d: string)
    requires CaseEq(a, b) && CaseEq(c, d)
    ensures CaseEq(a + c, b + d)
  {
    var x, y := a + c, b + d;
    forall i | 0 <= i < |x| ensures ToLower(x[i]) == ToLower(y[i]) {
      if i < |a| {
        assert x[i] == a[i] && y[i] == b[i];
      } else {
        assert x[i] == c[i - |a|] && y[i] == d[i - |a|];
      }
    }
  }

  /** Joining pieces that differ only in case gives texts that differ only
      in case. */
  lemma {:induction false} JoinCaseEq(xs: seq<string>, ys: seq<string>, sep: char)
    requires |xs| == |ys|
    requires forall i :: 0 <= i < |xs| ==> CaseEq(xs[i], ys[i])
    ensures CaseEq(Join(xs, sep), Join(ys, sep))
    decreases |xs|
  {
    if |xs| > 1 {
      JoinCaseEq(xs[1..], ys[1..], sep);
      assert CaseEq(xs[0], ys[0]);
      CaseEqAppend(xs[0], ys[0], [sep], [sep]);
      CaseEqAppend(xs[0] + [sep], ys[0] + [sep], Join(xs[1..], sep), Join(ys[1..], sep));
    } else if |xs| == 1 {
      assert CaseEq(xs[0], ys[0]);
    }
  }
}
