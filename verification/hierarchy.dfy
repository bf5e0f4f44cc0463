/** `findInherits`: the text scan that finds, line by line, where a class
    declares its parent (`inherit(Parent, Child)`), or, for the root class
    `CatalogMember`, where its `defineProperties` block starts. The line
    index bounds the own-property selection and the captured name becomes
    the model's `parent`. */
module Hierarchy {
  import opened Outcomes
  import opened JsText
  import opened Comments

  /** What `findInherits` returns: `{ line: i, parent: m[1] }`. */
  datatype Inherits = Inherits(line: nat, parent: Option<string>)

  /** The character class `[A-Za-z0-9_-]`. */
  predicate IsIdentChar(c: char) {
    'A' <= c <= 'Z' || 'a' <= c <= 'z' || '0' <= c <= '9' || c == '_' || c == '-'
  }

  /** Length of the longest prefix of identifier characters. */
  function IdentRun(s: string): (n: nat)
    ensures n <= |s|
    ensures forall k :: 0 <= k < n ==> IsIdentChar(s[k])
    ensures n < |s| ==> !IsIdentChar(s[n])
    decreases |s|
  {
    if s == [] || !IsIdentChar(s[0]) then 0 else 1 + IdentRun(s[1..])
  }

  /** `.*Catalog` matches at the start of `t`: "Catalog" occurs with no
      line terminator before it. */
  predicate CatalogAhead(t: string)
    decreases |t|
  {
    StartsWith(t, "Catalog") || (|t| > 0 && !IsLineTerminator(t[0]) && CatalogAhead(t[1..]))
  }

  /** `.*Catalog` matches from position `j` of `u`. */
  predicate CatalogAfter(u: string, j: nat)
    requires j <= |u|
  {
    CatalogAhead(u[j..])
  }

  /** The greedy group `([A-Za-z0-9_-]+)` followed by `.*Catalog`: the
      group first takes all `n` identifier characters of `u` and gives
      one back at a time until the rest of the pattern matches; 0 when no
      length from 1 to `n` works. */
  function Capture(u: string, n: nat): (k: nat)
    requires n <= |u|
    ensures k <= n
    ensures k > 0 ==> CatalogAfter(u, k)
    ensures forall j :: k < j <= n ==> !CatalogAfter(u, j)
    decreases n
  {
    if n == 0 then 0
    else if CatalogAfter(u, n) then n
    else Capture(u, n - 1)
  }

  /** The inherit pattern tried at position `p` of `line`: `inherit`, the
      whitespace run, `(`, then the captured identifier. (`\s*` cannot give
      anything back usefully: a whitespace character is never `(`.) */
  function InheritAt(line: string, p: nat): (r: Option<string>)
    requires p <= |line|
    ensures r.Some? ==> |r.value| > 0 && forall k :: 0 <= k < |r.value| ==> IsIdentChar(r.value[k])
    ensures r.Some? ==> StartsWith(line[p..], "inherit")
  {
    var s := line[p..];
    if !StartsWith(s, "inherit") then None
    else
      var w := 7 + WsRun(s[7..]);
      if w < |s| && s[w] == '(' then
        var u := s[w + 1..];
        var k := Capture(u, IdentRun(u));
        if k > 0 then Some(u[..k]) else None
      else None
  }

  /** `line.match(/inherit\s*\(([A-Za-z0-9_-]+).*Catalog/)`: the capture
      of the leftmost match at or after `from`. */
  function InheritMatch(line: string, from: nat): Option<string>
    decreases |line| - from
  {
    if from > |line| then None
    else match InheritAt(line, from)
      case Some(x) => Some(x)
      case None => InheritMatch(line, from + 1)
  }

  /** The match found is the one at the leftmost position where the
      pattern matches, and there is none when it matches nowhere. */
  lemma InheritMatchLeftmost(line: string, from: nat)
    ensures var r := InheritMatch(line, from);
      && (r.Some? ==> exists p :: from <= p <= |line| && InheritAt(line, p) == r
                         && forall q :: from <= q < p ==> InheritAt(line, q).None?)
      && (r.None? ==> forall p :: from <= p <= |line| ==> InheritAt(line, p).None?)
  {
    InheritMatchFound(line, from);
    InheritMatchNone(line, from);
  }

  lemma {:induction false} InheritMatchFound(line: string, from: nat)
    ensures InheritMatch(line, from).Some? ==>
      exists p :: from <= p <= |line| && InheritAt(line, p) == InheritMatch(line, from)
                  && forall q :: from <= q < p ==> InheritAt(line, q).None?
    decreases |line| - from
  {
    if from <= |line| && InheritAt(line, from).None? {
      InheritMatchFound(line, from + 1);
      var r := InheritMatch(line, from + 1);
      if r.Some? {
        var p :| from + 1 <= p <= |line| && InheritAt(line, p) == r
                 && forall q :: from + 1 <= q < p ==> InheritAt(line, q).None?;
        assert forall q :: from <= q < p ==> InheritAt(line, q).None?;
      }
    }
  }

  lemma {:induction false} InheritMatchNone(line: string, from: nat)
    ensures InheritMatch(line, from).None? ==> forall p :: from <= p <= |line| ==> InheritAt(line, p).None?
    decreases |line| - from
  {
    if from <= |line| && InheritAt(line, from).None? {
      InheritMatchNone(line, from + 1);
    }
  }

  const MemberRootCall: string := "defineProperties(CatalogMember.prototype"

  /** Whether `findInherits` treats the file as the root class: the
      unanchored `/CatalogMember\.js/` test on its name. */
  predicate IsMemberRoot(filename: string) {
    Contains(filename, "CatalogMember.js")
  }

  /** The search expression applied to one line: `None` when it does not
      match, else the value of `m[1]` (undefined for the root pattern,
      which has no group). */
  function LineMatch(line: string, memberRoot: bool): Option<Option<string>> {
    if memberRoot then
      (if Contains(line, MemberRootCall) then Some(None) else None)
    else
      match InheritMatch(line, 0)
      case Some(x) => Some(Some(x))
      case None => None
  }

  /** The first line at or after `from` that the search expression
      matches, with the value of `m[1]` there. */
  function FirstMatchingLine(lines: seq<string>, memberRoot: bool, from: nat): Option<Inherits>
    decreases |lines| - from
  {
    if from >= |lines| then None
    else match LineMatch(lines[from], memberRoot)
      case Some(parent) => Some(Inherits(from, parent))
      case None => FirstMatchingLine(lines, memberRoot, from + 1)
  }

  /** `findInherits(fulltext, filename)`: the scan of the lines of
      `fulltext.split('\n')`, which returns at the first match and throws
      when there is none. */
  method FindInherits(fulltext: string, filename: string) returns (r: Result<Inherits, Failure>)
    ensures r == match FirstMatchingLine(Split(fulltext, '\n'), IsMemberRoot(filename), 0)
                 case Some(found) => Ok(found)
                 case None => Err(NoInheritsLine(filename))
  {
    var memberRoot := IsMemberRoot(filename);
    var lines := Split(fulltext, '\n');
    for i := 0 to |lines|
      invariant FirstMatchingLine(lines, memberRoot, 0) == FirstMatchingLine(lines, memberRoot, i)
    {
      var m := LineMatch(lines[i], memberRoot);
      if m.Some? {
        return Ok(Inherits(i, m.value));
      }
    }
    return Err(NoInheritsLine(filename));
  }

  /** The scan finds a line exactly when some line matches; the line it
      finds matches, with the parent captured there, and no earlier line
      does; the parent is undefined exactly for the root class. */
  lemma {:induction false} FirstMatchingLineSpec(lines: seq<string>, memberRoot: bool, from: nat)
    ensures var r := FirstMatchingLine(lines, memberRoot, from);
      && (r.Some? <==> exists i :: from <= i < |lines| && LineMatch(lines[i], memberRoot).Some?)
      && (r.Some? ==> (&& from <= r.value.line < |lines|
                       && LineMatch(lines[r.value.line], memberRoot) == Some(r.value.parent)
                       && (forall j :: from <= j < r.value.line ==> LineMatch(lines[j], memberRoot).None?)
                       && (r.value.parent.None? <==> memberRoot)))
    decreases |lines| - from
  {
    if from < |lines| && LineMatch(lines[from], memberRoot).None? {
      FirstMatchingLineSpec(lines, memberRoot, from + 1);
    }
  }

  /** Text before a match that holds no `i` cannot start one. */
  lemma NoInheritBefore(line: string, pre: string, p: nat)
    requires StartsWith(line, pre) && 'i' !in pre && p < |pre|
    ensures InheritAt(line, p).None?
  {
    assert line[p..][0] == pre[p];
  }

  lemma NoInheritInPrefix(line: string, pre: string)
    requires StartsWith(line, pre) && 'i' !in pre
    ensures forall p :: 0 <= p < |pre| ==> InheritAt(line, p).None?
  {
    forall p | 0 <= p < |pre| ensures InheritAt(line, p).None? {
      NoInheritBefore(line, pre, p);
    }
  }

  /** An `inherit(Parent, …Catalog…)` line, indented by whitespace or
      not, yields `Parent`: the whole identifier after the bracket, as
      long as "Catalog" follows it on the line. */
  lemma InheritLine(pre: string, ws: string, parent: string, rest: string)
    requires forall k :: 0 <= k < |pre| ==> IsWhitespace(pre[k])
    requires forall k :: 0 <= k < |ws| ==> IsWhitespace(ws[k])
    requires |parent| > 0 && forall k :: 0 <= k < |parent| ==> IsIdentChar(parent[k])
    requires rest == [] || !IsIdentChar(rest[0])
    requires CatalogAhead(rest)
    ensures InheritMatch(pre + "inherit" + ws + "(" + parent + rest, 0) == Some(parent)
  {
    var line := pre + "inherit" + ws + "(" + parent + rest;
    var tail := "inherit" + ws + "(" + parent + rest;
    assert line == pre + tail;
    assert StartsWith(line, pre) && line[|pre|..] == tail by {
      assert line[..|pre|] == pre;
    }
    assert 'i' !in pre by {
      assert forall k :: 0 <= k < |pre| ==> pre[k] != 'i';
    }
    assert InheritAt(line, |pre|) == Some(parent) by {
      InheritAtForm(line, |pre|, ws, parent, rest);
    }
    NoInheritInPrefix(line, pre);
    InheritMatchFrom(line, |pre|);
  }

  /** The pattern at a position where the line reads
      `inherit`, whitespace, `(`, an identifier and a rest with "Catalog". */
  lemma InheritAtForm(line: string, p: nat, ws: string, parent: string, rest: string)
    requires p <= |line| && line[p..] == "inherit" + ws + "(" + parent + rest
    requires forall k :: 0 <= k < |ws| ==> IsWhitespace(ws[k])
    requires |parent| > 0 && forall k :: 0 <= k < |parent| ==> IsIdentChar(parent[k])
    requires rest == [] || !IsIdentChar(rest[0])
    requires CatalogAhead(rest)
    ensures InheritAt(line, p) == Some(parent)
  {
    var s := line[p..];
    InheritTail(s, ws, parent, rest);
    InheritCapture(parent, rest);
    assert s[7 + |ws| + 1..] == s[7..][|ws| + 1..];
  }

  /** `inherit`, the whitespace run and the bracket. */
  lemma InheritTail(s: string, ws: string, parent: string, rest: string)
    requires s == "inherit" + ws + "(" + parent + rest
    requires forall k :: 0 <= k < |ws| ==> IsWhitespace(ws[k])
    ensures StartsWith(s, "inherit")
    ensures var t := s[7..];
      WsRun(t) == |ws| < |t| && t[|ws|] == '(' && t[|ws| + 1..] == parent + rest
  {
    assert s == "inherit" + (ws + ("(" + (parent + rest)));
    assert s[..7] == "inherit";
    var t := s[7..];
    assert t == ws + ("(" + (parent + rest));
    WsRunOf(ws, "(" + (parent + rest));
    assert t[|ws| + 1..] == parent + rest;
  }

  /** The group takes the whole identifier when "Catalog" follows it. */
  lemma InheritCapture(parent: string, rest: string)
    requires |parent| > 0 && forall k :: 0 <= k < |parent| ==> IsIdentChar(parent[k])
    requires rest == [] || !IsIdentChar(rest[0])
    requires CatalogAhead(rest)
    ensures var u := parent + rest;
      IdentRun(u) == |parent| && Capture(u, |parent|) == |parent| && u[..|parent|] == parent
  {
    var u := parent + rest;
    IdentRunOf(parent, rest);
    assert u[|parent|..] == rest;
    assert CatalogAfter(u, |parent|);
  }

  lemma {:induction false} IdentRunOf(x: string, rest: string)
    requires forall k :: 0 <= k < |x| ==> IsIdentChar(x[k])
    requires rest == [] || !IsIdentChar(rest[0])
    ensures IdentRun(x + rest) == |x|
    decreases |x|
  {
    if x != [] {
      assert (x + rest)[1..] == x[1..] + rest;
      IdentRunOf(x[1..], rest);
    } else {
      assert x + rest == rest;
    }
  }

  /** The leftmost match is the first position where the pattern matches. */
  lemma {:induction false} InheritMatchFrom(line: string, q: nat)
    requires q <= |line| && InheritAt(line, q).Some?
    requires forall p :: 0 <= p < q ==> InheritAt(line, p).None?
    ensures InheritMatch(line, 0) == InheritAt(line, q)
  {
    InheritMatchStep(line, 0, q);
  }

  lemma {:induction false} InheritMatchStep(line: string, from: nat, q: nat)
    requires from <= q <= |line| && InheritAt(line, q).Some?
    requires forall p :: from <= p < q ==> InheritAt(line, p).None?
    ensures InheritMatch(line, from) == InheritAt(line, q)
    decreases q - from
  {
    if from < q {
      InheritMatchStep(line, from + 1, q);
    }
  }

  /** The capture gives characters back when nothing after the whole
      identifier reads "Catalog": for `inherit(ImageryLayerCatalogItem, X)`
      with no "Catalog" in the rest, the parent is `ImageryLayer`. */
  lemma CaptureBacktracks(a: string, b: string, rest: string)
    requires |a| > 0 && forall k :: 0 <= k < |a| ==> IsIdentChar(a[k])
    requires forall k :: 0 <= k < |b| ==> IsIdentChar(b[k])
    requires rest == [] || !IsIdentChar(rest[0])
    requires forall j :: |a| < j <= |a| + 7 + |b| ==> !CatalogAfter(a + "Catalog" + b + rest, j)
    ensures var u := a + "Catalog" + b + rest;
      Capture(u, IdentRun(u)) == |a| && u[..|a|] == a
  {
    var u := a + "Catalog" + b + rest;
    var x := a + "Catalog" + b;
    assert u == x + rest;
    forall k | 0 <= k < |x| ensures IsIdentChar(x[k]) {
      if k < |a| {
        assert x[k] == a[k];
      } else if k < |a| + 7 {
        assert x[k] == "Catalog"[k - |a|];
      } else {
        assert x[k] == b[k - |a| - 7];
      }
    }
    IdentRunOf(x, rest);
    assert u[|a|..] == "Catalog" + b + rest;
    assert CatalogAfter(u, |a|);
    CaptureLongest(u, |x|, |a|);
  }

  /** The capture is the longest length that lets the rest match. */
  lemma {:induction false} CaptureLongest(u: string, n: nat, k: nat)
    requires k <= n <= |u| && 0 < k && CatalogAfter(u, k)
    requires forall j :: k < j <= n ==> !CatalogAfter(u, j)
    ensures Capture(u, n) == k
    decreases n
  {
    if n > k {
      CaptureLongest(u, n - 1, k);
    }
  }
}
