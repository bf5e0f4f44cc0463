/** The text rewriting applied to a property's description: the
    "Gets or sets" openings, the "This property is observable" sentence,
    and `replaceLinks`, which turns JSDoc `{@link ...}` markup into plain
    words. Each regular expression is written out as the matcher it is:
    greedy runs of a character class, leftmost match, and for the `g`
    flag a scan that resumes after each match. */
module Descriptions {
  import opened Outcomes
  import opened JsText

  // ---------------------------------------------------------------------
  // The description openings and the observable sentence

  /** `d.replace(/^pre/, repl)`: the prefix is swapped only at the start. */
  function ReplacePrefix(d: string, pre: string, repl: string): (r: string)
    ensures StartsWith(d, pre) ==> r == repl + d[|pre|..]
    ensures !StartsWith(d, pre) ==> r == d
  {
    if StartsWith(d, pre) then repl + d[|pre|..] else d
  }

  const Observable: string := "This property is observable"

  /** `/\s*This property is observable./` matches at `i`: the whitespace
      run from `i`, the sentence, and one more character that is not a
      line terminator. */
  predicate ObservableAt(d: string, i: nat)
  {
    i <= |d| &&
    var k := i + WsRun(d[i..]);
    StartsWith(d[k..], Observable) && k + |Observable| < |d|
    && !IsLineTerminator(d[k + |Observable|])
  }

  /** Where the match at `i` ends. */
  function ObservableEnd(d: string, i: nat): (e: nat)
    requires ObservableAt(d, i)
    ensures i < e <= |d|
  {
    i + WsRun(d[i..]) + |Observable| + 1
  }

  /** The leftmost match at or after `from`. */
  function FirstObservable(d: string, from: nat): (r: Option<nat>)
    ensures r.Some? ==> from <= r.value && ObservableAt(d, r.value)
                        && forall j :: from <= j < r.value ==> !ObservableAt(d, j)
    ensures r.None? ==> forall j :: from <= j ==> !ObservableAt(d, j)
    decreases |d| + 1 - from
  {
    if from > |d| then None
    else if ObservableAt(d, from) then Some(from)
    else FirstObservable(d, from + 1)
  }

  /** `d.replace(/\s*This property is observable./, '')`: the leftmost
      match is cut out, at most once. */
  function StripObservable(d: string): string {
    match FirstObservable(d, 0)
    case None => d
    case Some(i) => d[..i] + d[ObservableEnd(d, i)..]
  }

  /** The description text of a property once its openings are rewritten
      and its observable sentence dropped. */
  function NormalizeDescription(d: string): string {
    StripObservable(ReplacePrefix(ReplacePrefix(d, "Gets or sets the", "The"), "Gets or sets a", "A"))
  }

  /** No match can start inside text that does not hold the sentence. */
  lemma NoObservable(d: string)
    requires !Contains(d, Observable)
    ensures StripObservable(d) == d
  {
    if FirstObservable(d, 0).Some? {
      ObservableContained(d, FirstObservable(d, 0).value);
    }
  }

  lemma ObservableContained(d: string, i: nat)
    requires ObservableAt(d, i)
    ensures Contains(d, Observable)
  {
    var k := i + WsRun(d[i..]);
    assert d[k..][..|Observable|] == d[k..k + |Observable|];
    ContainsAt(d, Observable, k);
  }

  /** No match starts inside text that ends in a non-space and holds no
      copy of the sentence starting within it. */
  lemma NoObservableBefore(d: string, n: nat)
    requires n <= |d| && (n == 0 || !IsWhitespace(d[n - 1]))
    requires forall k :: 0 <= k < n ==> !StartsWith(d[k..], Observable)
    ensures forall i :: 0 <= i < n ==> !ObservableAt(d, i)
  {
    forall i | 0 <= i < n ensures !ObservableAt(d, i) {
      assert d[i..][n - 1 - i] == d[n - 1];
    }
  }

  /** The sentence right after a whitespace run matches there. */
  lemma ObservableAfterSpace(d: string, i: nat, ws: string, c: char, b: string)
    requires i <= |d| && d[i..] == ws + Observable + [c] + b
    requires forall k :: 0 <= k < |ws| ==> IsWhitespace(ws[k])
    requires !IsLineTerminator(c)
    ensures ObservableAt(d, i) && ObservableEnd(d, i) == |d| - |b|
  {
    assert d[i..] == ws + (Observable + [c] + b);
    WsRunOf(ws, Observable + [c] + b);
    var k := i + |ws|;
    assert d[k..] == Observable + [c] + b;
    assert d[k..][..|Observable|] == Observable;
    assert d[k + |Observable|] == c;
  }

  /** The sentence after text that ends in a non-space (or is empty) and
      holds no earlier copy of it is cut out together with the whitespace
      before it and the one character after it. */
  lemma StripSentence(a: string, ws: string, c: char, b: string)
    requires a == [] || !IsWhitespace(a[|a| - 1])
    requires forall k :: 0 <= k < |ws| ==> IsWhitespace(ws[k])
    requires !IsLineTerminator(c)
    requires forall k :: 0 <= k < |a| ==> !StartsWith((a + ws + Observable + [c] + b)[k..], Observable)
    ensures StripObservable(a + ws + Observable + [c] + b) == a + b
  {
    var rest := ws + Observable + [c] + b;
    var d := a + rest;
    assert d == a + ws + Observable + [c] + b by {
      CatAssoc(a, ws + Observable + [c], b);
      CatAssoc(a, ws + Observable, [c]);
      CatAssoc(a, ws, Observable);
    }
    if a != [] {
      assert d[|a| - 1] == a[|a| - 1];
    }
    NoObservableBefore(d, |a|);
    assert d[|a|..] == rest;
    ObservableAfterSpace(d, |a|, ws, c, b);
    FirstObservableIs(d, |a|);
    assert d[..|a|] == a;
    assert d[|d| - |b|..] == b by {
      assert rest[|rest| - |b|..] == b;
    }
  }

  /** The first match is at `i` when one is there and none is before. */
  lemma FirstObservableIs(d: string, i: nat)
    requires ObservableAt(d, i) && forall j :: 0 <= j < i ==> !ObservableAt(d, j)
    ensures FirstObservable(d, 0).Some? && FirstObservable(d, 0).value == i
  {
  }

  lemma CatAssoc(x: string, y: string, z: string)
    ensures x + (y + z) == x + y + z
  {
  }

  lemma StartsWithPrefix(d: string, p: string, q: string)
    requires StartsWith(d, p + q)
    ensures StartsWith(d, p)
  {
    assert d[..|p|] == (p + q)[..|p|];
  }

  /** Text starting with neither opening keeps its start. */
  lemma OpeningsKept(d: string)
    requires !StartsWith(d, "Gets or sets ")
    ensures ReplacePrefix(ReplacePrefix(d, "Gets or sets the", "The"), "Gets or sets a", "A") == d
  {
    if StartsWith(d, "Gets or sets the") {
      assert "Gets or sets the" == "Gets or sets " + "the";
      StartsWithPrefix(d, "Gets or sets ", "the");
    }
    if StartsWith(d, "Gets or sets a") {
      assert "Gets or sets a" == "Gets or sets " + "a";
      StartsWithPrefix(d, "Gets or sets ", "a");
    }
  }

  /** Descriptions that start with neither opening and do not hold the
      sentence are left as written. */
  lemma NormalizeKeepsPlain(d: string)
    requires !StartsWith(d, "Gets or sets ")
    requires !Contains(d, Observable)
    ensures NormalizeDescription(d) == d
  {
    OpeningsKept(d);
    NoObservable(d);
  }

  lemma OpeningThe(rest: string)
    ensures ReplacePrefix(ReplacePrefix("Gets or sets the" + rest, "Gets or sets the", "The"),
                          "Gets or sets a", "A") == "The" + rest
  {
    var d := "Gets or sets the" + rest;
    assert d[..16] == "Gets or sets the" && d[16..] == rest;
    assert ("The" + rest)[0] == 'T';
  }

  lemma OpeningA(rest: string)
    ensures ReplacePrefix(ReplacePrefix("Gets or sets a" + rest, "Gets or sets the", "The"),
                          "Gets or sets a", "A") == "A" + rest
  {
    var e := "Gets or sets a" + rest;
    assert !StartsWith(e, "Gets or sets the") by {
      if |e| >= 16 {
        assert e[..16][13] == e[13] == 'a';
      }
    }
    assert e[..14] == "Gets or sets a" && e[14..] == rest;
  }

  /** "Gets or sets the X" reads "The X"; "Gets or sets a X" reads "A X". */
  lemma NormalizeOpenings(rest: string)
    requires !Contains("The" + rest, Observable) && !Contains("A" + rest, Observable)
    ensures NormalizeDescription("Gets or sets the" + rest) == "The" + rest
    ensures NormalizeDescription("Gets or sets a" + rest) == "A" + rest
  {
    OpeningThe(rest);
    NoObservable("The" + rest);
    OpeningA(rest);
    NoObservable("A" + rest);
  }

  // ---------------------------------------------------------------------
  // replaceLinks

  /** `{@link ` with the word in any letter case (the `i` flag). */
  predicate LinkOpenAt(s: string) {
    |s| >= 7 && s[0] == '{' && s[1] == '@' && ToLower(s[2]) == 'l' && ToLower(s[3]) == 'i'
    && ToLower(s[4]) == 'n' && ToLower(s[5]) == 'k' && s[6] == ' '
  }

  /** A match of `/\{@link ([^|}#]+)#([^}]*)\}/i` at the start of `s`:
      the target, the member, and the length matched. Both runs are
      greedy and cannot give characters back, so the match is unique. */
  function HashLink(s: string): (r: Option<(string, string, nat)>)
    ensures r.Some? ==> 0 < r.value.2 <= |s|
  {
    if !LinkOpenAt(s) then None
    else
      var t := s[7..];
      var n := RunLen(t, {'|', '}', '#'});
      if n == 0 || n == |t| || t[n] != '#' then None
      else
        var u := t[n + 1..];
        var m := RunLen(u, {'}'});
        if m == |u| then None
        else
          assert forall k :: 0 <= k < m ==> u[k] != '}';
          Some((t[..n], u[..m], 7 + n + 1 + m + 1))
  }

  /** The caption part `([^}]+)\}` at the start of `u`: the caption and the
      length matched. */
  function LabelAt(u: string): (r: Option<(string, nat)>)
    ensures r.Some? ==> r.value.0 != [] && '}' !in r.value.0 && r.value.1 == |r.value.0| + 1
                        && r.value.1 <= |u| && u[..|r.value.0|] == r.value.0 && u[|r.value.0|] == '}'
  {
    var m := RunLen(u, {'}'});
    if m == 0 || m == |u| then None
    else
      assert forall k :: 0 <= k < m ==> u[k] != '}';
      Some((u[..m], m + 1))
  }

  /** A match of `/\{@link ([^|}]+\|)?([^}]+)\}/i` at the start of `s`:
      the caption (group 2) and the length matched. The optional target is
      tried first; when the caption cannot follow it the expression starts
      the caption right after `{@link `. */
  function PipeLink(s: string): (r: Option<(string, nat)>)
    ensures r.Some? ==> LinkOpenAt(s) && 7 < r.value.1 <= |s| && s[r.value.1 - 1] == '}'
                        && r.value.0 != [] && '}' !in r.value.0
  {
    if !LinkOpenAt(s) then None
    else
      var t := s[7..];
      var n := RunLen(t, {'|', '}'});
      var targeted := if n >= 1 && n < |t| && t[n] == '|' then LabelAt(t[n + 1..]) else None;
      match targeted
      case Some((caption, m)) => Some((caption, 7 + n + 1 + m))
      case None =>
        match LabelAt(t)
        case Some((caption, m)) => Some((caption, 7 + m))
        case None => None
  }

  /** The hash expression matches at the start of `s` with target `a`,
      member `b` and length `len`. */
  predicate HashMatches(s: string, a: string, b: string, len: nat) {
    HashLink(s).Some? && HashLink(s).value.0 == a && HashLink(s).value.1 == b && HashLink(s).value.2 == len
  }

  /** The pipe expression matches at the start of `s` with caption
      `caption` and length `len`. */
  predicate PipeMatches(s: string, caption: string, len: nat) {
    PipeLink(s).Some? && PipeLink(s).value.0 == caption && PipeLink(s).value.1 == len
  }

  /** `s.replace(/\{@link ([^|}#]+)#([^}]*)\}/ig, "$1's $2")` */
  function ReplaceHashLinks(s: string): string
    decreases |s|
  {
    if s == [] then []
    else match HashLink(s)
      case Some((a, b, len)) => a + "'s " + b + ReplaceHashLinks(s[len..])
      case None => [s[0]] + ReplaceHashLinks(s[1..])
  }

  /** `s.replace(/\{@link ([^|}]+\|)?([^}]+)\}/ig, '$2')` */
  function ReplacePipeLinks(s: string): string
    decreases |s|
  {
    if s == [] then []
    else match PipeLink(s)
      case Some((caption, len)) => caption + ReplacePipeLinks(s[len..])
      case None => [s[0]] + ReplacePipeLinks(s[1..])
  }

  /** `replaceLinks(comment)`: `undefined` stays `undefined`. */
  function ReplaceLinks(comment: Option<string>): (r: Option<string>)
    ensures r.None? <==> comment.None?
    ensures comment.Some? ==> r.value == ReplacePipeLinks(ReplaceHashLinks(comment.value))
  {
    match comment
    case None => None
    case Some(s) => Some(ReplacePipeLinks(ReplaceHashLinks(s)))
  }

  /** No `{@link ` opens anywhere in `s`, in any letter case. */
  predicate NoLinkOpen(s: string) {
    forall i :: 0 <= i <= |s| ==> !LinkOpenAt(s[i..])
  }

  /** Text in which no `{@link ` opens is left alone by both passes; other
      inline tags such as `{@code x}` or `{@linkplain X}` included. */
  lemma {:induction false} NoLinksUnchanged(s: string)
    requires NoLinkOpen(s)
    ensures ReplaceHashLinks(s) == s && ReplacePipeLinks(s) == s
    ensures ReplaceLinks(Some(s)) == Some(s)
    decreases |s|
  {
    if s != [] {
      assert !LinkOpenAt(s[0..]) && s[0..] == s;
      assert NoLinkOpen(s[1..]) by {
        forall i | 0 <= i <= |s[1..]| ensures !LinkOpenAt(s[1..][i..]) {
          assert s[1..][i..] == s[i + 1..];
        }
      }
      NoLinksUnchanged(s[1..]);
      assert s == [s[0]] + s[1..];
    }
  }

  /** An inline tag other than a link is kept as written. */
  lemma CodeTagUnchanged()
    ensures ReplaceLinks(Some("see {@code x}")) == Some("see {@code x}")
  {
    var s := "see {@code x}";
    forall i | 0 <= i <= |s| ensures !LinkOpenAt(s[i..]) {
      if i == 4 {
        assert s[i..][2] == 'c';
      }
    }
    NoLinksUnchanged(s);
  }

  /** Text without a `{` passes both rewrites unchanged in front of
      whatever follows it. */
  lemma {:induction false} PlainPrefix(pre: string, t: string)
    requires '{' !in pre
    ensures ReplaceHashLinks(pre + t) == pre + ReplaceHashLinks(t)
    ensures ReplacePipeLinks(pre + t) == pre + ReplacePipeLinks(t)
  {
    PlainPrefixHash(pre, t);
    PlainPrefixPipe(pre, t);
  }

  lemma {:induction false} PlainPrefixHash(pre: string, t: string)
    requires '{' !in pre
    ensures ReplaceHashLinks(pre + t) == pre + ReplaceHashLinks(t)
    decreases |pre|
  {
    if pre != [] {
      var s := pre + t;
      assert s[0] == pre[0] && s[1..] == pre[1..] + t;
      assert !LinkOpenAt(s);
      PlainPrefixHash(pre[1..], t);
      assert pre == [pre[0]] + pre[1..];
    } else {
      assert pre + t == t;
    }
  }

  lemma {:induction false} PlainPrefixPipe(pre: string, t: string)
    requires '{' !in pre
    ensures ReplacePipeLinks(pre + t) == pre + ReplacePipeLinks(t)
    decreases |pre|
  {
    if pre != [] {
      var s := pre + t;
      assert s[0] == pre[0] && s[1..] == pre[1..] + t;
      assert !LinkOpenAt(s);
      PlainPrefixPipe(pre[1..], t);
      assert pre == [pre[0]] + pre[1..];
    } else {
      assert pre + t == t;
    }
  }

  lemma NoBraceNoLink(s: string)
    requires '{' !in s
    ensures NoLinkOpen(s)
  {
  }

  /** The link opening is `{@link ` whatever the case of the word. */
  lemma LinkOpenOf(x: string)
    requires |x| >= 7 && x[..7] == "{@link "
    ensures LinkOpenAt(x)
  {
    assert x[2..6] == "link";
  }

  lemma NotInCat(c: char, x: string, y: string)
    requires c !in x && c !in y
    ensures c !in x + y
  {
  }

  /** One step of the hash pass where no link opens and no `{` follows. */
  lemma HashPassPlain(s: string)
    requires s != [] && HashLink(s).None? && '{' !in s[1..]
    ensures ReplaceHashLinks(s) == s
  {
    NoBraceNoLink(s[1..]);
    NoLinksUnchanged(s[1..]);
    assert s == [s[0]] + s[1..];
  }

  /** One step of the pipe pass where a link matches and no `{` follows. */
  lemma PipePassMatch(s: string, caption: string, len: nat)
    requires PipeMatches(s, caption, len) && '{' !in s[len..]
    ensures ReplacePipeLinks(s) == caption + s[len..]
  {
    NoBraceNoLink(s[len..]);
    NoLinksUnchanged(s[len..]);
  }

  /** The two runs of the hash expression over `a#b}post`. */
  lemma HashRuns(t: string, a: string, b: string, post: string)
    requires t == a + (['#'] + b + "}" + post)
    requires forall k :: 0 <= k < |a| ==> a[k] !in {'|', '}', '#'}
    requires '}' !in b
    ensures RunLen(t, {'|', '}', '#'}) == |a| && t[..|a|] == a && t[|a|] == '#'
    ensures var u := t[|a| + 1..];
      RunLen(u, {'}'}) == |b| < |u| && u[..|b|] == b
  {
    RunLenOf(a, ['#'] + b + "}" + post, {'|', '}', '#'});
    var u := t[|a| + 1..];
    assert u == b + ("}" + post);
    RunLenOf(b, "}" + post, {'}'});
  }

  /** The hash expression matches `{@link a#b}post`. */
  lemma HashLinkOf(s: string, a: string, b: string, post: string)
    requires s == "{@link " + (a + (['#'] + b + "}" + post))
    requires a != [] && forall k :: 0 <= k < |a| ==> a[k] !in {'|', '}', '#'}
    requires '}' !in b
    ensures HashMatches(s, a, b, 7 + |a| + 1 + |b| + 1)
  {
    LinkOpenOf(s);
    assert s[7..] == a + (['#'] + b + "}" + post);
    HashRuns(s[7..], a, b, post);
  }

  lemma HashMatch(a: string, b: string, post: string)
    requires a != [] && forall k :: 0 <= k < |a| ==> a[k] !in {'|', '}', '#'}
    requires '}' !in b
    ensures HashMatches("{@link " + a + "#" + b + "}" + post, a, b, |a| + |b| + 9)
  {
    Regroup("{@link ", a, "#", b, "}", post);
    HashLinkOf("{@link " + a + "#" + b + "}" + post, a, b, post);
  }

  lemma Regroup(o: string, a: string, h: string, b: string, c: string, post: string)
    ensures o + a + h + b + c + post == o + (a + (h + b + c + post))
  {
    CatAssoc(o, a, h + b + c + post);
    CatAssoc(o + a, h + b + c, post);
    CatAssoc(o + a, h + b, c);
    CatAssoc(o + a, h, b);
  }

  /** `{@link A#b}` inside plain text reads "A's b". */
  lemma HashLinkForm(pre: string, a: string, b: string, post: string)
    requires '{' !in pre && '{' !in post && '{' !in a && '{' !in b
    requires a != [] && forall k :: 0 <= k < |a| ==> a[k] !in {'|', '}', '#'}
    requires '}' !in b
    ensures ReplaceLinks(Some(pre + "{@link " + a + "#" + b + "}" + post))
         == Some(pre + a + "'s " + b + post)
  {
    var link := "{@link " + a + "#" + b + "}";
    var s := link + post;
    var out := pre + a + "'s " + b + post;
    assert pre + "{@link " + a + "#" + b + "}" + post == pre + s by {
      CatAssoc(pre, link, post);
    }
    assert ReplaceHashLinks(s) == a + "'s " + b + post by {
      HashMatch(a, b, post);
      assert s[|link|..] == post;
      NoBraceNoLink(post);
      NoLinksUnchanged(post);
    }
    assert ReplaceHashLinks(pre + s) == out by {
      PlainPrefix(pre, s);
      CatAssoc(pre, a + "'s " + b, post);
      CatAssoc(pre, a + "'s ", b);
      CatAssoc(pre, a, "'s ");
    }
    assert ReplacePipeLinks(out) == out by {
      assert "'s "[0] != '{' && "'s "[1] != '{' && "'s "[2] != '{';
      NotInCat('{', pre, a);
      NotInCat('{', pre + a, "'s ");
      NotInCat('{', pre + a + "'s ", b);
      NotInCat('{', pre + a + "'s " + b, post);
      NoBraceNoLink(out);
      NoLinksUnchanged(out);
    }
  }

  /** The runs of both expressions over `target|caption}post`. */
  lemma PipeRuns(t: string, target: string, caption: string, post: string)
    requires t == target + (['|'] + caption + "}" + post)
    requires forall k :: 0 <= k < |target| ==> target[k] !in {'|', '}', '#'}
    requires caption != [] && '}' !in caption
    ensures RunLen(t, {'|', '}', '#'}) == |target| && RunLen(t, {'|', '}'}) == |target|
    ensures t[|target|] == '|' && LabelAt(t[|target| + 1..]).Some?
    ensures LabelAt(t[|target| + 1..]).value.0 == caption && LabelAt(t[|target| + 1..]).value.1 == |caption| + 1
    ensures t[|target| + |caption| + 2..] == post
  {
    RunLenOf(target, ['|'] + caption + "}" + post, {'|', '}', '#'});
    RunLenOf(target, ['|'] + caption + "}" + post, {'|', '}'});
    var u := t[|target| + 1..];
    assert u == caption + ("}" + post);
    RunLenOf(caption, "}" + post, {'}'});
    assert u[..|caption|] == caption;
  }

  /** `{@link target|caption}post` is no hash link and a pipe link. */
  lemma PipeLinkOf(s: string, target: string, caption: string, post: string)
    requires s == "{@link " + (target + (['|'] + caption + "}" + post))
    requires target != [] && forall k :: 0 <= k < |target| ==> target[k] !in {'|', '}', '#'}
    requires caption != [] && '}' !in caption
    ensures HashLink(s).None? && PipeMatches(s, caption, |target| + |caption| + 9)
    ensures s[|target| + |caption| + 9..] == post
  {
    LinkOpenOf(s);
    assert s[7..] == target + (['|'] + caption + "}" + post);
    PipeRuns(s[7..], target, caption, post);
    assert s[|target| + |caption| + 9..] == s[7..][|target| + |caption| + 2..];
  }

  lemma PipeMatch(target: string, caption: string, post: string)
    requires target != [] && forall k :: 0 <= k < |target| ==> target[k] !in {'|', '}', '#'}
    requires caption != [] && '}' !in caption
    ensures var s := "{@link " + target + "|" + caption + "}" + post;
      && HashLink(s).None? && PipeMatches(s, caption, |target| + |caption| + 9)
      && s[|target| + |caption| + 9..] == post
  {
    Regroup("{@link ", target, "|", caption, "}", post);
    PipeLinkOf("{@link " + target + "|" + caption + "}" + post, target, caption, post);
  }

  /** The text of a link after its opening brace. */
  lemma LinkTailNoBrace(link: string, x: string, post: string)
    requires link == "{@link " + x && '{' !in x && '{' !in post
    ensures (link + post)[0] == '{' && '{' !in (link + post)[1..]
  {
    assert (link + post)[1..] == "@link " + x + post;
    assert forall k :: 0 <= k < 6 ==> "@link "[k] != '{';
    NotInCat('{', "@link ", x);
    NotInCat('{', "@link " + x, post);
  }

  /** The hash pass leaves a pipe link in plain text alone. */
  lemma PipeLinkHashPass(pre: string, target: string, caption: string, post: string)
    requires '{' !in pre && '{' !in post && '{' !in target && '{' !in caption
    requires target != [] && forall k :: 0 <= k < |target| ==> target[k] !in {'|', '}', '#'}
    requires caption != [] && '}' !in caption
    ensures var s := "{@link " + target + "|" + caption + "}" + post;
      ReplaceHashLinks(pre + s) == pre + s
  {
    var link := "{@link " + target + "|" + caption + "}";
    var s := link + post;
    PipeMatch(target, caption, post);
    assert "|"[0] != '{' && "}"[0] != '{';
    NotInCat('{', target, "|");
    NotInCat('{', target + "|", caption);
    NotInCat('{', target + "|" + caption, "}");
    assert link == "{@link " + (target + "|" + caption + "}") by {
      CatAssoc("{@link ", target + "|" + caption, "}");
      CatAssoc("{@link ", target + "|", caption);
      CatAssoc("{@link ", target, "|");
    }
    LinkTailNoBrace(link, target + "|" + caption + "}", post);
    HashPassPlain(s);
    PlainPrefix(pre, s);
  }

  /** The pipe pass keeps only the caption of a pipe link in plain text. */
  lemma PipeLinkPipePass(pre: string, target: string, caption: string, post: string)
    requires '{' !in pre && '{' !in post
    requires target != [] && forall k :: 0 <= k < |target| ==> target[k] !in {'|', '}', '#'}
    requires caption != [] && '}' !in caption
    ensures var s := "{@link " + target + "|" + caption + "}" + post;
      ReplacePipeLinks(pre + s) == pre + caption + post
  {
    PipeMatch(target, caption, post);
    PipePassOf(pre, "{@link " + target + "|" + caption + "}" + post, caption, post, |target| + |caption| + 9);
  }

  /** The pipe pass over plain text, a matching link and plain text. */
  lemma PipePassOf(pre: string, s: string, caption: string, post: string, len: nat)
    requires '{' !in pre && '{' !in post
    requires PipeMatches(s, caption, len)
    requires s[len..] == post
    ensures ReplacePipeLinks(pre + s) == pre + caption + post
  {
    PipePassMatch(s, caption, len);
    PlainPrefixPipe(pre, s);
    CatAssoc(pre, caption, post);
  }

  /** `{@link target|Label}` inside plain text reads "Label". */
  lemma PipeLinkForm(pre: string, target: string, caption: string, post: string)
    requires '{' !in pre && '{' !in post && '{' !in target && '{' !in caption
    requires target != [] && forall k :: 0 <= k < |target| ==> target[k] !in {'|', '}', '#'}
    requires caption != [] && '}' !in caption
    ensures ReplaceLinks(Some(pre + "{@link " + target + "|" + caption + "}" + post))
         == Some(pre + caption + post)
  {
    var link := "{@link " + target + "|" + caption + "}";
    assert pre + "{@link " + target + "|" + caption + "}" + post == pre + (link + post) by {
      CatAssoc(pre, link, post);
    }
    PipeLinkHashPass(pre, target, caption, post);
    PipeLinkPipePass(pre, target, caption, post);
  }

  lemma PlainMatch(target: string, post: string)
    requires target != [] && forall k :: 0 <= k < |target| ==> target[k] !in {'|', '}', '#'}
    ensures var s := "{@link " + target + "}" + post;
      HashLink(s).None? && PipeMatches(s, target, |target| + 8)
  {
    var link := "{@link " + target + "}";
    var s := link + post;
    LinkOpenOf(s);
    var t := s[7..];
    assert t == target + ("}" + post);
    RunLenOf(target, "}" + post, {'|', '}', '#'});
    RunLenOf(target, "}" + post, {'|', '}'});
    RunLenOf(target, "}" + post, {'}'});
  }

  /** `{@link T}` inside plain text reads "T". */
  lemma PlainLinkForm(pre: string, target: string, post: string)
    requires '{' !in pre && '{' !in post && '{' !in target
    requires target != [] && forall k :: 0 <= k < |target| ==> target[k] !in {'|', '}', '#'}
    ensures ReplaceLinks(Some(pre + "{@link " + target + "}" + post)) == Some(pre + target + post)
  {
    var link := "{@link " + target + "}";
    var s := link + post;
    assert pre + "{@link " + target + "}" + post == pre + s by {
      CatAssoc(pre, link, post);
    }
    assert ReplaceHashLinks(pre + s) == pre + s by {
      PlainMatch(target, post);
      assert "}"[0] != '{';
      NotInCat('{', target, "}");
      assert link == "{@link " + (target + "}") by {
        CatAssoc("{@link ", target, "}");
      }
      LinkTailNoBrace(link, target + "}", post);
      HashPassPlain(s);
      PlainPrefix(pre, s);
    }
    assert ReplacePipeLinks(pre + s) == pre + target + post by {
      PlainMatch(target, post);
      assert s[|target| + 8..] == post;
      PipePassMatch(s, target, |target| + 8);
      PlainPrefix(pre, s);
      CatAssoc(pre, target, post);
    }
  }
}
