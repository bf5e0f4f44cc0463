/** `titleify`: a camelCase property name turned into a human title, with
    the known abbreviations written in capitals (generateSchema.js and
    main.js hold the same function). */
module Titles {
  import opened Outcomes
  import opened JsText
  import opened Comments

  /** What the loop appends for one character after the first: a capital
      becomes a space and its lower-case letter. */
  function Piece(c: char): string {
    if IsUpper(c) then [' ', ToLower(c)] else [c]
  }

  /** The loop's output for the characters after the first. */
  function Spacing(t: string): string
    decreases |t|
  {
    if t == [] then [] else Piece(t[0]) + Spacing(t[1..])
  }

  /** The accumulator `s` once the loop has finished. */
  function Spaced(n: string): string
    requires n != []
  {
    [ToUpper(n[0])] + Spacing(n[1..])
  }

  /** The words the case-insensitive abbreviation expression accepts, in
      lower case. */
  const Abbreviations: set<string> :=
    {"wms", "url", "kml", "csv", "json", "id", "gpx", "czml", "wfs", "wmts", "geojson", "ckan"}

  /** One word of the split title: upper-cased when the whole word is an
      abbreviation. */
  function AbbrevWord(w: string): string {
    if Lower(w) in Abbreviations then Upper(w) else w
  }

  function AbbrevWords(ws: seq<string>): (r: seq<string>)
    ensures |r| == |ws|
    ensures forall i :: 0 <= i < |ws| ==> r[i] == AbbrevWord(ws[i])
  {
    seq(|ws|, i requires 0 <= i < |ws| => AbbrevWord(ws[i]))
  }

  /** `s.split(' ').map(...).join(' ')` */
  function UpperAbbrevs(s: string): string {
    Join(AbbrevWords(Split(s, ' ')), ' ')
  }

  /** The title of a non-empty property name. */
  function TitleOf(n: string): string
    requires n != []
  {
    UpperAbbrevs(Spaced(n))
  }

  lemma {:induction false} SpacingSnoc(t: string, c: char)
    ensures Spacing(t + [c]) == Spacing(t) + Piece(c)
    decreases |t|
  {
    if t == [] {
      assert [c][1..] == [];
    } else {
      assert (t + [c])[1..] == t[1..] + [c];
      SpacingSnoc(t[1..], c);
    }
  }

  /** `titleify(propName)`. Reading `propName[0]` of the empty name gives
      `undefined`, whose `toUpperCase` throws. */
  method Titleify(propName: string) returns (r: Result<string, Failure>)
    ensures propName == [] <==> r.Err?
    ensures r.Err? ==> r.error == EmptyPropertyName
    ensures r.Ok? ==> r.value == TitleOf(propName)
  {
    if propName == [] {
      return Err(EmptyPropertyName);
    }
    var s := [ToUpper(propName[0])];
    for i := 1 to |propName|
      invariant s == [ToUpper(propName[0])] + Spacing(propName[1..i])
    {
      assert propName[1..i + 1] == propName[1..i] + [propName[i]];
      SpacingSnoc(propName[1..i], propName[i]);
      if IsUpper(propName[i]) {
        s := s + [' ', ToLower(propName[i])];
      } else {
        s := s + [propName[i]];
      }
    }
    assert propName[1..|propName|] == propName[1..];
    return Ok(UpperAbbrevs(s));
  }

  /** Number of capitals A-Z in `t`. */
  function CountUpper(t: string): nat
    decreases |t|
  {
    if t == [] then 0 else (if IsUpper(t[0]) then 1 else 0) + CountUpper(t[1..])
  }

  /** The spacing step inserts exactly one character per capital and leaves
      no capital behind. */
  lemma {:induction false} SpacingShape(t: string)
    ensures |Spacing(t)| == |t| + CountUpper(t)
    ensures forall i :: 0 <= i < |Spacing(t)| ==> !IsUpper(Spacing(t)[i])
    decreases |t|
  {
    if t != [] {
      SpacingShape(t[1..]);
      var p, rest := Piece(t[0]), Spacing(t[1..]);
      forall i | 0 <= i < |p + rest| ensures !IsUpper((p + rest)[i]) {
        if i >= |p| {
          assert (p + rest)[i] == rest[i - |p|];
        }
      }
    }
  }

  /** The inverse of the spacing step on names without spaces: a space
      followed by a letter stands for that letter in capitals. */
  function Decamel(s: string): string
    decreases |s|
  {
    if s == [] then []
    else if s[0] == ' ' && |s| >= 2 then [ToUpper(s[1])] + Decamel(s[2..])
    else [s[0]] + Decamel(s[1..])
  }

  lemma {:induction false} DecamelSpacing(t: string)
    requires ' ' !in t
    ensures Decamel(Spacing(t)) == t
    decreases |t|
  {
    if t != [] {
      assert ' ' !in t[1..];
      DecamelSpacing(t[1..]);
      var rest := Spacing(t[1..]);
      if IsUpper(t[0]) {
        var s := [' ', ToLower(t[0])] + rest;
        assert s[0] == ' ' && s[1] == ToLower(t[0]) && s[2..] == rest;
        CaseRoundTrips(t[0]);
      } else {
        var s := [t[0]] + rest;
        assert s[1..] == rest;
      }
      assert t == [t[0]] + t[1..];
    }
  }

  /** The abbreviation step only ever raises letters to capitals. */
  ghost predicate RaisedFrom(a: string, b: string) {
    |a| == |b| && forall i :: 0 <= i < |a| ==> a[i] == b[i] || a[i] == ToUpper(b[i])
  }

  lemma RaisedAppend(a: string, b: string, c: string, d: string)
    requires RaisedFrom(a, b) && RaisedFrom(c, d)
    ensures RaisedFrom(a + c, b + d)
  {
    var x, y := a + c, b + d;
    forall i | 0 <= i < |x| ensures x[i] == y[i] || x[i] == ToUpper(y[i]) {
      if i < |a| {
        assert x[i] == a[i] && y[i] == b[i];
      } else {
        assert x[i] == c[i - |a|] && y[i] == d[i - |a|];
      }
    }
  }

  lemma {:induction false} JoinRaised(xs: seq<string>, ys: seq<string>)
    requires |xs| == |ys|
    requires forall i :: 0 <= i < |xs| ==> RaisedFrom(xs[i], ys[i])
    ensures RaisedFrom(Join(xs, ' '), Join(ys, ' '))
    decreases |xs|
  {
    if |xs| > 1 {
      JoinRaised(xs[1..], ys[1..]);
      assert RaisedFrom(xs[0], ys[0]);
      RaisedAppend(xs[0], ys[0], " ", " ");
      RaisedAppend(xs[0] + " ", ys[0] + " ", Join(xs[1..], ' '), Join(ys[1..], ' '));
    } else if |xs| == 1 {
      assert RaisedFrom(xs[0], ys[0]);
    }
  }

  lemma UpperAbbrevsRaises(s: string)
    ensures RaisedFrom(UpperAbbrevs(s), s)
  {
    var ws := Split(s, ' ');
    forall i | 0 <= i < |ws| ensures RaisedFrom(AbbrevWords(ws)[i], ws[i]) {
    }
    JoinRaised(AbbrevWords(ws), ws);
    JoinSplit(s, ' ');
  }

  /** The title of a name: its first character in capitals, as many
      characters as the name has plus one per later capital, and, letter
      case aside, the name with a space before each later capital, which
      reads back as the name. */
  lemma TitleShape(n: string)
    requires n != []
    ensures var t := TitleOf(n);
      && |t| == |n| + CountUpper(n[1..])
      && t[0] == ToUpper(n[0])
      && RaisedFrom(t, Spaced(n))
      && (' ' !in n ==> Decamel(Spacing(n[1..])) == n[1..])
  {
    SpacingShape(n[1..]);
    UpperAbbrevsRaises(Spaced(n));
    var t := TitleOf(n);
    assert t[0] == Spaced(n)[0] || t[0] == ToUpper(Spaced(n)[0]);
    if ' ' !in n {
      assert ' ' !in n[1..];
      DecamelSpacing(n[1..]);
    }
  }

  /** Whole words that are abbreviations come out in capitals, and every
      other word as the spacing step left it. */
  lemma TitleWords(n: string)
    requires n != []
    ensures Split(TitleOf(n), ' ') == AbbrevWords(Split(Spaced(n), ' '))
    ensures forall i :: 0 <= i < |Split(Spaced(n), ' ')| ==>
      var w := Split(Spaced(n), ' ')[i];
      Split(TitleOf(n), ' ')[i] == if Lower(w) in Abbreviations then Upper(w) else w
  {
    var ws := Split(Spaced(n), ' ');
    var us := AbbrevWords(ws);
    forall i | 0 <= i < |us| ensures ' ' !in us[i] {
      assert ' ' !in ws[i];
      if Lower(ws[i]) in Abbreviations {
        assert forall k :: 0 <= k < |ws[i]| ==> us[i][k] == ToUpper(ws[i][k]);
      }
    }
    SplitJoin(us, ' ');
  }

  /** Splitting a text written as a join of space-free words. */
  lemma SplitWords(s: string, ws: seq<string>)
    requires ws != [] && forall i :: 0 <= i < |ws| ==> ' ' !in ws[i]
    requires Join(ws, ' ') == s
    ensures Split(s, ' ') == ws
  {
    SplitJoin(ws, ' ');
  }

  lemma AbbrevWordsOf(ws: seq<string>, us: seq<string>)
    requires |ws| == |us|
    requires forall i :: 0 <= i < |ws| ==> AbbrevWord(ws[i]) == us[i]
    ensures AbbrevWords(ws) == us
  {
  }

  /** The title of a name, from the words its spacing step splits into. */
  lemma TitleFromWords(n: string, spaced: string, ws: seq<string>, us: seq<string>, t: string)
    requires n != [] && Spaced(n) == spaced
    requires Split(spaced, ' ') == ws && AbbrevWords(ws) == us && Join(us, ' ') == t
    ensures TitleOf(n) == t
  {
  }

  lemma SpacedWmsUrl()
    ensures Spaced("wmsUrl") == "Wms url"
  {
    assert Spacing("msUrl") == "ms url";
  }

  lemma WordsWmsUrl()
    ensures AbbrevWords(["Wms", "url"]) == ["WMS", "URL"]
  {
    assert Lower("Wms") == "wms" && Upper("Wms") == "WMS";
    assert Lower("url") == "url" && Upper("url") == "URL";
    AbbrevWordsOf(["Wms", "url"], ["WMS", "URL"]);
  }

  lemma SplitWmsUrl()
    ensures Split("Wms url", ' ') == ["Wms", "url"]
  {
    JoinCons("Wms", ["url"], "url");
    assert ["Wms", "url"] == ["Wms"] + ["url"];
    assert "Wms" + " " + "url" == "Wms url";
    SplitWords("Wms url", ["Wms", "url"]);
  }

  lemma JoinWmsUrl()
    ensures Join(["WMS", "URL"], ' ') == "WMS URL"
  {
    JoinCons("WMS", ["URL"], "URL");
    assert ["WMS", "URL"] == ["WMS"] + ["URL"];
    assert "WMS" + " " + "URL" == "WMS URL";
  }

  /** A short example: "wmsUrl" has the title "WMS URL". */
  lemma TitleExampleShort()
    ensures TitleOf("wmsUrl") == "WMS URL"
  {
    SpacedWmsUrl();
    SplitWmsUrl();
    WordsWmsUrl();
    JoinWmsUrl();
    TitleFromWords("wmsUrl", "Wms url", ["Wms", "url"], ["WMS", "URL"], "WMS URL");
  }

  lemma {:induction false} SpacingAppend(a: string, b: string)
    ensures Spacing(a + b) == Spacing(a) + Spacing(b)
    decreases |a|
  {
    if a != [] {
      assert (a + b)[1..] == a[1..] + b;
      SpacingAppend(a[1..], b);
    } else {
      assert a + b == b;
    }
  }

  lemma SpacedFrom(n: string, c: char, a: string, b: string, r: string)
    requires n == [c] + (a + b) && r == [ToUpper(c)] + (Spacing(a) + Spacing(b))
    ensures Spaced(n) == r
  {
    assert n[0] == c;
    assert n[1..] == a + b;
    SpacingAppend(a, b);
  }

  lemma SpacingYWms()
    ensures Spacing("yWms") == "y wms"
  {
  }

  lemma SpacingPropName()
    ensures Spacing("PropName") == " prop name"
  {
    assert "PropName" == "Prop" + "Name";
    SpacingAppend("Prop", "Name");
    SpacingProp();
    SpacingName();
  }

  lemma SpacingProp()
    ensures Spacing("Prop") == " prop"
  {
  }

  lemma SpacingName()
    ensures Spacing("Name") == " name"
  {
  }

  lemma SpacedMyWmsPropName()
    ensures Spaced("myWmsPropName") == "My wms prop name"
  {
    SpacingYWms();
    SpacingPropName();
    MyWmsPropNameParts();
    SpacedFrom("myWmsPropName", 'm', "yWms", "PropName", "My wms prop name");
  }

  lemma MyWmsPropNameParts()
    ensures "myWmsPropName" == ['m'] + ("yWms" + "PropName")
    ensures "My wms prop name" == [ToUpper('m')] + ("y wms" + " prop name")
  {
  }

  lemma WordsMyWmsPropName()
    ensures AbbrevWords(["My", "wms", "prop", "name"]) == ["My", "WMS", "prop", "name"]
  {
    assert Lower("My") == "my";
    assert Lower("wms") == "wms" && Upper("wms") == "WMS";
    assert Lower("prop") == "prop";
    assert Lower("name") == "name";
    AbbrevWordsOf(["My", "wms", "prop", "name"], ["My", "WMS", "prop", "name"]);
  }

  lemma {:induction false} JoinCons(w: string, ws: seq<string>, t: string)
    requires ws != [] && Join(ws, ' ') == t
    ensures Join([w] + ws, ' ') == w + " " + t
  {
    assert ([w] + ws)[1..] == ws;
  }

  lemma JoinFourWords(a: string, b: string, c: string, d: string)
    ensures Join([a, b, c, d], ' ') == a + " " + b + " " + c + " " + d
  {
    JoinCons(c, [d], d);
    assert [c, d] == [c] + [d];
    JoinCons(b, [c, d], c + " " + d);
    assert [b, c, d] == [b] + [c, d];
    JoinCons(a, [b, c, d], b + " " + c + " " + d);
    assert [a, b, c, d] == [a] + [b, c, d];
  }

  lemma SplitMyWmsPropName()
    ensures Split("My wms prop name", ' ') == ["My", "wms", "prop", "name"]
  {
    JoinFourWords("My", "wms", "prop", "name");
    assert "My" + " " + "wms" + " " + "prop" + " " + "name" == "My wms prop name";
    SplitWords("My wms prop name", ["My", "wms", "prop", "name"]);
  }

  lemma JoinMyWmsPropName()
    ensures Join(["My", "WMS", "prop", "name"], ' ') == "My WMS prop name"
  {
    JoinFourWords("My", "WMS", "prop", "name");
    assert "My" + " " + "WMS" + " " + "prop" + " " + "name" == "My WMS prop name";
  }

  /** The example of the source's own comment: "myWmsPropName" has the
      title "My WMS prop name". */
  lemma TitleExampleLong()
    ensures TitleOf("myWmsPropName") == "My WMS prop name"
  {
    var ws := ["My", "wms", "prop", "name"];
    SpacedMyWmsPropName();
    SplitMyWmsPropName();
    JoinMyWmsPropName();
    WordsMyWmsPropName();
    TitleFromWords("myWmsPropName", "My wms prop name", ws, ["My", "WMS", "prop", "name"],
                   "My WMS prop name");
  }

  /** A title run through `titleify` again is not kept: every later
      capital of "WMS URL" gets a space of its own, so the second title is
      five characters longer than the first. */
  lemma TitleNotIdempotent()
    ensures |TitleOf("WMS URL")| == 12
    ensures TitleOf(TitleOf("wmsUrl")) != TitleOf("wmsUrl")
  {
    TitleExampleShort();
    TitleLengthWmsUrl();
  }

  lemma TitleLengthWmsUrl()
    ensures |TitleOf("WMS URL")| == 12
  {
    TitleShape("WMS URL");
    assert "WMS URL"[1..] == "MS URL";
    CountUpperMsUrl();
  }

  lemma CountUpperMsUrl()
    ensures CountUpper("MS URL") == 5
  {
  }
}
