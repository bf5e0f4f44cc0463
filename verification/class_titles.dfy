/** The class-level title fallback: the class name with its `Catalog…`
    tail cut off. generateSchema.js spares a `Catalog` followed by
    `Member` (the expression `Catalog(?!Member).*`); main.js cuts at the first
    `Catalog` whatever follows (`Catalog.*`). */
module ClassTitles {
  import opened Outcomes
  import opened JsText

  /** "Catalog" starts at `i`, and, when `exceptMember` holds, "Member"
      does not follow it (the negative lookahead). */
  predicate CatalogAt(s: string, i: nat, exceptMember: bool) {
    i <= |s| && StartsWith(s[i..], "Catalog")
    && !(exceptMember && StartsWith(s[i + 7..], "Member"))
  }

  /** The leftmost position at or after `from` where the expression can
      start. */
  function FirstCatalog(s: string, from: nat, exceptMember: bool): (r: Option<nat>)
    ensures r.Some? ==> from <= r.value && CatalogAt(s, r.value, exceptMember)
                        && forall j :: from <= j < r.value ==> !CatalogAt(s, j, exceptMember)
    ensures r.None? ==> forall j :: from <= j ==> !CatalogAt(s, j, exceptMember)
    decreases |s| - from
  {
    if from > |s| then None
    else if CatalogAt(s, from, exceptMember) then Some(from)
    else FirstCatalog(s, from + 1, exceptMember)
  }

  /** `className.replace` with `Catalog(?!Member).*` when `exceptMember`
      holds, the same with `Catalog.*` otherwise: the leftmost
      match, "Catalog" and the rest of its line, is removed. */
  function StripCatalog(s: string, exceptMember: bool): string {
    match FirstCatalog(s, 0, exceptMember)
    case None => s
    case Some(i) => s[..i] + s[i + 7 + |FirstLine(s[i + 7..])|..]
  }

  /** A name with no "Catalog" in it is its own title. */
  lemma NoCatalogKept(s: string, exceptMember: bool)
    requires !Contains(s, "Catalog")
    ensures StripCatalog(s, exceptMember) == s
  {
    forall j | 0 <= j <= |s| ensures !CatalogAt(s, j, exceptMember) {
      if CatalogAt(s, j, exceptMember) {
        ContainsAt(s, "Catalog", j);
      }
    }
  }

  /** A one-line name `a + "Catalog" + t`, with no earlier "Catalog", is
      cut down to `a` by either expression, unless the lookahead spares
      it: generateSchema.js keeps it when `t` starts with "Member". */
  lemma StripSuffix(a: string, t: string, exceptMember: bool)
    requires !Contains(a + "Catalo", "Catalog")
    requires forall k :: 0 <= k < |t| ==> !IsLineTerminator(t[k])
    requires !(exceptMember && StartsWith(t, "Member"))
    ensures StripCatalog(a + "Catalog" + t, exceptMember) == a
  {
    var s := a + "Catalog" + t;
    assert s[|a|..] == "Catalog" + t;
    assert s[|a| + 7..] == t;
    assert CatalogAt(s, |a|, exceptMember);
    NoCatalogBefore(a, t, exceptMember);
    FirstCatalogAt(s, 0, |a|, exceptMember);
    FirstLineAll(t);
    assert s[..|a|] == a;
  }

  /** No match starts inside `a` when `a + "Catalo"` holds no "Catalog". */
  lemma NoCatalogBefore(a: string, t: string, exceptMember: bool)
    requires !Contains(a + "Catalo", "Catalog")
    ensures forall j :: 0 <= j < |a| ==> !CatalogAt(a + "Catalog" + t, j, exceptMember)
  {
    var s := a + "Catalog" + t;
    forall j | 0 <= j < |a| ensures !CatalogAt(s, j, exceptMember) {
      if CatalogAt(s, j, exceptMember) {
        assert (a + "Catalo")[j..j + 7] == s[j..j + 7];
        ContainsAt(a + "Catalo", "Catalog", j);
      }
    }
  }

  lemma {:induction false} FirstCatalogAt(s: string, from: nat, i: nat, exceptMember: bool)
    requires from <= i && CatalogAt(s, i, exceptMember)
    requires forall j :: from <= j < i ==> !CatalogAt(s, j, exceptMember)
    ensures FirstCatalog(s, from, exceptMember) == Some(i)
    decreases i - from
  {
    if from < i {
      FirstCatalogAt(s, from + 1, i, exceptMember);
    }
  }

  lemma {:induction false} ShortNotContains(s: string, p: string)
    requires |s| < |p|
    ensures !Contains(s, p)
    decreases |s|
  {
    if s != [] {
      ShortNotContains(s[1..], p);
    }
  }

  /** The two expressions part ways on the root class: the lookahead
      leaves "CatalogMember" whole, the plain expression leaves nothing. */
  lemma RootClassTitles()
    ensures StripCatalog("CatalogMember", true) == "CatalogMember"
    ensures StripCatalog("CatalogMember", false) == ""
  {
    assert "CatalogMember" == "" + "Catalog" + "Member";
    assert !Contains("" + "Catalo", "Catalog") by {
      ShortNotContains("" + "Catalo", "Catalog");
    }
    StripSuffix("", "Member", false);
    RootSpared();
  }

  lemma RootSpared()
    ensures FirstCatalog("CatalogMember", 0, true).None?
  {
    var s := "CatalogMember";
    assert !CatalogAt(s, 0, true) by {
      assert s[7..] == "Member";
    }
    forall j | 1 <= j ensures !CatalogAt(s, j, true) {
      if j <= |s| && |s[j..]| >= 7 {
        assert s[j..][0] == s[j] != 'C';
      }
    }
    assert FirstCatalog(s, 0, true) == FirstCatalog(s, 1, true);
  }
}
