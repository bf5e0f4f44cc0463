/** `getClassProps`: the member records a class documents itself, above
    its `inherit` line, with their type lists resolved (the `Rectangle`
    special case and the `@editortype` override) and kept only when the
    editor can show them. The source writes the resolved list back into
    each record's `type`; here the resolved list travels beside the
    record in a `Prop`. */
module ClassProps {
  import opened Outcomes
  import opened JsText
  import opened Comments
  import opened TypeNames

  /** The first filter: a member of the class, documented above the line
      where the class declares its parent. */
  predicate Selected(x: Comment, className: string, inheritsLine: int) {
    x.kind == "member" && x.memberof == Some(className) && x.lineno < inheritsLine
  }

  /** The `map` step: the JSDoc type names (none when the record has no
      type), a leading `Rectangle` read as a pair of arrays, and an
      `@editortype` tag replacing all of it. */
  function ResolvedTypes(x: Comment): seq<string> {
    var names := if x.typeNames.Some? then x.typeNames.value else [];
    var names' := if |names| > 0 && names[0] == "Rectangle"
                  then ["Array.<Number>", "Array.<String>"] else names;
    match GetTag(x.customTags, "editortype")
    case Some(t) => FromEditorTypes(t)
    case None => names'
  }

  function Resolve(x: Comment): Prop {
    Prop(x, ResolvedTypes(x))
  }

  /** `types.some(supportedType)` */
  predicate AnySupported(types: seq<string>) {
    exists i :: 0 <= i < |types| && SupportedType(types[i])
  }

  /** The last filter, `getTag(x, 'editortype', x.type.some(supportedType))`
      read as a truth value: a tag's text counts when it is not empty. */
  predicate Survives(p: Prop) {
    match GetTag(p.doc.customTags, "editortype")
    case Some(t) => t != ""
    case None => AnySupported(p.types)
  }

  function SelectMembers(comments: seq<Comment>, className: string, inheritsLine: int): seq<Comment> {
    if comments == [] then []
    else (if Selected(comments[0], className, inheritsLine) then [comments[0]] else [])
         + SelectMembers(comments[1..], className, inheritsLine)
  }

  function ResolveAll(xs: seq<Comment>): (ps: seq<Prop>)
    ensures |ps| == |xs|
    ensures forall i :: 0 <= i < |xs| ==> ps[i] == Resolve(xs[i])
  {
    seq(|xs|, i requires 0 <= i < |xs| => Resolve(xs[i]))
  }

  function KeepEditable(ps: seq<Prop>): seq<Prop> {
    if ps == [] then []
    else (if Survives(ps[0]) then [ps[0]] else []) + KeepEditable(ps[1..])
  }

  /** `getClassProps(comments, className, inheritsLine)` */
  function GetClassProps(comments: seq<Comment>, className: string, inheritsLine: int): seq<Prop> {
    KeepEditable(ResolveAll(SelectMembers(comments, className, inheritsLine)))
  }

  /** What one record yields on its own: itself, resolved, exactly when
      it is selected and survives. */
  function OwnProp(x: Comment, className: string, inheritsLine: int): seq<Prop> {
    if Selected(x, className, inheritsLine) && Survives(Resolve(x)) then [Resolve(x)] else []
  }

  lemma {:induction false} SelectConcat(a: seq<Comment>, b: seq<Comment>, className: string, inheritsLine: int)
    ensures SelectMembers(a + b, className, inheritsLine)
         == SelectMembers(a, className, inheritsLine) + SelectMembers(b, className, inheritsLine)
    decreases |a|
  {
    if a != [] {
      assert (a + b)[1..] == a[1..] + b;
      SelectConcat(a[1..], b, className, inheritsLine);
    } else {
      assert a + b == b;
    }
  }

  lemma {:induction false} KeepConcat(a: seq<Prop>, b: seq<Prop>)
    ensures KeepEditable(a + b) == KeepEditable(a) + KeepEditable(b)
    decreases |a|
  {
    if a != [] {
      assert (a + b)[1..] == a[1..] + b;
      KeepConcat(a[1..], b);
    } else {
      assert a + b == b;
    }
  }

  /** The selection works record by record and keeps the input order:
      the result for a concatenation is the concatenation of the results,
      and a single record yields itself, resolved, exactly when it is a
      member of the class above the inherit line that survives the last
      filter. */
  lemma GetClassPropsConcat(a: seq<Comment>, b: seq<Comment>, className: string, inheritsLine: int)
    ensures GetClassProps(a + b, className, inheritsLine)
         == GetClassProps(a, className, inheritsLine) + GetClassProps(b, className, inheritsLine)
  {
    SelectConcat(a, b, className, inheritsLine);
    var sa, sb := SelectMembers(a, className, inheritsLine), SelectMembers(b, className, inheritsLine);
    assert ResolveAll(sa + sb) == ResolveAll(sa) + ResolveAll(sb);
    KeepConcat(ResolveAll(sa), ResolveAll(sb));
  }

  lemma GetClassPropsSingle(x: Comment, className: string, inheritsLine: int)
    ensures GetClassProps([x], className, inheritsLine) == OwnProp(x, className, inheritsLine)
  {
    assert [x][1..] == [];
    var sel := SelectMembers([x], className, inheritsLine);
    assert sel == (if Selected(x, className, inheritsLine) then [x] else []) + SelectMembers([], className, inheritsLine);
    if Selected(x, className, inheritsLine) {
      assert sel == [x];
      var ps := ResolveAll(sel);
      assert ps == [Resolve(x)];
      assert ps[1..] == [];
      assert KeepEditable(ps) == (if Survives(Resolve(x)) then [Resolve(x)] else []) + KeepEditable([]);
    } else {
      assert sel == [];
      assert ResolveAll(sel) == [];
    }
  }

  /** Every returned record comes from a selected record of the input,
      resolved, and survives; every selected record that survives is
      returned. */
  lemma {:induction false} GetClassPropsMembers(comments: seq<Comment>, className: string, inheritsLine: int, p: Prop)
    ensures p in GetClassProps(comments, className, inheritsLine) <==>
      exists i :: 0 <= i < |comments| && Selected(comments[i], className, inheritsLine)
                  && p == Resolve(comments[i]) && Survives(p)
    decreases |comments|
  {
    if comments != [] {
      var x, rest := comments[0], comments[1..];
      assert comments == [x] + rest;
      GetClassPropsConcat([x], rest, className, inheritsLine);
      GetClassPropsSingle(x, className, inheritsLine);
      GetClassPropsMembers(rest, className, inheritsLine, p);
      if exists i :: 0 <= i < |comments| && Selected(comments[i], className, inheritsLine)
                     && p == Resolve(comments[i]) && Survives(p) {
        var i :| 0 <= i < |comments| && Selected(comments[i], className, inheritsLine)
                 && p == Resolve(comments[i]) && Survives(p);
        if i > 0 {
          assert rest[i - 1] == comments[i];
        }
      }
      if p in GetClassProps(rest, className, inheritsLine) {
        var i :| 0 <= i < |rest| && Selected(rest[i], className, inheritsLine)
                 && p == Resolve(rest[i]) && Survives(p);
        assert comments[i + 1] == rest[i];
      }
    }
  }

  /** The type rules of the map and the last filter:
      - an `@editortype` tag decides alone: its type list replaces the
        JSDoc one, and the record is kept exactly when the tag's text is
        not empty, whatever the types;
      - without the tag, a `Rectangle` property is edited as a list of
        numbers and strings, and kept;
      - without the tag, a record with no JSDoc type is dropped. */
  lemma TypeRules(x: Comment)
    ensures GetTag(x.customTags, "editortype").Some? ==>
      var t := GetTag(x.customTags, "editortype").value;
      Resolve(x).types == FromEditorTypes(t) && (Survives(Resolve(x)) <==> t != "")
    ensures GetTag(x.customTags, "editortype").None? && x.typeNames.Some?
            && |x.typeNames.value| > 0 && x.typeNames.value[0] == "Rectangle" ==>
      Resolve(x).types == ["Array.<Number>", "Array.<String>"] && Survives(Resolve(x))
    ensures GetTag(x.customTags, "editortype").None? && x.typeNames.None? ==>
      !Survives(Resolve(x))
  {
    if GetTag(x.customTags, "editortype").None? && x.typeNames.Some?
       && |x.typeNames.value| > 0 && x.typeNames.value[0] == "Rectangle" {
      assert SupportedType("Array.<Number>") by {
        ArrayOfForm(Lower("Array.<Number>"), "number");
      }
      assert Resolve(x).types[0] == "Array.<Number>";
    }
  }
}
