/** The documentation-comment records the generator reads (one per JSDoc
    block, as the jsdoc-parse collaborator emits them), the per-class
    `model` record, the errors the generator can throw, and the lookups
    over records and their custom tags: `defaultValue`, `eq`, `getTag`
    and `findClassProp`. These helpers are the same text in
    generateSchema.js and main.js. */
module Comments {
  import opened Outcomes
  import opened JsText
  import opened Json

  /** A custom `@tag value` of a comment (`customTags[i]`). */
  datatype Tag = Tag(tag: string, value: string)

  /** One JSDoc record: `kind`, `name`, `memberof`, `meta.lineno`,
      `type.names` (absent when the block has no type), `description`
      and `customTags`. */
  datatype Comment = Comment(
    kind: string,
    name: string,
    memberof: Option<string>,
    lineno: int,
    typeNames: Option<seq<string>>,
    description: Option<string>,
    customTags: seq<Tag>)

  /** A member record after the property scan has replaced its `type`
      with the plain list of type names it will be judged by. */
  datatype Prop = Prop(doc: Comment, types: seq<string>)

  /** What the generator knows of one class before reading its comments:
      the file's base name, the parent and line found by the hierarchy
      scan, and the `type` / `typeName` values found in its source. */
  datatype ClassModel = ClassModel(
    name: string,
    parent: Option<string>,
    inheritsLine: int,
    typeId: Option<string>,
    typeName: Option<string>)

  /** What the generator throws, explicitly or as a TypeError or RangeError. */
  datatype Failure =
    | NoClassComment(modelName: string)
    | ParentUndefined(modelName: string)
    | EmptyPropertyName
    | MissingDescription(propName: string)
    | NotAnArrayType(key: string)
    | NoAncestorList(modelName: string)
    | NoInheritsLine(filename: string)
    | InvalidArrayLength(modelName: string)

  /** `defaultValue(x, y, z)`: the first of the three that is defined. */
  function DefaultValue<T>(x: Option<T>, y: Option<T>, z: Option<T>): (r: Option<T>)
    ensures r.Some? <==> x.Some? || y.Some? || z.Some?
    ensures r == x || r == y || r == z
    ensures x.Some? ==> r == x
    ensures x.None? && y.Some? ==> r == y
  {
    if x.Some? then x else if y.Some? then y else z
  }

  /** The value reached from `x` by reading the properties of `path` in
      turn; once a read gives `undefined` it stays `undefined`. */
  function Walk(x: Json, path: seq<string>): Json
    decreases |path|
  {
    if path == [] then x else Walk(Member(x, path[0]), path[1..])
  }

  lemma {:induction false} WalkUndef(path: seq<string>)
    ensures Walk(JUndef, path) == JUndef
    decreases |path|
  {
    if path != [] {
      WalkUndef(path[1..]);
    }
  }

  /** `eq(field, value)(x)`: following the dotted `field` from `x` reaches
      exactly the string `value`. */
  method Eq(field: string, value: string, x: Json) returns (b: bool)
    ensures b <==> Walk(x, Split(field, '.')) == JStr(value)
  {
    var parts := Split(field, '.');
    var y := x;
    while |parts| > 1 && y != JUndef
      invariant |parts| >= 1
      invariant Walk(x, Split(field, '.')) == Walk(y, parts)
      decreases |parts|
    {
      y := Member(y, parts[0]);
      parts := parts[1..];
    }
    if y == JUndef {
      WalkUndef(parts);
      return false;
    }
    assert Walk(y, parts) == Walk(Member(y, parts[0]), []);
    b := Member(y, parts[0]) == JStr(value);
  }

  lemma {:induction false} CountCharAbsent(s: string, c: char)
    requires c !in s
    ensures CountChar(s, c) == 0
    decreases |s|
  {
    if s != [] {
      assert c !in s[1..];
      CountCharAbsent(s[1..], c);
    }
  }

  /** A dotted field names a path of properties: `eq('a.b', v)(x)` holds
      exactly when `x.a.b === v`, and `eq('kind', v)(x)` when
      `x.kind === v`. */
  lemma EqFollowsPath(parts: seq<string>, value: string, x: Json)
    requires parts != []
    requires forall i :: 0 <= i < |parts| ==> '.' !in parts[i]
    ensures Walk(x, Split(Join(parts, '.'), '.')) == JStr(value)
        <==> Walk(x, parts) == JStr(value)
    ensures |parts| == 1 ==>
      ((Walk(x, Split(parts[0], '.')) == JStr(value))
       <==> (x.JObj? && Lookup(x.members, parts[0]) == Some(JStr(value))))
  {
    SplitJoin(parts, '.');
    if |parts| == 1 {
      assert Walk(x, parts) == Member(x, parts[0]);
    }
  }

  /** The members of a record that `eq` is asked about, `kind` and
      `name`, as the JavaScript object holds them. */
  function RecordJson(c: Comment): Json {
    JObj([("kind", JStr(c.kind)), ("name", JStr(c.name))])
  }

  /** A custom tag as the JavaScript object holds it. */
  function TagJson(t: Tag): Json {
    JObj([("tag", JStr(t.tag)), ("value", JStr(t.value))])
  }

  /** The typed field tests stand for `eq` on a one-segment path:
      `eq('kind', v)` (the class record, in `FirstClass`) holds exactly
      when `kind == v`, `eq('name', v)` (in `Named`) when `name == v`,
      and `eq('tag', v)` on a custom tag (in `GetTag`) when `tag == v`. */
  lemma EqOnRecords(c: Comment, t: Tag, v: string)
    ensures Walk(RecordJson(c), Split("kind", '.')) == JStr(v) <==> c.kind == v
    ensures Walk(RecordJson(c), Split("name", '.')) == JStr(v) <==> c.name == v
    ensures Walk(TagJson(t), Split("tag", '.')) == JStr(v) <==> t.tag == v
  {
    EqFollowsPath(["kind"], v, RecordJson(c));
    EqFollowsPath(["name"], v, RecordJson(c));
    EqFollowsPath(["tag"], v, TagJson(t));
  }

  /** `getTag(item, tag)` */
  function GetTag(tags: seq<Tag>, name: string): Option<string> {
    if tags == [] then None
    else if tags[0].tag == name then Some(tags[0].value)
    else GetTag(tags[1..], name)
  }

  /** A tag's value is that of the FIRST custom tag with that name, and
      `undefined` when there is none. */
  lemma {:induction false} GetTagSpec(tags: seq<Tag>, name: string)
    ensures GetTag(tags, name).None? <==> forall i :: 0 <= i < |tags| ==> tags[i].tag != name
    ensures GetTag(tags, name).Some? ==>
      exists i :: 0 <= i < |tags| && tags[i] == Tag(name, GetTag(tags, name).value)
                  && forall j :: 0 <= j < i ==> tags[j].tag != name
    decreases |tags|
  {
    if tags != [] && tags[0].tag != name {
      var r := GetTag(tags[1..], name);
      GetTagSpec(tags[1..], name);
      if r.Some? {
        var i :| 0 <= i < |tags[1..]| && tags[1..][i] == Tag(name, r.value)
                 && forall j :: 0 <= j < i ==> tags[1..][j].tag != name;
        assert tags[i + 1] == Tag(name, r.value);
        assert forall j :: 0 <= j < i + 1 ==> tags[j].tag != name by {
          forall j | 0 <= j < i + 1 ensures tags[j].tag != name {
            if j > 0 {
              assert tags[j] == tags[1..][j - 1];
            }
          }
        }
      } else {
        forall i | 0 <= i < |tags| ensures tags[i].tag != name {
          if i > 0 {
            assert tags[i] == tags[1..][i - 1];
          }
        }
      }
    }
  }

  /** What one record contributes to `findClassProp`: its custom tag,
      else its `description` when that is the fallback field. */
  function TagOrField(x: Comment, customTag: string, useDescription: bool): Option<string> {
    match GetTag(x.customTags, customTag)
    case Some(v) => Some(v)
    case None => if useDescription then x.description else None
  }

  /** `comments.filter(eq('name', className))` */
  function Named(comments: seq<Comment>, className: string): seq<Comment> {
    if comments == [] then []
    else (if comments[0].name == className then [comments[0]] else [])
         + Named(comments[1..], className)
  }

  /** The `reduce` of `findClassProp`, from the accumulated value `acc`. */
  function ReduceClassProp(xs: seq<Comment>, customTag: string, useDescription: bool,
                           acc: Option<string>): Option<string>
    decreases |xs|
  {
    if xs == [] then acc
    else ReduceClassProp(xs[1..], customTag, useDescription,
                         DefaultValue(TagOrField(xs[0], customTag, useDescription), acc, None))
  }

  /** `findClassProp(comments, className, customTag, fallbackProp)`, where
      `useDescription` says whether `fallbackProp` is `'description'`. */
  function FindClassProp(comments: seq<Comment>, className: string, customTag: string,
                         useDescription: bool): Option<string>
  {
    ReduceClassProp(Named(comments, className), customTag, useDescription, None)
  }

  /** What each record contributes to `findClassProp`: nothing unless it
      is named after the class. */
  function Contributions(comments: seq<Comment>, className: string, customTag: string,
                         useDescription: bool): (cs: seq<Option<string>>)
    ensures |cs| == |comments|
  {
    seq(|comments|, i requires 0 <= i < |comments| =>
      if comments[i].name == className then TagOrField(comments[i], customTag, useDescription)
      else None)
  }

  /** A left fold that keeps the latest defined value. */
  function LatestDefined(cs: seq<Option<string>>, acc: Option<string>): Option<string>
    decreases |cs|
  {
    if cs == [] then acc else LatestDefined(cs[1..], if cs[0].Some? then cs[0] else acc)
  }

  lemma {:induction false} LatestDefinedSpec(cs: seq<Option<string>>, acc: Option<string>)
    ensures var r := LatestDefined(cs, acc);
      && ((forall i :: 0 <= i < |cs| ==> cs[i].None?) ==> r == acc)
      && ((exists i :: 0 <= i < |cs| && cs[i].Some?) ==>
            exists i :: 0 <= i < |cs| && cs[i].Some? && cs[i] == r
                        && forall j :: i < j < |cs| ==> cs[j].None?)
    decreases |cs|
  {
    if cs != [] {
      var acc' := if cs[0].Some? then cs[0] else acc;
      LatestDefinedSpec(cs[1..], acc');
      var r := LatestDefined(cs, acc);
      if exists i :: 0 <= i < |cs[1..]| && cs[1..][i].Some? {
        var i :| 0 <= i < |cs[1..]| && cs[1..][i].Some? && cs[1..][i] == r
                 && forall j :: i < j < |cs[1..]| ==> cs[1..][j].None?;
        assert cs[i + 1] == r;
        forall j | i + 1 < j < |cs| ensures cs[j].None? {
          assert cs[1..][j - 1].None?;
        }
      } else {
        forall j | 0 < j < |cs| ensures cs[j].None? {
          assert cs[1..][j - 1].None?;
        }
      }
    }
  }

  lemma {:induction false} ReduceNamed(comments: seq<Comment>, className: string, customTag: string,
                                       useDescription: bool, acc: Option<string>)
    ensures ReduceClassProp(Named(comments, className), customTag, useDescription, acc)
         == LatestDefined(Contributions(comments, className, customTag, useDescription), acc)
    decreases |comments|
  {
    if comments != [] {
      var c, cs := comments[0], comments[1..];
      var all := Contributions(comments, className, customTag, useDescription);
      assert all[1..] == Contributions(cs, className, customTag, useDescription);
      var acc' := if all[0].Some? then all[0] else acc;
      ReduceNamed(cs, className, customTag, useDescription, acc');
      var named := Named(comments, className);
      if c.name == className {
        assert named[0] == c && named[1..] == Named(cs, className);
      } else {
        assert named == Named(cs, className);
      }
    }
  }

  /** `findClassProp` looks at every record named after the class,
      whatever its kind, and keeps the LAST value defined among them (a
      record's custom tag, else its fallback field); it is `undefined`
      only when no such record defines one. */
  lemma FindClassPropIsLastDefined(comments: seq<Comment>, className: string, customTag: string,
                                   useDescription: bool)
    ensures var r := FindClassProp(comments, className, customTag, useDescription);
      var cs := Contributions(comments, className, customTag, useDescription);
      && (r.None? <==> forall i :: 0 <= i < |comments| ==> cs[i].None?)
      && (r.Some? ==>
            exists i :: 0 <= i < |comments| && comments[i].name == className
              && TagOrField(comments[i], customTag, useDescription) == r
              && forall j :: i < j < |comments| ==> cs[j].None?)
  {
    var cs := Contributions(comments, className, customTag, useDescription);
    ReduceNamed(comments, className, customTag, useDescription, None);
    LatestDefinedSpec(cs, None);
    var r := FindClassProp(comments, className, customTag, useDescription);
    if r.Some? {
      var i :| 0 <= i < |cs| && cs[i] == r && forall j :: i < j < |cs| ==> cs[j].None?;
      assert comments[i].name == className;
      assert TagOrField(comments[i], customTag, useDescription) == r;
    } else {
      assert forall i :: 0 <= i < |comments| ==> cs[i].None?;
    }
  }
}
