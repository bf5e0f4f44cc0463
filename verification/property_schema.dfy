/** The schema of one class property, as both generateSchema.js and
    main.js build it inside their `forEach` over the selected records:
    the schema type (`unarray` of the editor types of the supported
    names), `editorArrayItems` for arrays, the `format` default and its
    `@editorformat` override, the `options` of a text area, and
    `specialProps`. Also the fold that collects the properties of a
    class under their names. */
module PropertySchema {
  import opened Outcomes
  import opened JsText
  import opened Json
  import opened Comments
  import opened TypeNames

  // ---------------------------------------------------------------------
  // editorArrayItems

  /** The value `prop.type` holds when it indexes the item-type table: a
      single name, or (as every caller passes) the list of type names. */
  datatype TypeValue = TypeString(s: string) | TypeList(names: seq<string>)

  /** The property key a value turns into: a list is joined with commas,
      as `Array.prototype.toString` does. */
  function KeyOf(v: TypeValue): string {
    match v
    case TypeString(s) => s
    case TypeList(ns) => Join(ns, ',')
  }

  const ArrayTypeKeys: set<string> :=
    {"Array.<String>", "Array.<Number>", "Array.<GetFeatureInfoFormat>", "Array.<Object>", "Array"}

  /** The item-type table of `editorArrayItems`. */
  function ArrayItemType(key: string): (r: Option<string>)
    ensures r.Some? <==> key in ArrayTypeKeys
  {
    if key == "Array.<String>" then Some("string")
    else if key == "Array.<Number>" then Some("number")
    else if key == "Array.<GetFeatureInfoFormat>" then Some("enum")
    else if key == "Array.<Object>" then Some("object")
    else if key == "Array" then Some("string")
    else None
  }

  const FeatureInfoFormats: seq<string> := ["json", "xml", "html", "text"]

  /** `editorArrayItems(prop)`: the `items` schema of an array property.
      It throws for a key outside the table; the item type is the
      `@editoritemstype` tag or the table's entry; title and description
      come from their tags (undefined without them); the `enum` of output
      formats is added exactly when `prop.type` is the one name
      `Array.<GetFeatureInfoFormat>`. */
  function EditorArrayItems(propType: TypeValue, tags: seq<Tag>): (r: Result<Json, Failure>)
    ensures r.Ok? <==> KeyOf(propType) in ArrayTypeKeys
    ensures r.Err? ==> r.error == NotAnArrayType(KeyOf(propType))
    ensures r.Ok? ==> r.value.JObj?
  {
    match ArrayItemType(KeyOf(propType))
    case None => Err(NotAnArrayType(KeyOf(propType)))
    case Some(itemType) =>
      var items := ItemsBase(itemType, tags);
      Ok(JObj(if propType == TypeString("Array.<GetFeatureInfoFormat>")
              then Put(items, "enum", Strs(FeatureInfoFormats)) else items))
  }

  /** The `items` object literal of `editorArrayItems`. */
  function ItemsBase(itemType: string, tags: seq<Tag>): Members {
    [("type", JStr(GetTag(tags, "editoritemstype").GetOr(itemType))),
     ("title", OptStr(GetTag(tags, "editoritemstitle"))),
     ("description", OptStr(GetTag(tags, "editoritemsdescription")))]
  }

  /** The item type is the `@editoritemstype` tag or the table's entry;
      title and description come from their tags (undefined without
      them). */
  lemma ItemsRule(propType: TypeValue, tags: seq<Tag>)
    requires EditorArrayItems(propType, tags).Ok?
    ensures var items := EditorArrayItems(propType, tags).value;
      && Member(items, "type")
         == JStr(GetTag(tags, "editoritemstype").GetOr(ArrayItemType(KeyOf(propType)).value))
      && Member(items, "title") == OptStr(GetTag(tags, "editoritemstitle"))
      && Member(items, "description") == OptStr(GetTag(tags, "editoritemsdescription"))
  {
    var itemType := ArrayItemType(KeyOf(propType)).value;
    var items := ItemsBase(itemType, tags);
    var ty := JStr(GetTag(tags, "editoritemstype").GetOr(itemType));
    var ti := OptStr(GetTag(tags, "editoritemstitle"));
    var de := OptStr(GetTag(tags, "editoritemsdescription"));
    LookupTriple("type", "title", "description", ty, ti, de, "type");
    LookupTriple("type", "title", "description", ty, ti, de, "title");
    LookupTriple("type", "title", "description", ty, ti, de, "description");
    PutOther(items, "enum", Strs(FeatureInfoFormats), "type");
    PutOther(items, "enum", Strs(FeatureInfoFormats), "title");
    PutOther(items, "enum", Strs(FeatureInfoFormats), "description");
  }

  /** The `enum` of output formats is there exactly when `prop.type` is
      the one name `Array.<GetFeatureInfoFormat>`. */
  lemma ItemsEnum(propType: TypeValue, tags: seq<Tag>)
    requires EditorArrayItems(propType, tags).Ok?
    ensures Member(EditorArrayItems(propType, tags).value, "enum")
            == if propType == TypeString("Array.<GetFeatureInfoFormat>") then Strs(FeatureInfoFormats) else JUndef
  {
    var itemType := ArrayItemType(KeyOf(propType)).value;
    var items := ItemsBase(itemType, tags);
    LookupTriple("type", "title", "description", items[0].1, items[1].1, items[2].1, "enum");
  }

  /** The item schema lists its type, title and description first. */
  lemma ItemsOrder(propType: TypeValue, tags: seq<Tag>)
    requires EditorArrayItems(propType, tags).Ok?
    ensures var items := EditorArrayItems(propType, tags).value;
      && |items.members| >= 3 && items.members[0].0 == "type"
      && items.members[1].0 == "title" && items.members[2].0 == "description"
  {
    var itemType := ArrayItemType(KeyOf(propType)).value;
    PutKeepsPlaces(ItemsBase(itemType, tags), "enum", Strs(FeatureInfoFormats));
  }

  /** Called with the record's list of type names, as the property scan
      does, the lookup succeeds exactly for a one-name list naming a
      table entry (a list of two or more names turns into a key with a
      comma, which no entry has), and the `enum` is never added. */
  lemma ListItems(names: seq<string>, tags: seq<Tag>)
    ensures EditorArrayItems(TypeList(names), tags).Ok? <==> |names| == 1 && names[0] in ArrayTypeKeys
    ensures EditorArrayItems(TypeList(names), tags).Ok? ==>
      Member(EditorArrayItems(TypeList(names), tags).value, "enum") == JUndef
  {
    if |names| >= 2 {
      var key := Join(names, ',');
      assert key == names[0] + [','] + Join(names[1..], ',');
      assert key[|names[0]|] == ',';
      if key in ArrayTypeKeys {
        NoCommaKey(key);
        assert false;
      }
    }
    if EditorArrayItems(TypeList(names), tags).Ok? {
      ItemsEnum(TypeList(names), tags);
    }
  }

  lemma NoCommaKey(key: string)
    requires key in ArrayTypeKeys
    ensures ',' !in key
  {
    if key == "Array.<GetFeatureInfoFormat>" {
      assert key == "Array.<" + "GetFeatureInfoFormat" + ">";
    }
  }

  // ---------------------------------------------------------------------
  // The schema type of a property

  /** `types.filter(supportedType)` */
  function SupportedOnly(types: seq<string>): (r: seq<string>)
    ensures forall i :: 0 <= i < |r| ==> SupportedType(r[i])
    ensures forall t :: t in r <==> t in types && SupportedType(t)
    ensures |r| <= |types|
  {
    if types == [] then []
    else (if SupportedType(types[0]) then [types[0]] else []) + SupportedOnly(types[1..])
  }

  /** The filter keeps the input order: filtering a concatenation
      concatenates the filtered parts. */
  lemma {:induction false} SupportedOnlyConcat(a: seq<string>, b: seq<string>)
    ensures SupportedOnly(a + b) == SupportedOnly(a) + SupportedOnly(b)
    decreases |a|
  {
    if a != [] {
      assert (a + b)[1..] == a[1..] + b;
      SupportedOnlyConcat(a[1..], b);
    } else {
      assert a + b == b;
    }
  }

  /** `.map(editorType)` as JSON strings. */
  function EditorTypesOf(types: seq<string>): (r: seq<Json>)
    ensures |r| == |types|
    ensures forall i :: 0 <= i < |types| ==> r[i] == JStr(EditorType(types[i]))
  {
    seq(|types|, i requires 0 <= i < |types| => JStr(EditorType(types[i])))
  }

  /** `unarray(x.type.filter(supportedType).map(editorType))` */
  function SchemaType(types: seq<string>): Json {
    Unarray(EditorTypesOf(SupportedOnly(types)))
  }

  /** A property's schema type is one JSON-schema primitive, or a list of
      them (empty when only an `@editortype` tag kept the record). */
  lemma SchemaTypePrimitive(types: seq<string>)
    ensures forall j :: j in AsList(SchemaType(types)) ==> j.JStr? && j.s in SchemaPrimitives
    ensures !SchemaType(types).JArr? <==> |SupportedOnly(types)| == 1
  {
    var ss := SupportedOnly(types);
    var js := EditorTypesOf(ss);
    forall i | 0 <= i < |ss| ensures EditorType(ss[i]) in SchemaPrimitives {
      SupportedTypesAreSchemaTypes(ss[i]);
    }
    UnarrayRoundTrip(js);
  }

  // ---------------------------------------------------------------------
  // The property object before the special properties

  /** `getTag(x, tag, fallback)` for a tag whose text becomes a JSON
      string. */
  function TagOr(tags: seq<Tag>, name: string, fallback: Json): Json {
    match GetTag(tags, name)
    case Some(v) => JStr(v)
    case None => fallback
  }

  const ExpandHeight: Json := JObj([("expand_height", JBool(true))])

  /** The property object `p` after its `format` default: tabs and items
      for an array, a checkbox for a boolean, and a text area for a
      string whose `p.name` is "description" (`p` has no `name`, so that
      test reads undefined). */
  function WithDefaultFormat(x: Prop, p: Members, t: Json): Result<Members, Failure> {
    if t == JStr("array") then
      match EditorArrayItems(TypeList(x.types), x.doc.customTags)
      case Err(e) => Err(e)
      case Ok(items) => Ok(Put(Put(p, "format", JStr("tabs")), "items", items))
    else if t == JStr("boolean") then Ok(Put(p, "format", JStr("checkbox")))
    else if t == JStr("string") && Member(JObj(p), "name") == JStr("description") then
      Ok(Put(p, "format", JStr("textarea")))
    else Ok(p)
  }

  /** The object a property starts from. */
  function InitialProp(t: Json, title: string, description: string): Members {
    [("type", t), ("title", JStr(title)), ("description", JStr(description))]
  }

  /** `p.format = getTag(x, 'editorformat', p.format)` */
  function ApplyFormatTag(x: Prop, d: Members): Members {
    Put(d, "format", TagOr(x.doc.customTags, "editorformat", Member(JObj(d), "format")))
  }

  /** The text-area options. */
  function ApplyOptions(f: Members): Members {
    if Member(JObj(f), "format") == JStr("textarea") then Put(f, "options", ExpandHeight) else f
  }

  /** The property object for `x` with the given title and description,
      before `specialProps`. */
  function PropertyCore(x: Prop, title: string, description: string): Result<Members, Failure> {
    var t := SchemaType(x.types);
    match WithDefaultFormat(x, InitialProp(t, title, description), t)
    case Err(e) => Err(e)
    case Ok(defaulted) => Ok(ApplyOptions(ApplyFormatTag(x, defaulted)))
  }

  /** The statements of the `forEach` body that build `p`, in order. */
  method BuildProperty(x: Prop, title: string, description: string) returns (r: Result<Members, Failure>)
    ensures r == PropertyCore(x, title, description)
  {
    var t := SchemaType(x.types);
    var p := InitialProp(t, title, description);
    var p0 := p;
    if t == JStr("array") {
      p := Put(p, "format", JStr("tabs"));
      var items := EditorArrayItems(TypeList(x.types), x.doc.customTags);
      if items.Err? {
        return Err(items.error);
      }
      p := Put(p, "items", items.value);
    } else if t == JStr("boolean") {
      p := Put(p, "format", JStr("checkbox"));
    } else if t == JStr("string") && Member(JObj(p), "name") == JStr("description") {
      p := Put(p, "format", JStr("textarea"));
    }
    assert WithDefaultFormat(x, p0, t) == Ok(p);
    p := Put(p, "format", TagOr(x.doc.customTags, "editorformat", Member(JObj(p), "format")));
    if Member(JObj(p), "format") == JStr("textarea") {
      p := Put(p, "options", ExpandHeight);
    }
    return Ok(p);
  }

  /** The format default touches only `format` and `items`: "tabs" and
      the item schema for an array, "checkbox" for a boolean, nothing
      otherwise (the object has no `name`, so the text-area test fails). */
  lemma DefaultFormatRule(x: Prop, p: Members, t: Json)
    requires WithDefaultFormat(x, p, t).Ok?
    requires Lookup(p, "name") == None && Lookup(p, "format") == None
    requires Lookup(p, "items") == None
    ensures var d := WithDefaultFormat(x, p, t).value;
      && |d| >= |p| && (forall i :: 0 <= i < |p| ==> d[i].0 == p[i].0)
      && (forall j :: j != "format" && j != "items" ==> Lookup(d, j) == Lookup(p, j))
      && Lookup(d, "format") == (if t == JStr("array") then Some(JStr("tabs"))
                                 else if t == JStr("boolean") then Some(JStr("checkbox"))
                                 else None)
      && (Lookup(d, "items").Some? <==> t == JStr("array"))
  {
    if t == JStr("array") {
      var tabs := Put(p, "format", JStr("tabs"));
      var items := EditorArrayItems(TypeList(x.types), x.doc.customTags).value;
      PutSpec(p, "format", JStr("tabs"));
      PutSpec(tabs, "items", items);
      PutKeepsPlaces(p, "format", JStr("tabs"));
      PutKeepsPlaces(tabs, "items", items);
    } else if t == JStr("boolean") {
      PutSpec(p, "format", JStr("checkbox"));
      PutKeepsPlaces(p, "format", JStr("checkbox"));
    }
  }

  /** The three first properties are the type, the title and the
      description, and hold them. */
  lemma CoreHead(x: Prop, title: string, description: string)
    requires PropertyCore(x, title, description).Ok?
    ensures var p := PropertyCore(x, title, description).value;
      && |p| >= 3 && p[0].0 == "type" && p[1].0 == "title" && p[2].0 == "description"
      && Lookup(p, "type") == Some(SchemaType(x.types))
      && Lookup(p, "title") == Some(JStr(title))
      && Lookup(p, "description") == Some(JStr(description))
  {
    var t := SchemaType(x.types);
    var p := InitialProp(t, title, description);
    InitialLookups(t, title, description);
    DefaultFormatRule(x, p, t);
    FinishHead(x, WithDefaultFormat(x, p, t).value, t, title, description);
  }

  /** The first three properties are the type, the title and the
      description, holding `t`, `title` and `description`. */
  predicate HeadHolds(m: Members, t: Json, title: string, description: string) {
    && |m| >= 3 && m[0].0 == "type" && m[1].0 == "title" && m[2].0 == "description"
    && Lookup(m, "type") == Some(t) && Lookup(m, "title") == Some(JStr(title))
    && Lookup(m, "description") == Some(JStr(description))
  }

  lemma PutKeepsHead(m: Members, k: string, v: Json, t: Json, title: string, description: string)
    requires HeadHolds(m, t, title, description)
    requires k != "type" && k != "title" && k != "description"
    ensures HeadHolds(Put(m, k, v), t, title, description)
  {
    PutOther(m, k, v, "type");
    PutOther(m, k, v, "title");
    PutOther(m, k, v, "description");
    PutKeepsPlaces(m, k, v);
  }

  /** The format tag and the options keep the first three properties. */
  lemma FinishHead(x: Prop, d: Members, t: Json, title: string, description: string)
    requires HeadHolds(d, t, title, description)
    ensures HeadHolds(ApplyOptions(ApplyFormatTag(x, d)), t, title, description)
  {
    var fmt := TagOr(x.doc.customTags, "editorformat", Member(JObj(d), "format"));
    PutKeepsHead(d, "format", fmt, t, title, description);
    PutKeepsHead(ApplyFormatTag(x, d), "options", ExpandHeight, t, title, description);
  }

  /** `format` is the `@editorformat` tag, else "tabs" for an array and
      "checkbox" for a boolean, else undefined (the text-area default
      never fires); `items` is there exactly for an array; and `options`
      exactly when the final format is "textarea". */
  lemma FormatRule(x: Prop, title: string, description: string)
    requires PropertyCore(x, title, description).Ok?
    ensures var p := PropertyCore(x, title, description).value;
      var t := SchemaType(x.types);
      && Lookup(p, "format") == Some(
           match GetTag(x.doc.customTags, "editorformat")
           case Some(f) => JStr(f)
           case None => if t == JStr("array") then JStr("tabs")
                        else if t == JStr("boolean") then JStr("checkbox")
                        else JUndef)
      && (Lookup(p, "items").Some? <==> t == JStr("array"))
      && (Lookup(p, "options").Some? <==> Lookup(p, "format") == Some(JStr("textarea")))
  {
    var t := SchemaType(x.types);
    var p := InitialProp(t, title, description);
    InitialLookups(t, title, description);
    DefaultFormatRule(x, p, t);
    FinishFormat(x, WithDefaultFormat(x, p, t).value, t);
  }

  /** The format tag overrides the default format, and the options follow
      the final format. */
  lemma FinishFormat(x: Prop, d: Members, t: Json)
    requires Lookup(d, "format") == (if t == JStr("array") then Some(JStr("tabs"))
                                     else if t == JStr("boolean") then Some(JStr("checkbox"))
                                     else None)
    requires (Lookup(d, "items").Some? <==> t == JStr("array")) && Lookup(d, "options") == None
    ensures var r := ApplyOptions(ApplyFormatTag(x, d));
      && Lookup(r, "format") == Some(
           match GetTag(x.doc.customTags, "editorformat")
           case Some(f) => JStr(f)
           case None => if t == JStr("array") then JStr("tabs")
                        else if t == JStr("boolean") then JStr("checkbox")
                        else JUndef)
      && (Lookup(r, "items").Some? <==> t == JStr("array"))
      && (Lookup(r, "options").Some? <==> Lookup(r, "format") == Some(JStr("textarea")))
  {
    var fmt := TagOr(x.doc.customTags, "editorformat", Member(JObj(d), "format"));
    var f := ApplyFormatTag(x, d);
    PutOther(d, "format", fmt, "options");
    PutOther(d, "format", fmt, "items");
    PutOther(f, "options", ExpandHeight, "format");
    PutOther(f, "options", ExpandHeight, "items");
  }

  /** Lookups in the object a property starts from. */
  lemma InitialLookups(t: Json, title: string, description: string)
    ensures var p := InitialProp(t, title, description);
      && |p| == 3 && p[0].0 == "type" && p[1].0 == "title" && p[2].0 == "description"
      && Lookup(p, "type") == Some(t) && Lookup(p, "title") == Some(JStr(title))
      && Lookup(p, "description") == Some(JStr(description))
      && Lookup(p, "name") == None && Lookup(p, "format") == None
      && Lookup(p, "items") == None && Lookup(p, "options") == None
  {
    var p := InitialProp(t, title, description);
    assert Keys(p) == ["type", "title", "description"];
    assert p[1..] == [("title", JStr(title)), ("description", JStr(description))];
    assert p[1..][1..] == [("description", JStr(description))];
    assert p[1..][1..][1..] == [];
    assert Lookup(p[1..][1..], "description") == Some(JStr(description));
    assert Lookup(p[1..], "description") == Some(JStr(description));
  }

  /** Building the property fails only at an array whose type list is not
      a table key, with that key in the error. */
  lemma CoreErrors(x: Prop, title: string, description: string)
    ensures PropertyCore(x, title, description).Err? <==>
      SchemaType(x.types) == JStr("array") && Join(x.types, ',') !in ArrayTypeKeys
    ensures PropertyCore(x, title, description).Err? ==>
      PropertyCore(x, title, description).error == NotAnArrayType(Join(x.types, ','))
  {
  }

  // ---------------------------------------------------------------------
  // specialProps

  /** The `rectangle` entry of the special-property table. */
  const RectangleSpecial: Members := [
    ("type", JStr("array")),
    ("items", JObj([("type", JArr([JStr("number"), JStr("string")]))])),
    ("format", JStr("table")),
    ("options", JObj([("collapsed", JBool(true)), ("disable_array_reorder", JBool(true))])),
    ("maxItems", JNum(4)),
    ("minItems", JNum(2))
  ]

  /** The `blacklist` and `whitelist` entries. */
  const FlagListSpecial: Members := [
    ("additionalProperties", JObj([("type", JStr("boolean")), ("format", JStr("checkbox"))]))
  ]

  /** `specials[propName]` when it is an entry of the table. Names that
      reach inherited members of a plain object (`constructor`,
      `__proto__`, ...) give values without own enumerable keys, so they
      change nothing either. */
  function SpecialTable(propName: string): Option<Members> {
    if propName == "rectangle" then Some(RectangleSpecial)
    else if propName == "blacklist" || propName == "whitelist" then Some(FlagListSpecial)
    else None
  }

  /** What `specialProps` returns. */
  function SpecialMerge(propName: string, p: Members): Members {
    match SpecialTable(propName)
    case Some(kvs) => PutAll(p, kvs)
    case None => p
  }

  /** `specialProps(propName, p)`: each key of the name's entry is
      assigned into `p`, in the entry's order. */
  method SpecialProps(propName: string, p: Members) returns (r: Members)
    ensures r == SpecialMerge(propName, p)
  {
    r := p;
    var special := SpecialTable(propName);
    if special.Some? {
      var kvs := special.value;
      for i := 0 to |kvs|
        invariant r == PutAll(p, kvs[..i])
      {
        assert kvs[..i + 1][..i] == kvs[..i];
        r := Put(r, kvs[i].0, kvs[i].1);
      }
      assert kvs[..|kvs|] == kvs;
    }
  }

  lemma SpecialTablesUnique(propName: string)
    requires SpecialTable(propName).Some?
    ensures UniqueKeys(SpecialTable(propName).value)
  {
    if propName == "rectangle" {
      var ks := Keys(RectangleSpecial);
      assert ks == ["type", "items", "format", "options", "maxItems", "minItems"];
    }
  }

  /** For a special name every key of its entry holds the entry's value,
      overwriting what the property had, every other key keeps its value,
      and the existing keys keep their order; any other name leaves the
      property as it was. */
  lemma SpecialMergeSpec(propName: string, p: Members)
    ensures SpecialTable(propName).None? ==> SpecialMerge(propName, p) == p
    ensures SpecialTable(propName).Some? ==>
      var kvs := SpecialTable(propName).value;
      forall k :: Lookup(SpecialMerge(propName, p), k)
                  == if k in Keys(kvs) then Lookup(kvs, k) else Lookup(p, k)
    ensures |SpecialMerge(propName, p)| >= |p|
    ensures forall i :: 0 <= i < |p| ==> SpecialMerge(propName, p)[i].0 == p[i].0
  {
    if SpecialTable(propName).Some? {
      var kvs := SpecialTable(propName).value;
      SpecialTablesUnique(propName);
      forall k ensures Lookup(SpecialMerge(propName, p), k)
                       == if k in Keys(kvs) then Lookup(kvs, k) else Lookup(p, k) {
        PutAllLookup(p, kvs, k);
      }
      PutAllKeepsOrder(p, kvs);
    }
  }

  // ---------------------------------------------------------------------
  // Collecting the properties of a class

  /** `props.forEach(x => out.properties[x.name] = entry(x))` over the
      first `n` records, up to the first entry that throws: each entry
      goes under its record's name, a later record of the same name
      overwriting an earlier one in place. */
  function FoldEntries(ps: seq<Prop>, n: nat, entry: Prop -> Result<Members, Failure>): Result<Members, Failure>
    requires n <= |ps|
  {
    if n == 0 then Ok([])
    else
      var init := FoldEntries(ps, n - 1, entry);
      if init.Err? then init
      else
        match entry(ps[n - 1])
        case Err(e) => Err(e)
        case Ok(p) => Ok(Put(init.value, ps[n - 1].doc.name, JObj(p)))
  }

  /** Once a prefix has failed, every longer prefix fails the same way. */
  lemma {:induction false} FoldPrefixErr(ps: seq<Prop>, i: nat, n: nat, entry: Prop -> Result<Members, Failure>)
    requires i <= n <= |ps| && FoldEntries(ps, i, entry).Err?
    ensures FoldEntries(ps, n, entry) == FoldEntries(ps, i, entry)
    decreases n
  {
    if i < n {
      FoldPrefixErr(ps, i, n - 1, entry);
    }
  }

  /** The fold fails exactly when some entry fails, and then with the
      error of the first entry that fails. */
  lemma {:induction false} FoldErrors(ps: seq<Prop>, n: nat, entry: Prop -> Result<Members, Failure>)
    requires n <= |ps|
    ensures FoldEntries(ps, n, entry).Ok? <==> forall i :: 0 <= i < n ==> entry(ps[i]).Ok?
    ensures FoldEntries(ps, n, entry).Err? ==>
      exists i :: 0 <= i < n && entry(ps[i]) == Err(FoldEntries(ps, n, entry).error)
                  && forall j :: 0 <= j < i ==> entry(ps[j]).Ok?
    decreases n
  {
    if n > 0 {
      FoldErrors(ps, n - 1, entry);
      if FoldEntries(ps, n - 1, entry).Ok? && entry(ps[n - 1]).Err? {
        assert entry(ps[n - 1]) == Err(FoldEntries(ps, n, entry).error);
      }
    }
  }

  /** The names of a successful fold are exactly the records' names. */
  lemma {:induction false} FoldKeys(ps: seq<Prop>, n: nat, entry: Prop -> Result<Members, Failure>, k: string)
    requires n <= |ps| && FoldEntries(ps, n, entry).Ok?
    ensures Lookup(FoldEntries(ps, n, entry).value, k).Some? <==>
            exists i :: 0 <= i < n && ps[i].doc.name == k
    decreases n
  {
    if n > 0 {
      var init := FoldEntries(ps, n - 1, entry).value;
      FoldKeys(ps, n - 1, entry, k);
      if ps[n - 1].doc.name != k {
        PutOther(init, ps[n - 1].doc.name, JObj(entry(ps[n - 1]).value), k);
        assert Lookup(FoldEntries(ps, n, entry).value, k) == Lookup(init, k);
        if exists i :: 0 <= i < n && ps[i].doc.name == k {
          var i :| 0 <= i < n && ps[i].doc.name == k;
          assert i < n - 1;
        }
      }
    }
  }

  /** In a successful fold a name holds the entry of the LAST record with
      that name. */
  lemma {:induction false} FoldLastWins(ps: seq<Prop>, n: nat, entry: Prop -> Result<Members, Failure>, i: nat)
    requires n <= |ps| && FoldEntries(ps, n, entry).Ok? && i < n
    requires forall j :: i < j < n ==> ps[j].doc.name != ps[i].doc.name
    ensures entry(ps[i]).Ok?
    ensures Lookup(FoldEntries(ps, n, entry).value, ps[i].doc.name) == Some(JObj(entry(ps[i]).value))
    decreases n
  {
    if i < n - 1 {
      PutOther(FoldEntries(ps, n - 1, entry).value, ps[n - 1].doc.name, JObj(entry(ps[n - 1]).value), ps[i].doc.name);
      FoldLastWins(ps, n - 1, entry, i);
    }
  }
}
