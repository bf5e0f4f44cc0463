/** main.js, the earlier generator: one schema per class (`process`), the
    `items` schema over the classes it collected (`writeItemsFile`), and
    the scan over the model directory. It shares its helpers with
    generateSchema.js. Unlike the later pipeline, the class schema carries
    the class's own title and description and pins the type id itself,
    property titles start with '#', links are left as written, and no
    shell file is produced. */
module LegacyMain {
  import opened Outcomes
  import opened JsText
  import opened Json
  import opened Comments
  import opened Titles
  import opened Descriptions
  import opened Hierarchy
  import opened ClassTitles
  import opened ClassProps
  import opened PropertySchema
  import opened GenerateSchema

  // ---------------------------------------------------------------------
  // One property

  /** `'#' + getTag(x, 'editortitle', titleify(x.name))` once `titleify`
      has succeeded. */
  function LegacyTitle(x: Prop): string
    requires x.doc.name != []
  {
    "#" + GetTag(x.doc.customTags, "editortitle").GetOr(TitleOf(x.doc.name))
  }

  /** `getTag(x, 'editordescription', <normalised description>)`: the
      description without its links rewritten. */
  function LegacyDescription(x: Prop): string
    requires x.doc.description.Some?
  {
    GetTag(x.doc.customTags, "editordescription").GetOr(NormalizeDescription(x.doc.description.value))
  }

  /** What the `forEach` body of `process` stores under `x.name`. As in
      generateSchema.js, both fallbacks are evaluated before `getTag`. */
  function LegacyEntry(x: Prop): Result<Members, Failure> {
    if x.doc.name == [] then Err(EmptyPropertyName)
    else if x.doc.description.None? then Err(MissingDescription(x.doc.name))
    else
      match PropertyCore(x, LegacyTitle(x), LegacyDescription(x))
      case Err(e) => Err(e)
      case Ok(p) => Ok(SpecialMerge(x.doc.name, p))
  }

  /** The statements of the `forEach` body, in order. */
  method LegacyPropertyEntry(x: Prop) returns (r: Result<Members, Failure>)
    ensures r == LegacyEntry(x)
  {
    var fallbackTitle := Titleify(x.doc.name);
    if fallbackTitle.Err? {
      return Err(fallbackTitle.error);
    }
    var title := "#" + GetTag(x.doc.customTags, "editortitle").GetOr(fallbackTitle.value);
    if x.doc.description.None? {
      return Err(MissingDescription(x.doc.name));
    }
    var normalised := NormalizeDescription(x.doc.description.value);
    var description := GetTag(x.doc.customTags, "editordescription").GetOr(normalised);
    var p := BuildProperty(x, title, description);
    if p.Err? {
      return Err(p.error);
    }
    var merged := SpecialProps(x.doc.name, p.value);
    return Ok(merged);
  }

  /** The two generators reject exactly the same records, with the same
      error. */
  lemma LegacyEntryErrors(x: Prop)
    ensures LegacyEntry(x).Err? <==> Entry(x).Err?
    ensures LegacyEntry(x).Err? ==> LegacyEntry(x).error == Entry(x).error
  {
    if x.doc.name != [] && x.doc.description.Some? {
      CoreErrors(x, LegacyTitle(x), LegacyDescription(x));
      CoreErrors(x, EntryTitle(x), EntryDescription(x));
    }
  }

  /** A stored property starts with its type, title and description; the
      title is '#' followed by the `@editortitle` tag or the name made
      readable; the description is the `@editordescription` tag or the
      normalised description, links untouched; the type is the schema
      type unless the name is special, and a special name's entry
      overwrites every key it lists. */
  lemma LegacyEntryRules(x: Prop)
    requires LegacyEntry(x).Ok?
    ensures var p := LegacyEntry(x).value;
      && |p| >= 3 && p[0].0 == "type" && p[1].0 == "title" && p[2].0 == "description"
      && Lookup(p, "title") == Some(JStr("#" + GetTag(x.doc.customTags, "editortitle").GetOr(TitleOf(x.doc.name))))
      && Lookup(p, "description") == Some(JStr(
           GetTag(x.doc.customTags, "editordescription").GetOr(NormalizeDescription(x.doc.description.value))))
      && (SpecialTable(x.doc.name).None? ==> Lookup(p, "type") == Some(SchemaType(x.types)))
      && (SpecialTable(x.doc.name).Some? ==>
            forall k :: k in Keys(SpecialTable(x.doc.name).value) ==>
              Lookup(p, k) == Lookup(SpecialTable(x.doc.name).value, k))
  {
    var title, description := LegacyTitle(x), LegacyDescription(x);
    var core := PropertyCore(x, title, description).value;
    CoreHead(x, title, description);
    SpecialMergeSpec(x.doc.name, core);
    if SpecialTable(x.doc.name).Some? {
      SpecialKeysOf(x.doc.name);
    }
  }

  // ---------------------------------------------------------------------
  // The properties of a class

  /** `defined(model.typeId) && model.typeId !== 'group'`: the classes
      whose type id the schema pins (groups go through a hand-written
      wrapper). An empty type id counts. */
  predicate Pinned(typeId: Option<string>) {
    typeId.Some? && typeId.value != "group"
  }

  /** The hidden `type` property of main.js. */
  function PinnedTypeProp(typeId: string): Json {
    JObj([("type", JStr("string")), ("enum", JArr([JStr(typeId)])), ("options", Hidden)])
  }

  /** After the `forEach`: the pinned `type` assigned for a pinned class,
      then `typeName` deleted. */
  function PinAndClean(properties: Members, typeId: Option<string>): Members {
    var pinned := if Pinned(typeId) then Put(properties, "type", PinnedTypeProp(typeId.value)) else properties;
    Remove(pinned, "typeName")
  }

  /** The stored properties of a class in main.js. */
  function LegacyProperties(ps: seq<Prop>, typeId: Option<string>): Result<Members, Failure> {
    match FoldEntries(ps, |ps|, LegacyEntry)
    case Err(e) => Err(e)
    case Ok(properties) => Ok(PinAndClean(properties, typeId))
  }

  /** A name is stored exactly when it is not `typeName` and either some
      selected record has it or it is `type` on a pinned class. */
  lemma LegacyPropertyNames(ps: seq<Prop>, typeId: Option<string>, k: string)
    requires LegacyProperties(ps, typeId).Ok?
    ensures Lookup(LegacyProperties(ps, typeId).value, k).Some? <==>
      k != "typeName" && ((k == "type" && Pinned(typeId)) || exists i :: 0 <= i < |ps| && ps[i].doc.name == k)
  {
    var folded := FoldEntries(ps, |ps|, LegacyEntry).value;
    FoldKeys(ps, |ps|, LegacyEntry, k);
    var pinned := if Pinned(typeId) then Put(folded, "type", PinnedTypeProp(typeId.value)) else folded;
    if Pinned(typeId) && k != "type" {
      PutOther(folded, "type", PinnedTypeProp(typeId.value), k);
    }
    RemoveSpec(pinned, "typeName");
  }

  /** The hidden type is there exactly for a pinned class, whatever the
      records say, and `typeName` never is. */
  lemma LegacyPinnedType(ps: seq<Prop>, typeId: Option<string>)
    requires LegacyProperties(ps, typeId).Ok?
    ensures Pinned(typeId) ==>
      Lookup(LegacyProperties(ps, typeId).value, "type")
      == Some(JObj([("type", JStr("string")), ("enum", JArr([JStr(typeId.value)])),
                    ("options", JObj([("hidden", JBool(true))]))]))
    ensures Lookup(LegacyProperties(ps, typeId).value, "typeName") == None
  {
    var folded := FoldEntries(ps, |ps|, LegacyEntry).value;
    var pinned := if Pinned(typeId) then Put(folded, "type", PinnedTypeProp(typeId.value)) else folded;
    RemoveSpec(pinned, "typeName");
  }

  /** Any other stored name holds the entry of the LAST selected record
      with that name. */
  lemma LegacyPropertyLastWins(ps: seq<Prop>, typeId: Option<string>, i: nat)
    requires LegacyProperties(ps, typeId).Ok? && i < |ps| && ps[i].doc.name != "typeName"
    requires !(ps[i].doc.name == "type" && Pinned(typeId))
    requires forall j :: i < j < |ps| ==> ps[j].doc.name != ps[i].doc.name
    ensures LegacyEntry(ps[i]).Ok?
    ensures Lookup(LegacyProperties(ps, typeId).value, ps[i].doc.name) == Some(JObj(LegacyEntry(ps[i]).value))
  {
    var folded := FoldEntries(ps, |ps|, LegacyEntry).value;
    FoldLastWins(ps, |ps|, LegacyEntry, i);
    var pinned := if Pinned(typeId) then Put(folded, "type", PinnedTypeProp(typeId.value)) else folded;
    if Pinned(typeId) {
      PutOther(folded, "type", PinnedTypeProp(typeId.value), ps[i].doc.name);
    }
    RemoveSpec(pinned, "typeName");
  }

  // ---------------------------------------------------------------------
  // process

  /** The class title: the class's `@editortitle`, else the model's
      `typeName`, else the class name cut at its first "Catalog". */
  function LegacyClassTitle(model: ClassModel, className: string, comments: seq<Comment>): string {
    DefaultValue(FindClassProp(comments, className, "editortitle", false), model.typeName,
                 Some(StripCatalog(className, false))).value
  }

  /** The object literal `out`, with the root's title overwritten. */
  function LegacyHead(model: ClassModel, className: string, comments: seq<Comment>, properties: Members): Members {
    [("type", JStr("object")), ("defaultProperties", Strs(["name", "type", "url"])),
     ("properties", JObj(properties)),
     ("description", OptStr(FindClassProp(comments, className, "editordescription", true))),
     ("title", JStr(if model.name == "CatalogMember" then "CatalogMember"
                    else LegacyClassTitle(model, className, comments)))]
  }

  /** `out` once its properties are stored: the literal, with the `allOf`
      list appended for a class other than the root. */
  function LegacyOut(model: ClassModel, className: string, comments: seq<Comment>,
                     allOf: Option<seq<Json>>, properties: Members): Json {
    JObj(LegacyHead(model, className, comments, properties)
         + if allOf.Some? then [("allOf", JArr(allOf.value))] else [])
  }

  /** What `process` writes for a class once its name and `allOf` are
      known; the console line, always printed, comes before the write. */
  function LegacyClassOut(model: ClassModel, className: string, comments: seq<Comment>,
                          allOf: Option<seq<Json>>): Result<Json, Failure> {
    match LegacyProperties(GetClassProps(comments, className, model.inheritsLine), model.typeId)
    case Err(e) => Err(e)
    case Ok(properties) =>
      if Padding(model.name).Err? then Err(Padding(model.name).error)
      else Ok(LegacyOut(model, className, comments, allOf, properties))
  }

  /** What `process(model, comments)` writes, or the error it throws. */
  function LegacySchema(model: ClassModel, comments: seq<Comment>): Result<Json, Failure> {
    match FirstClass(comments)
    case None => Err(NoClassComment(model.name))
    case Some(cls) =>
      match AllOf(model)
      case Err(e) => Err(e)
      case Ok(allOf) => LegacyClassOut(model, cls.name, comments, allOf)
  }

  /** The `forEach`, the pinned type and the deletion of `typeName`. */
  method LegacyFillProperties(ps: seq<Prop>, typeId: Option<string>) returns (r: Result<Members, Failure>)
    ensures r == LegacyProperties(ps, typeId)
  {
    var stored := StoreAll(ps, LegacyEntry);
    if stored.Err? {
      return Err(stored.error);
    }
    var properties := stored.value;
    if Pinned(typeId) {
      properties := Put(properties, "type", PinnedTypeProp(typeId.value));
    }
    properties := Remove(properties, "typeName");
    return Ok(properties);
  }

  /** The statements of `process` after the `allOf` pushes, through the
      console line. */
  method FillClass(model: ClassModel, className: string, comments: seq<Comment>,
                   allOf: Option<seq<Json>>) returns (r: Result<Json, Failure>)
    ensures r == LegacyClassOut(model, className, comments, allOf)
  {
    var description := OptStr(FindClassProp(comments, className, "editordescription", true));
    var title := if model.name == "CatalogMember" then "CatalogMember"
                 else LegacyClassTitle(model, className, comments);
    var properties := LegacyFillProperties(GetClassProps(comments, className, model.inheritsLine), model.typeId);
    if properties.Err? {
      return Err(properties.error);
    }
    var padding := Padding(model.name);
    if padding.Err? {
      return Err(padding.error);
    }
    var out := [("type", JStr("object")), ("defaultProperties", Strs(["name", "type", "url"])),
                ("properties", JObj(properties.value)), ("description", description), ("title", JStr(title))];
    assert out == LegacyHead(model, className, comments, properties.value);
    if allOf.Some? {
      out := out + [("allOf", JArr(allOf.value))];
    } else {
      assert out + [] == out;
    }
    assert JObj(out) == LegacyOut(model, className, comments, allOf, properties.value);
    return Ok(JObj(out));
  }

  /** `process(model, comments)`: the class record, the `allOf` pushes
      (or the root's title), the properties, the pinned type, the
      deletion of `typeName` and the console line. */
  method Process(model: ClassModel, comments: seq<Comment>) returns (r: Result<Json, Failure>)
    ensures r == LegacySchema(model, comments)
  {
    var cls := FirstClass(comments);
    if cls.None? {
      return Err(NoClassComment(model.name));
    }
    var allOf := BuildAllOf(model);
    if allOf.Err? {
      return Err(allOf.error);
    }
    r := FillClass(model, cls.value.name, comments, allOf.value);
  }

  /** `process` throws exactly when no record has kind "class" (in
      main.js this is the TypeError of reading `name` of `undefined`,
      where generateSchema.js throws "No @class comment"; the model gives
      both the `NoClassComment` label); once there is one, it succeeds exactly when the class
      is the root or has a parent, every selected record yields a
      property, and the name has at most 32 characters; a longer name
      that passes the first two throws the RangeError of the padding.
      Unlike generateSchema.js, a root class with a type id is no
      obstacle, and the console line is never skipped. */
  lemma LegacySchemaErrors(model: ClassModel, comments: seq<Comment>)
    ensures LegacySchema(model, comments) == Err(NoClassComment(model.name)) <==>
      forall i :: 0 <= i < |comments| ==> comments[i].kind != "class"
    ensures FirstClass(comments).Some? ==>
      var ps := GetClassProps(comments, FirstClass(comments).value.name, model.inheritsLine);
      LegacySchema(model, comments).Ok? <==>
        && (model.name == "CatalogMember" || model.parent.Some?)
        && (forall i :: 0 <= i < |ps| ==> LegacyEntry(ps[i]).Ok?)
        && |model.name| <= 32
    ensures FirstClass(comments).Some? ==>
      var ps := GetClassProps(comments, FirstClass(comments).value.name, model.inheritsLine);
      && (model.name == "CatalogMember" || model.parent.Some?)
      && (forall i :: 0 <= i < |ps| ==> LegacyEntry(ps[i]).Ok?)
      && |model.name| > 32
      ==> LegacySchema(model, comments) == Err(InvalidArrayLength(model.name))
  {
    FirstClassSpec(comments);
    var cls := FirstClass(comments);
    if cls.Some? {
      AllOfShape(model);
      PaddingRule(model.name);
      var ps := GetClassProps(comments, cls.value.name, model.inheritsLine);
      FoldErrors(ps, |ps|, LegacyEntry);
      if FoldEntries(ps, |ps|, LegacyEntry).Err? {
        var i :| 0 <= i < |ps| && LegacyEntry(ps[i]) == Err(FoldEntries(ps, |ps|, LegacyEntry).error);
        LegacyEntryErrors(ps[i]);
        EntryErrors(ps[i]);
      }
    }
  }

  /** The schema `process` writes is an object schema with the default
      properties `name`, `type`, `url`, the stored properties and the
      class description. The root is titled "CatalogMember" and has no
      `allOf`; every other class takes its title from its tag, else its
      type name, else its name cut at "Catalog", and ends with its
      `allOf`. */
  lemma LegacyOutShape(model: ClassModel, className: string, comments: seq<Comment>,
                       allOf: Option<seq<Json>>, properties: Members)
    requires AllOf(model) == Ok(allOf)
    ensures var s := LegacyOut(model, className, comments, allOf, properties);
      && s.JObj? && |s.members| >= 5
      && s.members[0] == ("type", JStr("object"))
      && s.members[1] == ("defaultProperties", Strs(["name", "type", "url"]))
      && s.members[2] == ("properties", JObj(properties))
      && s.members[3] == ("description", OptStr(FindClassProp(comments, className, "editordescription", true)))
      && (model.name == "CatalogMember" ==>
            |s.members| == 5 && s.members[4] == ("title", JStr("CatalogMember")))
      && (model.name != "CatalogMember" ==>
            && |s.members| == 6
            && s.members[4].0 == "title"
            && s.members[4].1 == JStr(
                 var tagged := FindClassProp(comments, className, "editortitle", false);
                 if tagged.Some? then tagged.value
                 else if model.typeName.Some? then model.typeName.value
                 else StripCatalog(className, false))
            && s.members[5] == ("allOf", JArr(allOf.value)))
  {
    AllOfShape(model);
  }

  // ---------------------------------------------------------------------
  // writeItemsFile

  /** The `oneOf` list: the group wrapper's schema first, then each
      class's own schema (`{ $ref: m.name + '.json' }`) in the given
      order. */
  function Choices(models: seq<ClassModel>): (r: seq<Json>)
    ensures |r| == |models| + 1 && r[0] == Ref("JustCatalogGroup.json")
    ensures forall i :: 0 <= i < |models| ==> r[i + 1] == Ref(models[i].name + ".json")
  {
    [Ref("JustCatalogGroup.json")] + seq(|models|, i requires 0 <= i < |models| => Ref(models[i].name + ".json"))
  }

  /** The `items` schema of `writeItemsFile(models)`. */
  function LegacyItems(models: seq<ClassModel>): Json {
    JObj([("title", JStr("Items")), ("description", JStr("List of items or groups")),
          ("type", JStr("array")), ("format", JStr("tabs")),
          ("items", JObj([("type", JStr("object")), ("title", JStr("item")),
                          ("headerTemplate", JStr("{{ self.name }}")),
                          ("allOf", JArr([Ref("CatalogMember.json")])),
                          ("required", Strs(["name", "type"])),
                          ("oneOf", JArr(Choices(models)))]))])
  }

  /** The list schema is a tab array of objects that meet the root
      schema, require a name and a type, and are one of the choices. */
  lemma LegacyItemsShape(models: seq<ClassModel>)
    ensures var f := LegacyItems(models);
      && f.JObj? && |f.members| == 5 && f.members[2] == ("type", JStr("array"))
      && f.members[3] == ("format", JStr("tabs")) && f.members[4].0 == "items"
      && var item := f.members[4].1;
      && item.JObj? && |item.members| == 6
      && item.members[3] == ("allOf", JArr([Ref("CatalogMember.json")]))
      && item.members[4] == ("required", Strs(["name", "type"]))
      && item.members[5].0 == "oneOf" && item.members[5].1.JArr?
      && var choices := item.members[5].1.items;
      && |choices| == |models| + 1 && choices[0] == Ref("JustCatalogGroup.json")
      && forall i :: 0 <= i < |models| ==> choices[i + 1] == Ref(models[i].name + ".json")
  {
  }

  // ---------------------------------------------------------------------
  // The model directory

  /** One entry of the model directory, with what is read from it: its
      text, the records the documentation parser emits for it, and the
      `type` and `typeName` values found in its source. */
  datatype ModelFile = ModelFile(entry: string, text: string, comments: seq<Comment>,
                                 typeId: Option<string>, typeName: Option<string>)

  /** `f.replace(/\.js$/, '')` */
  function StripJs(f: string): string {
    if EndsWith(f, ".js") then f[..|f| - 3] else f
  }

  /** The name of a schemable entry is the entry without its ".js". */
  lemma StripJsSchemable(f: string)
    requires IsSchemable(f)
    ensures StripJs(f) + ".js" == f
    ensures |StripJs(f)| + 3 == |f|
  {
    if EndsWith(f, "CatalogItem.js") {
      JsEnding(f, "CatalogItem.js");
    } else if EndsWith(f, "CatalogGroup.js") {
      JsEnding(f, "CatalogGroup.js");
    } else {
      JsEnding(f, "CatalogMember.js");
    }
  }

  /** A name ending in a suffix that ends in ".js" loses exactly its
      ".js". */
  lemma JsEnding(f: string, suffix: string)
    requires EndsWith(f, suffix) && EndsWith(suffix, ".js")
    ensures StripJs(f) + ".js" == f
    ensures |StripJs(f)| + 3 == |f|
  {
    assert f[|f| - 3..] == suffix[|suffix| - 3..];
    assert f[..|f| - 3] + f[|f| - 3..] == f;
  }

  /** The path `processModel` reads. */
  function ModelPath(source: string, entry: string): string {
    source + "/lib/Models/" + entry
  }

  /** The model record `processModel` builds, or the error
      `findInherits` throws. */
  function LegacyModelOf(source: string, f: ModelFile): Result<ClassModel, Failure> {
    var filename := ModelPath(source, f.entry);
    match FirstMatchingLine(Split(f.text, '\n'), IsMemberRoot(filename), 0)
    case None => Err(NoInheritsLine(filename))
    case Some(found) => Ok(ClassModel(StripJs(f.entry), found.parent, found.line, f.typeId, f.typeName))
  }

  /** What becomes of one directory entry: a failure inside the `try`
      (`findInherits`) is reported and the file skipped; a throw from
      `process`, which runs in the parser's `end` handler outside the
      `try`, stops the whole run. */
  datatype FileOutcome = Skipped(error: Failure) | Aborted(error: Failure) | Written(model: ClassModel, schema: Json)

  function LegacyFile(source: string, f: ModelFile): FileOutcome {
    match LegacyModelOf(source, f)
    case Err(e) => Skipped(e)
    case Ok(model) =>
      match LegacySchema(model, f.comments)
      case Err(e) => Aborted(e)
      case Ok(schema) => Written(model, schema)
  }

  /** `processModel` for one entry. */
  method ProcessModel(source: string, f: ModelFile) returns (r: FileOutcome)
    ensures r == LegacyFile(source, f)
  {
    var filename := ModelPath(source, f.entry);
    var found := FindInherits(f.text, filename);
    if found.Err? {
      return Skipped(found.error);
    }
    var model := ClassModel(StripJs(f.entry), found.value.parent, found.value.line, f.typeId, f.typeName);
    var schema := Process(model, f.comments);
    if schema.Err? {
      return Aborted(schema.error);
    }
    return Written(model, schema.value);
  }

  function OutcomeOf(source: string): ModelFile -> FileOutcome {
    f => LegacyFile(source, f)
  }

  /** The entries the directory filter keeps, in their order. */
  function Chosen(files: seq<ModelFile>): seq<ModelFile> {
    if files == [] then []
    else (if IsSchemable(files[0].entry) then [files[0]] else []) + Chosen(files[1..])
  }

  lemma {:induction false} ChosenSpec(files: seq<ModelFile>)
    ensures forall f :: f in Chosen(files) <==> f in files && IsSchemable(f.entry)
    decreases |files|
  {
    if files != [] {
      ChosenSpec(files[1..]);
      assert files == [files[0]] + files[1..];
    }
  }

  /** The outcomes of the first `n` entries: the written schemas in
      order, or the first throw that stops the run. */
  function Collect(files: seq<ModelFile>, n: nat, outcome: ModelFile -> FileOutcome): Result<seq<FileOutcome>, Failure>
    requires n <= |files|
  {
    if n == 0 then Ok([])
    else
      match Collect(files, n - 1, outcome)
      case Err(e) => Err(e)
      case Ok(done) =>
        match outcome(files[n - 1])
        case Skipped(_) => Ok(done)
        case Aborted(e) => Err(e)
        case Written(m, s) => Ok(done + [Written(m, s)])
  }

  /** The run stops exactly when some entry's `process` throws, with the
      first such error; otherwise it holds exactly the entries' written
      schemas, each of them a `Written` outcome. */
  lemma {:induction false} CollectSpec(files: seq<ModelFile>, n: nat, outcome: ModelFile -> FileOutcome)
    requires n <= |files|
    ensures Collect(files, n, outcome).Ok? <==> forall i :: 0 <= i < n ==> !outcome(files[i]).Aborted?
    ensures Collect(files, n, outcome).Err? ==>
      exists i :: 0 <= i < n && outcome(files[i]) == Aborted(Collect(files, n, outcome).error)
                  && forall j :: 0 <= j < i ==> !outcome(files[j]).Aborted?
    ensures Collect(files, n, outcome).Ok? ==>
      forall w :: w in Collect(files, n, outcome).value <==>
        exists i :: 0 <= i < n && outcome(files[i]) == w && w.Written?
    decreases n
  {
    if n > 0 {
      CollectSpec(files, n - 1, outcome);
      var o := outcome(files[n - 1]);
      if Collect(files, n - 1, outcome).Ok? && o.Aborted? {
        assert outcome(files[n - 1]) == Aborted(Collect(files, n, outcome).error);
      }
      if Collect(files, n, outcome).Ok? {
        var done := Collect(files, n - 1, outcome).value;
        forall w ensures w in Collect(files, n, outcome).value <==>
          exists i :: 0 <= i < n && outcome(files[i]) == w && w.Written? {
          if w.Written? && w == o {
            assert outcome(files[n - 1]) == w;
          }
          if exists i :: 0 <= i < n && outcome(files[i]) == w && w.Written? {
            var i :| 0 <= i < n && outcome(files[i]) == w && w.Written?;
            if i < n - 1 {
              assert w in done;
            }
          }
        }
      }
    }
  }

  /** The `forEach` over the chosen entries; `outcome` is what one turn
      computes (`ProcessModel`). */
  method CollectAll(files: seq<ModelFile>, outcome: ModelFile -> FileOutcome) returns (r: Result<seq<FileOutcome>, Failure>)
    ensures r == Collect(files, |files|, outcome)
  {
    r := Ok([]);
    var i := 0;
    while i < |files| && r.Ok?
      invariant i <= |files| && r == Collect(files, i, outcome)
    {
      var o := outcome(files[i]);
      r := match o
           case Skipped(_) => r
           case Aborted(e) => Err(e)
           case Written(m, s) => Ok(r.value + [Written(m, s)]);
      i := i + 1;
    }
    if r.Err? {
      CollectPrefixErr(files, i, |files|, outcome);
    }
  }

  /** Once a prefix has stopped the run, every longer prefix stops it the
      same way. */
  lemma {:induction false} CollectPrefixErr(files: seq<ModelFile>, i: nat, n: nat, outcome: ModelFile -> FileOutcome)
    requires i <= n <= |files| && Collect(files, i, outcome).Err?
    ensures Collect(files, n, outcome) == Collect(files, i, outcome)
    decreases n - i
  {
    if i < n {
      CollectPrefixErr(files, i, n - 1, outcome);
    }
  }

  /** The models the callback pushes: those written whose class is
      pinned. */
  function PinnedModels(done: seq<FileOutcome>): seq<ClassModel> {
    if done == [] then []
    else (if done[0].Written? && Pinned(done[0].model.typeId) then [done[0].model] else [])
         + PinnedModels(done[1..])
  }

  lemma {:induction false} PinnedModelsSpec(done: seq<FileOutcome>)
    ensures forall m :: m in PinnedModels(done) <==>
      exists i :: 0 <= i < |done| && done[i].Written? && done[i].model == m && Pinned(m.typeId)
    decreases |done|
  {
    if done != [] {
      PinnedModelsSpec(done[1..]);
      forall m ensures m in PinnedModels(done) <==>
        exists i :: 0 <= i < |done| && done[i].Written? && done[i].model == m && Pinned(m.typeId) {
        if m in PinnedModels(done[1..]) {
          var i :| 0 <= i < |done[1..]| && done[1..][i].Written? && done[1..][i].model == m && Pinned(m.typeId);
          assert done[i + 1] == done[1..][i];
        }
        if exists i :: 0 <= i < |done| && done[i].Written? && done[i].model == m && Pinned(m.typeId) {
          var i :| 0 <= i < |done| && done[i].Written? && done[i].model == m && Pinned(m.typeId);
          if i > 0 {
            assert done[1..][i - 1] == done[i];
          }
        }
      }
    }
  }

  /** The schemas written, and the items schema unless the directory had
      no chosen entry (the callback that writes it never runs then). */
  datatype LegacyOutputs = LegacyOutputs(written: seq<FileOutcome>, items: Option<Json>)

  /** The whole run of main.js over the model directory. */
  function LegacyRun(source: string, files: seq<ModelFile>): Result<LegacyOutputs, Failure> {
    var chosen := Chosen(files);
    match Collect(chosen, |chosen|, OutcomeOf(source))
    case Err(e) => Err(e)
    case Ok(done) =>
      Ok(LegacyOutputs(done, if chosen == [] then None else Some(LegacyItems(PinnedModels(done)))))
  }

  /** The directory scan: the filter, one `processModel` per chosen
      entry, and `writeItemsFile` once every callback has run. */
  method Generate(source: string, files: seq<ModelFile>) returns (r: Result<LegacyOutputs, Failure>)
    ensures r == LegacyRun(source, files)
  {
    var chosen := Chosen(files);
    var done := CollectAll(chosen, OutcomeOf(source));
    if done.Err? {
      return Err(done.error);
    }
    if chosen == [] {
      return Ok(LegacyOutputs(done.value, None));
    }
    return Ok(LegacyOutputs(done.value, Some(LegacyItems(PinnedModels(done.value)))));
  }

  /** The run is stopped exactly when `process` throws for some chosen
      entry whose hierarchy line was found, and then by the first such
      error in directory order. */
  lemma LegacyRunErrors(source: string, files: seq<ModelFile>)
    ensures var chosen := Chosen(files);
      LegacyRun(source, files).Ok? <==> forall i :: 0 <= i < |chosen| ==> !LegacyFile(source, chosen[i]).Aborted?
    ensures var chosen := Chosen(files);
      LegacyRun(source, files).Err? ==>
        exists i :: 0 <= i < |chosen| && LegacyFile(source, chosen[i]) == Aborted(LegacyRun(source, files).error)
                    && forall j :: 0 <= j < i ==> !LegacyFile(source, chosen[j]).Aborted?
  {
    var chosen := Chosen(files);
    var c := Collect(chosen, |chosen|, OutcomeOf(source));
    CollectSpec(chosen, |chosen|, OutcomeOf(source));
    assert LegacyRun(source, files).Ok? <==> c.Ok?;
    assert LegacyRun(source, files).Err? <==> c.Err?;
    assert c.Err? ==> LegacyRun(source, files).error == c.error;
    forall i | 0 <= i < |chosen|
      ensures OutcomeOf(source)(chosen[i]) == LegacyFile(source, chosen[i])
    {
    }
    assert c.Ok? <==> forall i :: 0 <= i < |chosen| ==> !LegacyFile(source, chosen[i]).Aborted?;
  }

  /** A completed scan holds the schema of every chosen entry whose turn
      wrote one (for the run, `OutcomeOf(source)`: those whose hierarchy
      line was found; the others are skipped), and nothing else. */
  lemma ChosenWritten(files: seq<ModelFile>, outcome: ModelFile -> FileOutcome)
    requires Collect(Chosen(files), |Chosen(files)|, outcome).Ok?
    ensures forall w :: w in Collect(Chosen(files), |Chosen(files)|, outcome).value <==>
      exists f :: f in files && IsSchemable(f.entry) && outcome(f) == w && w.Written?
  {
    var chosen := Chosen(files);
    ChosenSpec(files);
    CollectSpec(chosen, |chosen|, outcome);
    forall w ensures w in Collect(chosen, |chosen|, outcome).value <==>
      exists f :: f in files && IsSchemable(f.entry) && outcome(f) == w && w.Written? {
      if w in Collect(chosen, |chosen|, outcome).value {
        var i :| 0 <= i < |chosen| && outcome(chosen[i]) == w && w.Written?;
        assert chosen[i] in chosen;
      }
      if exists f :: f in files && IsSchemable(f.entry) && outcome(f) == w && w.Written? {
        var f :| f in files && IsSchemable(f.entry) && outcome(f) == w && w.Written?;
        assert f in chosen;
        var i :| 0 <= i < |chosen| && chosen[i] == f;
      }
    }
  }

  /** The items schema is written exactly when some entry was chosen, and
      lists exactly the written classes that are pinned. */
  lemma LegacyRunItems(source: string, files: seq<ModelFile>)
    requires LegacyRun(source, files).Ok?
    ensures var out := LegacyRun(source, files).value;
      && (out.items.Some? <==> exists f :: f in files && IsSchemable(f.entry))
      && (out.items.Some? ==> out.items.value == LegacyItems(PinnedModels(out.written)))
      && forall m :: m in PinnedModels(out.written) <==>
           exists i :: 0 <= i < |out.written| && out.written[i].Written? && out.written[i].model == m
                       && Pinned(m.typeId)
  {
    ChosenSpec(files);
    var chosen := Chosen(files);
    if chosen != [] {
      assert chosen[0] in chosen;
    }
    PinnedModelsSpec(LegacyRun(source, files).value.written);
  }
}
