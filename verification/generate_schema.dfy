/** generateSchema.js: the schema files written for one class
    (`processText` with `makeShellFile`), the `items` schema over all
    classes with a type id (`makeItemsFile`), and the scan over the model
    files (`processModelFile`, `processModels`). */
module GenerateSchema {
  import opened Outcomes
  import opened JsText
  import opened Json
  import opened Comments
  import opened TypeNames
  import opened Titles
  import opened Descriptions
  import opened Hierarchy
  import opened ClassTitles
  import opened ClassProps
  import opened PropertySchema

  // ---------------------------------------------------------------------
  // One property

  /** `getTag(x, 'editortitle', titleify(x.name))` once `titleify` has
      succeeded. */
  function EntryTitle(x: Prop): string
    requires x.doc.name != []
  {
    GetTag(x.doc.customTags, "editortitle").GetOr(TitleOf(x.doc.name))
  }

  /** `replaceLinks(getTag(x, 'editordescription', <normalised
      description>))` once the description is known to be defined. */
  function EntryDescription(x: Prop): string
    requires x.doc.description.Some?
  {
    ReplaceLinks(Some(GetTag(x.doc.customTags, "editordescription")
                        .GetOr(NormalizeDescription(x.doc.description.value)))).value
  }

  /** What the `forEach` body stores under `x.name`. Both fallbacks are
      evaluated before `getTag` runs, so an empty name (whose `titleify`
      throws) or an undefined description (whose `replace` throws) fails
      even when the record carries the overriding tag. */
  function Entry(x: Prop): Result<Members, Failure> {
    if x.doc.name == [] then Err(EmptyPropertyName)
    else if x.doc.description.None? then Err(MissingDescription(x.doc.name))
    else
      match PropertyCore(x, EntryTitle(x), EntryDescription(x))
      case Err(e) => Err(e)
      case Ok(p) => Ok(SpecialMerge(x.doc.name, p))
  }

  /** The statements of the `forEach` body, in order. */
  method PropertyEntry(x: Prop) returns (r: Result<Members, Failure>)
    ensures r == Entry(x)
  {
    var fallbackTitle := Titleify(x.doc.name);
    if fallbackTitle.Err? {
      return Err(fallbackTitle.error);
    }
    var title := GetTag(x.doc.customTags, "editortitle").GetOr(fallbackTitle.value);
    if x.doc.description.None? {
      return Err(MissingDescription(x.doc.name));
    }
    var normalised := NormalizeDescription(x.doc.description.value);
    var description := ReplaceLinks(Some(GetTag(x.doc.customTags, "editordescription").GetOr(normalised)));
    var p := BuildProperty(x, title, description.value);
    if p.Err? {
      return Err(p.error);
    }
    var merged := SpecialProps(x.doc.name, p.value);
    return Ok(merged);
  }

  /** A property fails for an empty name, then for a missing description,
      then for an array type that is not a table key; never for a reason
      that belongs to the class. */
  lemma EntryErrors(x: Prop)
    ensures Entry(x).Err? <==>
      || x.doc.name == [] || x.doc.description.None?
      || (SchemaType(x.types) == JStr("array") && Join(x.types, ',') !in ArrayTypeKeys)
    ensures x.doc.name == [] ==> Entry(x) == Err(EmptyPropertyName)
    ensures x.doc.name != [] && x.doc.description.None? ==> Entry(x) == Err(MissingDescription(x.doc.name))
    ensures Entry(x).Err? ==>
      Entry(x).error.EmptyPropertyName? || Entry(x).error.MissingDescription? || Entry(x).error.NotAnArrayType?
  {
    if x.doc.name != [] && x.doc.description.Some? {
      CoreErrors(x, EntryTitle(x), EntryDescription(x));
    }
  }

  /** No special entry touches a title or a description. */
  lemma SpecialKeysOf(propName: string)
    requires SpecialTable(propName).Some?
    ensures "title" !in Keys(SpecialTable(propName).value)
    ensures "description" !in Keys(SpecialTable(propName).value)
  {
    if propName == "rectangle" {
      assert Keys(RectangleSpecial) == ["type", "items", "format", "options", "maxItems", "minItems"];
    } else {
      assert Keys(FlagListSpecial) == ["additionalProperties"];
    }
  }

  /** A stored property starts with its type, title and description; the
      title is the `@editortitle` tag or the name made readable; the
      description is the `@editordescription` tag or the normalised
      description, with its links rewritten either way; the type is the
      schema type unless the name is special, and a special name's entry
      overwrites every key it lists. */
  lemma EntryRules(x: Prop)
    requires Entry(x).Ok?
    ensures var p := Entry(x).value;
      && |p| >= 3 && p[0].0 == "type" && p[1].0 == "title" && p[2].0 == "description"
      && Lookup(p, "title") == Some(JStr(GetTag(x.doc.customTags, "editortitle").GetOr(TitleOf(x.doc.name))))
      && Lookup(p, "description") == Some(JStr(ReplacePipeLinks(ReplaceHashLinks(
           GetTag(x.doc.customTags, "editordescription").GetOr(NormalizeDescription(x.doc.description.value))))))
      && (SpecialTable(x.doc.name).None? ==> Lookup(p, "type") == Some(SchemaType(x.types)))
      && (SpecialTable(x.doc.name).Some? ==>
            forall k :: k in Keys(SpecialTable(x.doc.name).value) ==>
              Lookup(p, k) == Lookup(SpecialTable(x.doc.name).value, k))
  {
    var title, description := EntryTitle(x), EntryDescription(x);
    var core := PropertyCore(x, title, description).value;
    CoreHead(x, title, description);
    SpecialMergeSpec(x.doc.name, core);
    if SpecialTable(x.doc.name).Some? {
      SpecialKeysOf(x.doc.name);
    }
  }

  // ---------------------------------------------------------------------
  // The class schema

  /** `comments.filter(eq('kind', 'class'))[0]` */
  function FirstClass(comments: seq<Comment>): Option<Comment> {
    if comments == [] then None
    else if comments[0].kind == "class" then Some(comments[0])
    else FirstClass(comments[1..])
  }

  /** The class record is the first record of kind "class", and there is
      none exactly when no record has that kind. */
  lemma {:induction false} FirstClassSpec(comments: seq<Comment>)
    ensures FirstClass(comments).None? <==> forall i :: 0 <= i < |comments| ==> comments[i].kind != "class"
    ensures FirstClass(comments).Some? ==>
      exists i :: 0 <= i < |comments| && comments[i] == FirstClass(comments).value
                  && comments[i].kind == "class"
                  && forall j :: 0 <= j < i ==> comments[j].kind != "class"
    decreases |comments|
  {
    if comments != [] && comments[0].kind != "class" {
      FirstClassSpec(comments[1..]);
      if FirstClass(comments).Some? {
        var i :| 0 <= i < |comments[1..]| && comments[1..][i] == FirstClass(comments).value
                 && comments[1..][i].kind == "class"
                 && forall j :: 0 <= j < i ==> comments[1..][j].kind != "class";
        assert comments[i + 1] == comments[1..][i];
        forall j | 0 <= j < i + 1 ensures comments[j].kind != "class" {
          if j > 0 {
            assert comments[j] == comments[1..][j - 1];
          }
        }
      } else {
        forall i | 0 <= i < |comments| ensures comments[i].kind != "class" {
          if i > 0 {
            assert comments[i] == comments[1..][i - 1];
          }
        }
      }
    }
  }

  /** `name.match(/.X$/)`: the name ends in `suffix` with at least one
      character other than a line terminator before it. */
  predicate SuffixAfterChar(name: string, suffix: string) {
    |name| > |suffix| && EndsWith(name, suffix) && !IsLineTerminator(name[|name| - |suffix| - 1])
  }

  /** The parents `/^(CatalogItem|CatalogGroup|CatalogMember)$/` accepts. */
  const RootClasses: set<string> := {"CatalogItem", "CatalogGroup", "CatalogMember"}

  /** The class schema's `allOf`: absent for the root class; otherwise the
      kind's own schema, the parent's schema when the parent is not one of
      the three roots, and always the root's schema. Reading `.match` on
      an undefined parent throws. */
  function AllOf(model: ClassModel): Result<Option<seq<Json>>, Failure> {
    if model.name == "CatalogMember" then Ok(None)
    else
      match model.parent
      case None => Err(ParentUndefined(model.name))
      case Some(parent) => Ok(Some(KindRefs(model.name) + ParentRefs(parent) + [Ref("CatalogMember.json")]))
  }

  /** The kind's own schema, for a name with a prefix before
      `CatalogItem` or `CatalogGroup`. */
  function KindRefs(name: string): seq<Json> {
    if SuffixAfterChar(name, "CatalogItem") then [Ref("CatalogItem.json")]
    else if SuffixAfterChar(name, "CatalogGroup") then [Ref("CatalogGroup.json")]
    else []
  }

  /** The parent's schema, unless the parent is a root. */
  function ParentRefs(parent: string): seq<Json> {
    if parent in RootClasses then [] else [Ref(parent + ".json")]
  }

  /** One to three references: the kind's first when the name has a
      prefix before `CatalogItem` or `CatalogGroup`, the parent's next to
      last when it is not a root, and the root's last. */
  lemma AllOfShape(model: ClassModel)
    ensures AllOf(model).Err? <==> model.name != "CatalogMember" && model.parent.None?
    ensures AllOf(model).Err? ==> AllOf(model).error == ParentUndefined(model.name)
    ensures AllOf(model) == Ok(None) <==> model.name == "CatalogMember"
    ensures AllOf(model).Ok? && AllOf(model).value.Some? ==>
      var refs := AllOf(model).value.value;
      var kind := SuffixAfterChar(model.name, "CatalogItem") || SuffixAfterChar(model.name, "CatalogGroup");
      var own := model.parent.value !in RootClasses;
      && |refs| == 1 + (if kind then 1 else 0) + (if own then 1 else 0)
      && refs[|refs| - 1] == Ref("CatalogMember.json")
      && (SuffixAfterChar(model.name, "CatalogItem") ==> refs[0] == Ref("CatalogItem.json"))
      && (!SuffixAfterChar(model.name, "CatalogItem") && SuffixAfterChar(model.name, "CatalogGroup")
          ==> refs[0] == Ref("CatalogGroup.json"))
      && (own ==> refs[|refs| - 2] == Ref(model.parent.value + ".json"))
  {
  }

  /** The class schema: its type, the default properties, the property
      schemas and, unless the class is the root, the `allOf` list. */
  function ClassSchema(allOf: Option<seq<Json>>, properties: Members): Json {
    JObj([("type", JStr("object")), ("defaultProperties", Strs(["name", "type", "url"])),
          ("properties", JObj(properties))]
         + match allOf
           case None => []
           case Some(refs) => [("allOf", JArr(refs))])
  }

  /** The stored properties of a class: every selected record's entry
      under its name, `typeName` deleted afterwards. */
  function ClassProperties(ps: seq<Prop>): Result<Members, Failure> {
    match FoldEntries(ps, |ps|, Entry)
    case Err(e) => Err(e)
    case Ok(properties) => Ok(Remove(properties, "typeName"))
  }

  /** A property name is stored exactly when some selected record has it,
      except `typeName`. */
  lemma ClassPropertyNames(ps: seq<Prop>, k: string)
    requires ClassProperties(ps).Ok?
    ensures Lookup(ClassProperties(ps).value, k).Some? <==>
      k != "typeName" && exists i :: 0 <= i < |ps| && ps[i].doc.name == k
  {
    var folded := FoldEntries(ps, |ps|, Entry).value;
    FoldKeys(ps, |ps|, Entry, k);
    RemoveSpec(folded, "typeName");
  }

  /** A stored name holds the entry of the LAST selected record with that
      name. */
  lemma ClassPropertyLastWins(ps: seq<Prop>, i: nat)
    requires ClassProperties(ps).Ok? && i < |ps| && ps[i].doc.name != "typeName"
    requires forall j :: i < j < |ps| ==> ps[j].doc.name != ps[i].doc.name
    ensures Entry(ps[i]).Ok?
    ensures Lookup(ClassProperties(ps).value, ps[i].doc.name) == Some(JObj(Entry(ps[i]).value))
  {
    var folded := FoldEntries(ps, |ps|, Entry).value;
    FoldLastWins(ps, |ps|, Entry, i);
    RemoveSpec(folded, "typeName");
  }

  /** The properties are stored exactly when every selected record's
      entry can be built, and otherwise the first failure is reported. */
  lemma ClassPropertiesErrors(ps: seq<Prop>)
    ensures ClassProperties(ps).Ok? <==> forall i :: 0 <= i < |ps| ==> Entry(ps[i]).Ok?
    ensures ClassProperties(ps).Err? ==>
      exists i :: 0 <= i < |ps| && Entry(ps[i]) == Err(ClassProperties(ps).error)
                  && forall j :: 0 <= j < i ==> Entry(ps[j]).Ok?
  {
    FoldErrors(ps, |ps|, Entry);
  }

  // ---------------------------------------------------------------------
  // makeShellFile

  /** `options: {hidden: true}`. */
  const Hidden: Json := JObj([("hidden", JBool(true))])

  /** The hidden `type` property that pins a class's type id. */
  function HiddenTypeProp(typeId: Option<string>): Json {
    JObj([("options", Hidden), ("type", JStr("string")), ("enum", JArr([OptStr(typeId)]))])
  }

  /** The title of the shell: the class's `@editortitle`, else the
      model's `typeName`, else the class name with its `Catalog(?!Member)`
      tail cut off. */
  function ShellTitle(model: ClassModel, className: string, comments: seq<Comment>): string {
    DefaultValue(FindClassProp(comments, className, "editortitle", false), model.typeName,
                 Some(StripCatalog(className, true))).value
  }

  /** `makeShellFile(model, mainOut, className, comments)`, from the
      class schema's `allOf` (absent for the root, where `concat` on it
      throws). */
  function ShellFile(model: ClassModel, allOf: Option<seq<Json>>, className: string,
                     comments: seq<Comment>): Result<Json, Failure> {
    match allOf
    case None => Err(NoAncestorList(model.name))
    case Some(ancestors) =>
      var props := [("type", HiddenTypeProp(model.typeId))];
      Ok(JObj([("type", JStr("object")),
               ("properties", JObj(if model.name == "CatalogGroup" then Put(props, "items", Ref("items.json")) else props)),
               ("description", OptStr(ReplaceLinks(FindClassProp(comments, className, "editordescription", true)))),
               ("title", JStr(ShellTitle(model, className, comments))),
               ("allOf", JArr(ancestors + [Ref(model.name + ".json")]))]))
  }

  /** The statements of `makeShellFile`: the object literal, then the
      `items` reference for the group class. */
  method MakeShellFile(model: ClassModel, allOf: Option<seq<Json>>, className: string,
                       comments: seq<Comment>) returns (r: Result<Json, Failure>)
    ensures r == ShellFile(model, allOf, className, comments)
  {
    if allOf.None? {
      return Err(NoAncestorList(model.name));
    }
    var props := [("type", HiddenTypeProp(model.typeId))];
    var description := OptStr(ReplaceLinks(FindClassProp(comments, className, "editordescription", true)));
    var title := JStr(ShellTitle(model, className, comments));
    var ancestors := JArr(allOf.value + [Ref(model.name + ".json")]);
    if model.name == "CatalogGroup" {
      props := Put(props, "items", Ref("items.json"));
    }
    return Ok(JObj([("type", JStr("object")), ("properties", JObj(props)), ("description", description),
                    ("title", JStr(ShellTitle(model, className, comments))), ("allOf", ancestors)]));
  }

  /** The shell pins the type id in a hidden string property, adds the
      group's `items` reference exactly for `CatalogGroup`, lists the
      class's ancestors followed by the class itself, and takes its title
      from the tag, else the type name, else the shortened class name. */
  lemma ShellRules(model: ClassModel, allOf: Option<seq<Json>>, className: string, comments: seq<Comment>)
    ensures ShellFile(model, allOf, className, comments).Err? <==> allOf.None?
    ensures ShellFile(model, allOf, className, comments).Ok? ==>
      var s := ShellFile(model, allOf, className, comments).value;
      && s.JObj? && |s.members| == 5
      && s.members[0] == ("type", JStr("object"))
      && s.members[1].0 == "properties" && s.members[1].1.JObj?
      && Lookup(s.members[1].1.members, "type")
         == Some(JObj([("options", JObj([("hidden", JBool(true))])), ("type", JStr("string")),
                       ("enum", JArr([OptStr(model.typeId)]))]))
      && (Lookup(s.members[1].1.members, "items").Some? <==> model.name == "CatalogGroup")
      && s.members[4] == ("allOf", JArr(allOf.value + [Ref(model.name + ".json")]))
      && s.members[3].0 == "title"
      && s.members[3].1 == JStr(
           var tagged := FindClassProp(comments, className, "editortitle", false);
           if tagged.Some? then tagged.value
           else if model.typeName.Some? then model.typeName.value
           else StripCatalog(className, true))
  {
    if allOf.Some? {
      var props := [("type", HiddenTypeProp(model.typeId))];
      assert Lookup(props, "items") == None;
      if model.name == "CatalogGroup" {
        PutOther(props, "items", Ref("items.json"), "type");
      }
    }
  }

  // ---------------------------------------------------------------------
  // processText

  /** What `processText` writes for a class: the class schema (with its
      stored properties beside it) and, for a class with a type id, the
      shell. */
  datatype Outputs = Outputs(properties: Members, schema: Json, shell: Option<Json>)

  /** `model.typeId` read as a truth value. */
  predicate Truthy(s: Option<string>) {
    s.Some? && s.value != ""
  }

  /** `new Array(n).join(' ')`: the `n - 1` spaces between `n` holes. */
  function JoinHoles(n: nat): (r: string)
    ensures |r| == if n == 0 then 0 else n - 1
    ensures forall i :: 0 <= i < |r| ==> r[i] == ' '
  {
    if n <= 1 then "" else JoinHoles(n - 1) + " "
  }

  /** `new Array(32 - name.length).join(' ')`, the padding of the console
      line that reports a class, or the RangeError an array of negative
      length throws. */
  function Padding(name: string): Result<string, Failure> {
    var n := 32 - |name|;
    if n < 0 then Err(InvalidArrayLength(name)) else Ok(JoinHoles(n))
  }

  /** The padding throws exactly for a name longer than 32 characters;
      otherwise it is spaces that carry the name to column 31, and a name
      of 31 or 32 characters gets none. */
  lemma PaddingRule(name: string)
    ensures Padding(name).Err? <==> |name| > 32
    ensures Padding(name).Err? ==> Padding(name).error == InvalidArrayLength(name)
    ensures Padding(name).Ok? ==>
      && (forall i :: 0 <= i < |Padding(name).value| ==> Padding(name).value[i] == ' ')
      && |name + Padding(name).value| == if |name| <= 31 then 31 else 32
  {
  }

  /** The files of a class once its name and `allOf` are known: the
      properties, then (unless `quiet`) the console line, then the shell. */
  function ClassOutputs(model: ClassModel, className: string, comments: seq<Comment>,
                        allOf: Option<seq<Json>>, quiet: bool): Result<Outputs, Failure> {
    match ClassProperties(GetClassProps(comments, className, model.inheritsLine))
    case Err(e) => Err(e)
    case Ok(properties) =>
      if !quiet && Padding(model.name).Err? then Err(Padding(model.name).error)
      else ClassWrites(model, className, comments, allOf, properties)
  }

  /** The class schema and, for a truthy type id, the shell, once the
      properties are stored. */
  function ClassWrites(model: ClassModel, className: string, comments: seq<Comment>,
                       allOf: Option<seq<Json>>, properties: Members): Result<Outputs, Failure> {
    var schema := ClassSchema(allOf, properties);
    if !Truthy(model.typeId) then Ok(Outputs(properties, schema, None))
    else
      match ShellFile(model, allOf, className, comments)
      case Err(e) => Err(e)
      case Ok(shell) => Ok(Outputs(properties, schema, Some(shell)))
  }

  /** What `processText(model, comments)` writes, or the error it throws;
      `quiet` is `argv.quiet`, which skips the console line. */
  function ClassFiles(model: ClassModel, comments: seq<Comment>, quiet: bool): Result<Outputs, Failure> {
    match FirstClass(comments)
    case None => Err(NoClassComment(model.name))
    case Some(cls) =>
      match AllOf(model)
      case Err(e) => Err(e)
      case Ok(allOf) => ClassOutputs(model, cls.name, comments, allOf, quiet)
  }

  /** The `allOf` pushes of `processText`. */
  method BuildAllOf(model: ClassModel) returns (r: Result<Option<seq<Json>>, Failure>)
    ensures r == AllOf(model)
  {
    if model.name == "CatalogMember" {
      return Ok(None);
    }
    var refs: seq<Json> := [];
    if SuffixAfterChar(model.name, "CatalogItem") {
      refs := refs + [Ref("CatalogItem.json")];
    } else if SuffixAfterChar(model.name, "CatalogGroup") {
      refs := refs + [Ref("CatalogGroup.json")];
    }
    assert refs == KindRefs(model.name);
    if model.parent.None? {
      return Err(ParentUndefined(model.name));
    }
    if model.parent.value !in RootClasses {
      refs := refs + [Ref(model.parent.value + ".json")];
    }
    assert refs == KindRefs(model.name) + ParentRefs(model.parent.value);
    refs := refs + [Ref("CatalogMember.json")];
    return Ok(Some(refs));
  }

  /** The `forEach` that stores each record's entry under the record's
      name, stopping at the first that throws; `entry` is what one turn
      computes (`PropertyEntry`, for the class properties). */
  method StoreAll(ps: seq<Prop>, entry: Prop -> Result<Members, Failure>) returns (r: Result<Members, Failure>)
    ensures r == FoldEntries(ps, |ps|, entry)
  {
    r := Ok([]);
    var i := 0;
    while i < |ps| && r.Ok?
      invariant i <= |ps| && r == FoldEntries(ps, i, entry)
    {
      var p := entry(ps[i]);
      r := if p.Err? then Err(p.error) else Ok(Put(r.value, ps[i].doc.name, JObj(p.value)));
      i := i + 1;
    }
    if r.Err? {
      FoldPrefixErr(ps, i, |ps|, entry);
    }
  }

  /** The stored properties, and the `delete` of `typeName` after them. */
  method FillProperties(ps: seq<Prop>) returns (r: Result<Members, Failure>)
    ensures r == ClassProperties(ps)
  {
    var stored := StoreAll(ps, Entry);
    if stored.Err? {
      return Err(stored.error);
    }
    return Ok(Remove(stored.value, "typeName"));
  }

  /** `processText(model, comments)`: the class record, the `allOf`
      pushes, the properties, and the shell. */
  method ProcessText(model: ClassModel, comments: seq<Comment>, quiet: bool) returns (r: Result<Outputs, Failure>)
    ensures r == ClassFiles(model, comments, quiet)
  {
    var cls := FirstClass(comments);
    if cls.None? {
      return Err(NoClassComment(model.name));
    }
    var className := cls.value.name;
    var allOf := BuildAllOf(model);
    if allOf.Err? {
      return Err(allOf.error);
    }
    var properties := FillProperties(GetClassProps(comments, className, model.inheritsLine));
    if properties.Err? {
      return Err(properties.error);
    }
    if !quiet {
      var padding := Padding(model.name);
      if padding.Err? {
        return Err(padding.error);
      }
    }
    var schema := ClassSchema(allOf.value, properties.value);
    if Truthy(model.typeId) {
      var shell := MakeShellFile(model, allOf.value, className, comments);
      if shell.Err? {
        return Err(shell.error);
      }
      return Ok(Outputs(properties.value, schema, Some(shell.value)));
    }
    return Ok(Outputs(properties.value, schema, None));
  }

  /** `processText` throws "No @class comment" exactly when no record has
      kind "class". */
  lemma NoClassCommentIff(model: ClassModel, comments: seq<Comment>, quiet: bool)
    ensures ClassFiles(model, comments, quiet) == Err(NoClassComment(model.name)) <==>
      forall i :: 0 <= i < |comments| ==> comments[i].kind != "class"
  {
    FirstClassSpec(comments);
    var cls := FirstClass(comments);
    if cls.Some? {
      AllOfShape(model);
      PaddingRule(model.name);
      var ps := GetClassProps(comments, cls.value.name, model.inheritsLine);
      ClassPropertiesErrors(ps);
      if ClassProperties(ps).Err? {
        var i :| 0 <= i < |ps| && Entry(ps[i]) == Err(ClassProperties(ps).error);
        EntryErrors(ps[i]);
      }
    }
  }

  /** When a class record exists, `processText` succeeds exactly when the
      class is the root or has a parent, every selected record yields a
      property, the console line is skipped or the name has at most 32
      characters, and the root class has no type id (its shell would need
      the absent `allOf`). A longer name that passes the first two throws
      the RangeError of the padding. */
  lemma ClassFilesSucceed(model: ClassModel, comments: seq<Comment>, quiet: bool)
    requires FirstClass(comments).Some?
    ensures var ps := GetClassProps(comments, FirstClass(comments).value.name, model.inheritsLine);
      ClassFiles(model, comments, quiet).Ok? <==>
        && (model.name == "CatalogMember" || model.parent.Some?)
        && (forall i :: 0 <= i < |ps| ==> Entry(ps[i]).Ok?)
        && (quiet || |model.name| <= 32)
        && !(model.name == "CatalogMember" && Truthy(model.typeId))
    ensures var ps := GetClassProps(comments, FirstClass(comments).value.name, model.inheritsLine);
      && (model.name == "CatalogMember" || model.parent.Some?)
      && (forall i :: 0 <= i < |ps| ==> Entry(ps[i]).Ok?)
      && !quiet && |model.name| > 32
      ==> ClassFiles(model, comments, quiet) == Err(InvalidArrayLength(model.name))
  {
    var ps := GetClassProps(comments, FirstClass(comments).value.name, model.inheritsLine);
    AllOfShape(model);
    PaddingRule(model.name);
    ClassPropertiesErrors(ps);
  }

  /** The class schema is an object schema with the default properties
      `name`, `type`, `url`, the stored properties, and an `allOf` exactly
      for a class other than the root; the shell is written exactly when
      the type id is truthy. */
  lemma ClassSchemaShape(model: ClassModel, comments: seq<Comment>, quiet: bool)
    requires ClassFiles(model, comments, quiet).Ok?
    ensures var o := ClassFiles(model, comments, quiet).value;
      && o.schema.JObj? && |o.schema.members| >= 3
      && o.schema.members[0] == ("type", JStr("object"))
      && o.schema.members[1] == ("defaultProperties", Strs(["name", "type", "url"]))
      && o.schema.members[2] == ("properties", JObj(o.properties))
      && (|o.schema.members| == 4 <==> model.name != "CatalogMember")
      && (model.name != "CatalogMember" ==>
            o.schema.members[3] == ("allOf", JArr(AllOf(model).value.value)))
      && (o.shell.Some? <==> Truthy(model.typeId))
      && (o.shell.Some? ==> o.shell == Some(ShellFile(model, AllOf(model).value,
                                                      FirstClass(comments).value.name, comments).value))
  {
    AllOfShape(model);
    var className := FirstClass(comments).value.name;
    var allOf := AllOf(model).value;
    var properties := ClassProperties(GetClassProps(comments, className, model.inheritsLine)).value;
    assert ClassFiles(model, comments, quiet) == ClassWrites(model, className, comments, allOf, properties);
    ClassSchemaMembers(allOf, properties);
  }

  /** The members of the class schema, in order. */
  lemma ClassSchemaMembers(allOf: Option<seq<Json>>, properties: Members)
    ensures var s := ClassSchema(allOf, properties);
      && s.JObj? && |s.members| == (if allOf.Some? then 4 else 3)
      && s.members[0] == ("type", JStr("object"))
      && s.members[1] == ("defaultProperties", Strs(["name", "type", "url"]))
      && s.members[2] == ("properties", JObj(properties))
      && (allOf.Some? ==> s.members[3] == ("allOf", JArr(allOf.value)))
  {
  }

  // ---------------------------------------------------------------------
  // makeItemsFile

  /** A class's shell, `{ $ref: name + '_type.json' }`. */
  function TypeRef(m: ClassModel): Json {
    Ref(m.name + "_type.json")
  }

  /** `{ type: { enum: [ m.typeId ] } }` */
  function TypeGuard(m: ClassModel): Json {
    JObj([("type", JObj([("enum", JArr([OptStr(m.typeId)]))]))])
  }

  /** `modelToItem(m)` for validation: either the item does not carry the
      class's type id, or it carries it and meets the class's shell. */
  function ModelToItem(m: ClassModel): Json {
    JObj([("oneOf", JArr([JObj([("not", JObj([("properties", TypeGuard(m))]))]),
                          JObj([("allOf", JArr([JObj([("properties", TypeGuard(m))]), TypeRef(m)]))])]))])
  }

  function TypeRefs(models: seq<ClassModel>): (r: seq<Json>)
    ensures |r| == |models|
    ensures forall i :: 0 <= i < |models| ==> r[i] == TypeRef(models[i])
  {
    seq(|models|, i requires 0 <= i < |models| => TypeRef(models[i]))
  }

  function ModelItems(models: seq<ClassModel>): (r: seq<Json>)
    ensures |r| == |models|
    ensures forall i :: 0 <= i < |models| ==> r[i] == ModelToItem(models[i])
  {
    seq(|models|, i requires 0 <= i < |models| => ModelToItem(models[i]))
  }

  /** `sortModels` singles out the group's shell reference. */
  predicate IsGroupRef(r: Json) {
    r == Ref("CatalogGroup_type.json")
  }

  /** The references that are (or are not) the group's shell reference,
      in their order. */
  function GroupPart(refs: seq<Json>, group: bool): (r: seq<Json>)
    ensures forall j :: 0 <= j < |r| ==> IsGroupRef(r[j]) == group
  {
    if refs == [] then []
    else (if IsGroupRef(refs[0]) == group then [refs[0]] else []) + GroupPart(refs[1..], group)
  }

  /** The editor's `oneOf` order: the group's shell first, every other
      reference after it in input order. */
  function GroupFirst(refs: seq<Json>): seq<Json> {
    GroupPart(refs, true) + GroupPart(refs, false)
  }

  /** In the editor's order, the group references come exactly before
      the others. */
  lemma GroupFirstOrder(refs: seq<Json>)
    ensures forall j :: 0 <= j < |GroupFirst(refs)| ==>
      (IsGroupRef(GroupFirst(refs)[j]) <==> j < |GroupPart(refs, true)|)
  {
    var t, f := GroupPart(refs, true), GroupPart(refs, false);
    forall j | 0 <= j < |GroupFirst(refs)|
      ensures IsGroupRef(GroupFirst(refs)[j]) <==> j < |t|
    {
      if j >= |t| {
        assert GroupFirst(refs)[j] == f[j - |t|];
      }
    }
  }

  /** The two parts together hold every reference once. */
  lemma {:induction false} GroupFirstPermutes(refs: seq<Json>)
    ensures multiset(GroupFirst(refs)) == multiset(refs)
    decreases |refs|
  {
    if refs != [] {
      var x, rest := refs[0], refs[1..];
      GroupFirstPermutes(rest);
      var t, f := GroupPart(rest, true), GroupPart(rest, false);
      assert multiset(refs) == multiset([x]) + multiset(rest) by {
        assert refs == [x] + rest;
      }
      if IsGroupRef(x) {
        assert GroupPart(refs, true) == [x] + t;
        assert GroupPart(refs, false) == f;
        assert multiset(GroupFirst(refs)) == multiset([x]) + multiset(t) + multiset(f);
      } else {
        assert GroupPart(refs, true) == t;
        assert GroupPart(refs, false) == [x] + f;
        assert multiset(GroupFirst(refs)) == multiset(t) + (multiset([x]) + multiset(f));
      }
    }
  }

  /** The `items` schema of `makeItemsFile(models)`, in editor or in
      validation mode. New keys are appended, as assignments to absent
      keys do. */
  function ItemsFile(models: seq<ClassModel>, editor: bool): Json {
    JObj([("title", JStr("Items")), ("description", JStr("List of items or groups")),
          ("type", JStr("array")), ("format", JStr("tabs")), ("items", JObj(ItemMembers(models, editor)))])
  }

  /** The members of the list's `items` schema. */
  function ItemMembers(models: seq<ClassModel>, editor: bool): Members {
    var item := [("type", JStr("object")), ("title", JStr("item")),
                 ("headerTemplate", JStr("{{ self.name }}")), ("required", Strs(["name", "type"]))];
    if editor then item + [("allOf", JArr([Ref("CatalogMember.json")])), ("oneOf", JArr(GroupFirst(TypeRefs(models))))]
    else item + [("allOf", JArr([Ref("CatalogMember.json")] + ModelItems(models)))]
  }

  lemma ItemMembersRules(models: seq<ClassModel>, editor: bool)
    ensures var m := ItemMembers(models, editor);
      && |m| >= 5
      && m[3] == ("required", Strs(["name", "type"]))
      && m[4].0 == "allOf" && m[4].1.JArr?
      && |m[4].1.items| >= 1 && m[4].1.items[0] == Ref("CatalogMember.json")
      && (editor ==>
            && |m| == 6 && m[5] == ("oneOf", JArr(GroupFirst(TypeRefs(models)))))
      && (!editor ==>
            && |m| == 5 && m[4].1.items == [Ref("CatalogMember.json")] + ModelItems(models))
  {
  }

  /** In both modes the list schema is a tab array of objects that
      require a name and a type and meet the root schema. For the editor,
      `oneOf` holds exactly one shell reference per class (the group's
      first). For validation, `allOf` is the root schema followed by one
      guarded choice per class, in input order. */
  lemma ItemsFileRules(models: seq<ClassModel>, editor: bool)
    ensures var f := ItemsFile(models, editor);
      && f.JObj? && |f.members| == 5 && f.members[2] == ("type", JStr("array"))
      && f.members[3] == ("format", JStr("tabs")) && f.members[4].0 == "items"
      && var item := f.members[4].1;
      && item.JObj? && |item.members| >= 5
      && item.members[3] == ("required", Strs(["name", "type"]))
      && item.members[4].0 == "allOf" && item.members[4].1.JArr?
      && |item.members[4].1.items| >= 1 && item.members[4].1.items[0] == Ref("CatalogMember.json")
      && (editor ==>
            && |item.members| == 6 && item.members[5].0 == "oneOf" && item.members[5].1.JArr?
            && multiset(item.members[5].1.items) == multiset(TypeRefs(models))
            && (forall j :: 0 <= j < |item.members[5].1.items| ==>
                  (IsGroupRef(item.members[5].1.items[j]) <==> j < |GroupPart(TypeRefs(models), true)|)))
      && (!editor ==>
            && |item.members| == 5 && |item.members[4].1.items| == |models| + 1
            && forall i :: 0 <= i < |models| ==> item.members[4].1.items[i + 1] == ModelToItem(models[i]))
  {
    var refs := TypeRefs(models);
    ItemMembersRules(models, editor);
    GroupFirstPermutes(refs);
    GroupFirstOrder(refs);
  }

  // ---------------------------------------------------------------------
  // The model files

  /** What the generator reads for one model file: its path, its text,
      the records the documentation parser emits for it, and the `type`
      and `typeName` values found in its source. */
  datatype SourceFile = SourceFile(filename: string, text: string, comments: seq<Comment>,
                                   typeId: Option<string>, typeName: Option<string>)

  /** Index just after the last '/' of `s` at or before `n`, or 0. */
  function SegmentStart(s: string, n: nat): (k: nat)
    requires n <= |s|
    ensures k <= n
    ensures k > 0 ==> s[k - 1] == '/'
    ensures forall j :: k <= j < n ==> s[j] != '/'
  {
    if n == 0 then 0 else if s[n - 1] == '/' then n else SegmentStart(s, n - 1)
  }

  /** `path.basename(filename, '.js')`: the last segment, without its
      `.js` ending unless that is all of it. */
  function BaseName(filename: string): string {
    var seg := filename[SegmentStart(filename, |filename|)..];
    if |seg| > 3 && EndsWith(seg, ".js") then seg[..|seg| - 3] else seg
  }

  lemma {:induction false} SegmentStartAt(s: string, n: nat, k: nat)
    requires k <= n <= |s| && k > 0 && s[k - 1] == '/'
    requires forall j :: k <= j < n ==> s[j] != '/'
    ensures SegmentStart(s, n) == k
    decreases n
  {
    if n > k {
      SegmentStartAt(s, n - 1, k);
    }
  }

  /** The base name of `dir/name.js` is `name`. */
  lemma BaseNameOf(dir: string, name: string)
    requires name != [] && '/' !in name
    ensures BaseName(dir + "/" + name + ".js") == name
  {
    var f := dir + "/" + name + ".js";
    var k := |dir| + 1;
    assert f[k - 1] == '/';
    forall j | k <= j < |f| ensures f[j] != '/' {
      if j < k + |name| {
        assert f[j] == name[j - k];
      }
    }
    SegmentStartAt(f, |f|, k);
    assert f[k..] == name + ".js";
  }

  /** The class a model file describes, or the error `findInherits`
      throws. */
  function ModelOf(f: SourceFile): Result<ClassModel, Failure> {
    match FirstMatchingLine(Split(f.text, '\n'), IsMemberRoot(f.filename), 0)
    case None => Err(NoInheritsLine(f.filename))
    case Some(found) => Ok(ClassModel(BaseName(f.filename), found.parent, found.line, f.typeId, f.typeName))
  }

  /** One processed model with the files written for it. */
  datatype Processed = Processed(model: ClassModel, outputs: Outputs)

  /** How a promise of the pipeline ends: resolved with a value, rejected
      with an error, or never settled. */
  datatype Settled<+T> = Resolved(value: T) | Rejected(error: Failure) | Pending

  /** `processModelFile`, a callback function lifted by `node.lift`: its
      promise settles only through the callback. The hierarchy scan runs
      inside the `readFile` continuation, whose own promise is discarded,
      so a `findInherits` throw never reaches the callback and the file
      stays pending; a `processText` throw is caught and handed to the
      callback. */
  function ProcessFile(f: SourceFile, quiet: bool): Settled<Processed> {
    match ModelOf(f)
    case Err(_) => Pending
    case Ok(model) =>
      match ClassFiles(model, f.comments, quiet)
      case Err(e) => Rejected(e)
      case Ok(o) => Resolved(Processed(model, o))
  }

  /** A file stays pending exactly when it has no line that declares its
      parent; otherwise it settles as `processText` does. */
  lemma ProcessFileRules(f: SourceFile, quiet: bool)
    ensures ProcessFile(f, quiet).Pending? <==>
      FirstMatchingLine(Split(f.text, '\n'), IsMemberRoot(f.filename), 0).None?
    ensures ModelOf(f).Ok? ==>
      && (ProcessFile(f, quiet).Rejected? <==> ClassFiles(ModelOf(f).value, f.comments, quiet).Err?)
      && (ProcessFile(f, quiet).Rejected? ==>
            ProcessFile(f, quiet).error == ClassFiles(ModelOf(f).value, f.comments, quiet).error)
      && (ProcessFile(f, quiet).Resolved? ==>
            ProcessFile(f, quiet).value.model.name == BaseName(f.filename)
            && ProcessFile(f, quiet).value.outputs == ClassFiles(ModelOf(f).value, f.comments, quiet).value)
  {
  }

  method ProcessModelFile(f: SourceFile, quiet: bool) returns (r: Settled<Processed>)
    ensures r == ProcessFile(f, quiet)
  {
    var found := FindInherits(f.text, f.filename);
    if found.Err? {
      return Pending;
    }
    var model := ClassModel(BaseName(f.filename), found.value.parent, found.value.line, f.typeId, f.typeName);
    var o := ProcessText(model, f.comments, quiet);
    if o.Err? {
      return Rejected(o.error);
    }
    return Resolved(Processed(model, o.value));
  }

  /** `isSchemable(name)`: a model file of an item, a group or the root,
      other than the two skipped ones. */
  predicate IsSchemable(name: string) {
    && (EndsWith(name, "CatalogItem.js") || EndsWith(name, "CatalogGroup.js") || EndsWith(name, "CatalogMember.js"))
    && !Contains(name, "ArcGisMapServerCatalogGroup") && !Contains(name, "addUserCatalogMember")
  }

  /** The directory entries `processModels` reads, in their order. */
  function SchemableFiles(names: seq<string>): seq<string> {
    if names == [] then []
    else (if IsSchemable(names[0]) then [names[0]] else []) + SchemableFiles(names[1..])
  }

  lemma {:induction false} SchemableFilesSpec(names: seq<string>)
    ensures forall n :: n in SchemableFiles(names) <==> n in names && IsSchemable(n)
    decreases |names|
  {
    if names != [] {
      SchemableFilesSpec(names[1..]);
      assert names == [names[0]] + names[1..];
    }
  }

  /** `hasTypeId(model)` as the filter of the items file. */
  function WithTypeId(done: seq<Processed>): seq<ClassModel> {
    if done == [] then []
    else (if Truthy(done[0].model.typeId) then [done[0].model] else []) + WithTypeId(done[1..])
  }

  lemma {:induction false} WithTypeIdSpec(done: seq<Processed>)
    ensures |WithTypeId(done)| <= |done|
    ensures forall m :: m in WithTypeId(done) <==>
      exists i :: 0 <= i < |done| && done[i].model == m && Truthy(m.typeId)
    decreases |done|
  {
    if done != [] {
      WithTypeIdSpec(done[1..]);
      forall m ensures m in WithTypeId(done) <==>
        exists i :: 0 <= i < |done| && done[i].model == m && Truthy(m.typeId) {
        if m in WithTypeId(done[1..]) {
          var i :| 0 <= i < |done[1..]| && done[1..][i].model == m && Truthy(m.typeId);
          assert done[i + 1] == done[1..][i];
        }
        if exists i :: 0 <= i < |done| && done[i].model == m && Truthy(m.typeId) {
          var i :| 0 <= i < |done| && done[i].model == m && Truthy(m.typeId);
          if i > 0 {
            assert done[1..][i - 1] == done[i];
          }
        }
      }
    }
  }

  /** `when.map` over the first `n` files with `process`: rejected by the
      first file that rejects, else pending while some file is pending,
      else resolved with every result. */
  function ProcessAll(files: seq<SourceFile>, n: nat, process: SourceFile -> Settled<Processed>)
    : Settled<seq<Processed>>
    requires n <= |files|
  {
    if n == 0 then Resolved([])
    else
      var last := process(files[n - 1]);
      match ProcessAll(files, n - 1, process)
      case Rejected(e) => Rejected(e)
      case Pending => if last.Rejected? then Rejected(last.error) else Pending
      case Resolved(done) =>
        match last
        case Rejected(e) => Rejected(e)
        case Pending => Pending
        case Resolved(p) => Resolved(done + [p])
  }

  /** Every model processed, with the items schema. */
  datatype Generated = Generated(models: seq<Processed>, items: Json)

  /** The per-file step of `processModels`. */
  function FileStep(quiet: bool): SourceFile -> Settled<Processed> {
    f => ProcessFile(f, quiet)
  }

  lemma FileStepIs(files: seq<SourceFile>, quiet: bool)
    ensures forall i :: 0 <= i < |files| ==> FileStep(quiet)(files[i]) == ProcessFile(files[i], quiet)
  {
  }

  /** The run over `files` with the per-file `step`: `when.map`, then the
      items file from the models with a type id once all are done. */
  function RunAll(files: seq<SourceFile>, editor: bool, step: SourceFile -> Settled<Processed>): Settled<Generated> {
    match ProcessAll(files, |files|, step)
    case Rejected(e) => Rejected(e)
    case Pending => Pending
    case Resolved(done) => Resolved(Generated(done, ItemsFile(WithTypeId(done), editor)))
  }

  /** `processModels()`: every file processed (`when.map`), and the items
      file built from the models with a type id once all are done. The
      files are the glob's matches, or the schemable entries of the
      models directory (`SchemableFiles`) under their path; the caller
      supplies them. */
  function ProcessModels(files: seq<SourceFile>, editor: bool, quiet: bool): Settled<Generated> {
    RunAll(files, editor, FileStep(quiet))
  }

  /** `when.map` resolves exactly when every file does, with the i-th
      result from the i-th file; it rejects exactly when some file
      rejects, with the first such error; otherwise it stays pending. */
  lemma {:induction false} ProcessAllSpec(files: seq<SourceFile>, n: nat,
                                          process: SourceFile -> Settled<Processed>)
    requires n <= |files|
    ensures ProcessAll(files, n, process).Resolved? <==> forall i :: 0 <= i < n ==> process(files[i]).Resolved?
    ensures ProcessAll(files, n, process).Rejected? <==> exists i :: 0 <= i < n && process(files[i]).Rejected?
    ensures ProcessAll(files, n, process).Resolved? ==>
      |ProcessAll(files, n, process).value| == n
      && forall i :: 0 <= i < n ==> ProcessAll(files, n, process).value[i] == process(files[i]).value
    ensures ProcessAll(files, n, process).Rejected? ==>
      exists i :: 0 <= i < n && process(files[i]) == Rejected(ProcessAll(files, n, process).error)
                  && forall j :: 0 <= j < i ==> !process(files[j]).Rejected?
    decreases n
  {
    if n > 0 {
      ProcessAllSpec(files, n - 1, process);
      if !ProcessAll(files, n - 1, process).Rejected? && process(files[n - 1]).Rejected? {
        assert process(files[n - 1]) == Rejected(ProcessAll(files, n, process).error);
      }
    }
  }

  /** The run with any per-file step: resolved with the items file over
      the models with a truthy type id, rejected with the first
      rejection, or pending. */
  lemma RunAllRules(files: seq<SourceFile>, editor: bool, step: SourceFile -> Settled<Processed>)
    ensures RunAll(files, editor, step).Resolved? <==> forall i :: 0 <= i < |files| ==> step(files[i]).Resolved?
    ensures RunAll(files, editor, step).Rejected? <==> exists i :: 0 <= i < |files| && step(files[i]).Rejected?
    ensures RunAll(files, editor, step).Rejected? ==>
      exists i :: 0 <= i < |files| && step(files[i]) == Rejected(RunAll(files, editor, step).error)
                  && forall j :: 0 <= j < i ==> !step(files[j]).Rejected?
    ensures RunAll(files, editor, step).Pending? <==>
      (forall i :: 0 <= i < |files| ==> !step(files[i]).Rejected?)
      && exists i :: 0 <= i < |files| && step(files[i]).Pending?
    ensures RunAll(files, editor, step).Resolved? ==>
      var g := RunAll(files, editor, step).value;
      && |g.models| == |files|
      && (forall i :: 0 <= i < |files| ==> g.models[i] == step(files[i]).value)
      && g.items == ItemsFile(WithTypeId(g.models), editor)
      && forall m :: m in WithTypeId(g.models) <==>
           exists i :: 0 <= i < |files| && g.models[i].model == m && Truthy(m.typeId)
  {
    ProcessAllSpec(files, |files|, step);
    if RunAll(files, editor, step).Resolved? {
      WithTypeIdSpec(RunAll(files, editor, step).value.models);
    }
  }

  /** `processModels` resolves exactly when every file is processed, with
      the models in file order, and the items file then lists exactly the
      processed classes whose type id is truthy. It rejects exactly when
      some `processText` throws, with the first such error. A file with no
      parent line never completes, so with no rejection the run stays
      pending: it neither reports that file's error nor writes the items
      file. */
  lemma ProcessModelsRules(files: seq<SourceFile>, editor: bool, quiet: bool)
    ensures ProcessModels(files, editor, quiet).Resolved? <==>
      forall i :: 0 <= i < |files| ==> ProcessFile(files[i], quiet).Resolved?
    ensures ProcessModels(files, editor, quiet).Rejected? <==>
      exists i :: 0 <= i < |files| && ProcessFile(files[i], quiet).Rejected?
    ensures ProcessModels(files, editor, quiet).Rejected? ==>
      exists i :: 0 <= i < |files| && ProcessFile(files[i], quiet) == Rejected(ProcessModels(files, editor, quiet).error)
                  && forall j :: 0 <= j < i ==> !ProcessFile(files[j], quiet).Rejected?
    ensures ProcessModels(files, editor, quiet).Pending? <==>
      (forall i :: 0 <= i < |files| ==> !ProcessFile(files[i], quiet).Rejected?)
      && exists i :: 0 <= i < |files| && ProcessFile(files[i], quiet).Pending?
    ensures ProcessModels(files, editor, quiet).Resolved? ==>
      var g := ProcessModels(files, editor, quiet).value;
      && |g.models| == |files|
      && (forall i :: 0 <= i < |files| ==> g.models[i] == ProcessFile(files[i], quiet).value)
      && g.items == ItemsFile(WithTypeId(g.models), editor)
      && forall m :: m in WithTypeId(g.models) <==>
           exists i :: 0 <= i < |files| && g.models[i].model == m && Truthy(m.typeId)
  {
    FileStepIs(files, quiet);
    RunAllRules(files, editor, FileStep(quiet));
  }
}
