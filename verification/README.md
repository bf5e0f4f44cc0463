# generate-terriajs-schema, modelled in Dafny

generate-terriajs-schema reads the catalog model classes of TerriaJS
(`lib/Models/*CatalogItem.js`, `*CatalogGroup.js`, `CatalogMember.js`) and writes a
JSON-Schema file per class. A JSON Editor uses those files to edit TerriaJS catalog
files. For each class the generator:

- finds the line where the class declares its parent (`inherit(Parent, …)`);
- takes the JSDoc records of the class's members that are documented above that line;
- turns each record into a property schema: type, readable title, cleaned description,
  editor format and array items;
- builds the class schema, with its `allOf` list of ancestor schemas;
- for a class with a type id, builds a "shell" schema that pins the type;
- builds an `items.json` list schema over all the classes.

There are two versions of the pipeline, and both are modelled:

- `generateSchema.js`, the current one, is modelled in `GenerateSchema`.
- `main.js`, the earlier command-line script, is modelled in `LegacyMain`. It adds `#`
  to titles, does not rewrite `{@link}`s, pins the type inside the class schema
  itself, lists the classes in `items.json` through a `oneOf`, and skips files whose
  parent line it cannot find.

Both files share the helpers `defaultValue`, `getTag`, `titleify`, `eq`,
`supportedType`, `fromEditorTypes`, `editorType`, `editorArrayItems`,
`findInherits`, `findClassProp`, `getClassProps` and `unarray`. Their text is
the same in both files up to whitespace, with two exceptions that do not change
what they return: `editorArrayItems` in `main.js` prints the items title without
the `quiet` guard, and `getClassProps` in `main.js` passes an unused `this` as
the thisArg of its `map`. The rows below cite the copy in `generateSchema.js`.

How JavaScript is modelled:

- A JavaScript value is the `Json` datatype. `JUndef` is a property that holds
  `undefined`, which `JSON.stringify` drops.
- An object is its list of members in insertion order. `Put` is `o[k] = v`: it
  replaces an existing member in place and appends a new one. `Remove` is `delete`.
- A value that may be `undefined` is an `Option`.
- A throw, explicit or a TypeError, is the `Err` side of a `Result` with a
  `Failure` saying which throw it is.

Modules, in dependency order:

- `Outcomes`: `Option` and `Result`.
- `JsText`: the string built-ins the code relies on: case mapping, `split`/`join`,
  `indexOf`, and the greedy runs of the regular expressions.
- `Json`: values and objects.
- `Comments`: JSDoc records, `defaultValue`, `eq`, `getTag` and `findClassProp`.
- `Titles`: `titleify`.
- `TypeNames`: `supportedType`, `fromEditorTypes`, `editorType` and `unarray`.
- `Descriptions`: the description clean-up and `replaceLinks`.
- `Hierarchy`: `findInherits`.
- `ClassTitles`: the `Catalog…` suffix cut from class names.
- `ClassProps`: `getClassProps`.
- `PropertySchema`: `editorArrayItems`, the property object, `specialProps`, and the
  store loop.
- `GenerateSchema`: `processText`, `makeShellFile`, `makeItemsFile`,
  `processModelFile` and `processModels`.
- `LegacyMain`: `process`, `writeItemsFile`, `processModel` and the directory scan
  of `main.js`.

Code that changes state step by step is written as methods with loops, each proved
equal to a specification function. The properties are proved about those functions.
This covers `titleify`, `eq`, `findInherits`, `specialProps`, the `forEach` bodies
and loops, `processText`/`process`, `makeShellFile`, `processModelFile`/`processModel`
and the directory scan.

## Model

| member | source | states |
|---|---|---|
| JsText.CaseRoundTrips | generateSchema.js:40-43 | lowering after raising is lowering; a capital survives being lowered and raised again |
| JsText.CaseMapsRoundTrip | generateSchema.js:40-50 | `toUpperCase` and `toLowerCase` on a string change only letter case, leave no letter of the other case, and lowering after raising is lowering (and the reverse) |
| JsText.ContainsAt | generateSchema.js:107-109 | a text that holds `p` at some position contains `p` (what an unanchored literal `match` finds) |
| JsText.ContainedChar | generateSchema.js:107-109 | every character of a contained text occurs in the container |
| JsText.FirstLine | generateSchema.js:93 | what `.*` takes is a prefix free of line terminators, stopped only by one |
| JsText.FirstLineAll | generateSchema.js:93 | on a text with no line terminator, `.*` takes all of it |
| JsText.RunLen | generateSchema.js:214-215 | a greedy `[^…]*` run is the longest prefix free of the stop characters |
| JsText.RunLenOf | generateSchema.js:214-215 | the run over `x + rest` is exactly `x` when `x` holds no stop and `rest` starts with one |
| JsText.WsRun | generateSchema.js:145 | a greedy `\s*` run is the longest whitespace prefix |
| JsText.WsRunOf | generateSchema.js:145 | the whitespace run over `x + rest` is exactly `x` when `rest` starts with a non-space |
| JsText.Split | generateSchema.js:60 | `split` with a one-character separator gives one piece more than there are separators, none holding the separator |
| JsText.JoinSplit | generateSchema.js:48-54 | joining the pieces of a split gives the text back |
| JsText.SplitAfterWord | generateSchema.js:48 | a separator-free word glued to a text is put in front of the text's first piece |
| JsText.SplitJoin | generateSchema.js:48-54 | splitting the join of separator-free pieces gives the pieces back |
| JsText.JoinCaseEq | generateSchema.js:48-54 | joining pieces that differ only in letter case gives texts that differ only in letter case |
| Json.Lookup | generateSchema.js:301 | `o[k]` is defined exactly for the object's own names |
| Json.Put | generateSchema.js:301 | after `o[k] = v`, `o[k]` is `v` |
| Json.PutOther | generateSchema.js:301 | an assignment leaves every other name's value alone |
| Json.PutSpec | generateSchema.js:301 | an assignment leaves other names alone, keeps an existing name in its place and appends a new one |
| Json.PutKeys | generateSchema.js:301 | `Object.keys` after an assignment: unchanged for an existing name, the new name last otherwise |
| Json.PutKeepsLength | generateSchema.js:301 | assigning an existing name does not grow the object |
| Json.Remove | generateSchema.js:303 | after `delete o[k]`, `o[k]` is undefined; deleting an absent name changes nothing |
| Json.RemoveSpec | generateSchema.js:303 | a deletion changes no other name's value and removes only that name |
| Json.PutAllLookup | generateSchema.js:202-206 | after the keys of `src` are copied one by one, each copied name holds `src`'s value and every other name keeps its own |
| Json.PutAppends | generateSchema.js:287-297 | assigning a name the object lacks appends it |
| Json.PutKeepsPlaces | generateSchema.js:301 | an assignment never moves the names already there |
| Json.PutAllKeepsOrder | generateSchema.js:202-206 | copying keys in never moves the object's existing names |
| Comments.DefaultValue | generateSchema.js:20-27 | the first defined of the three arguments, `undefined` only when all three are |
| Comments.Eq | generateSchema.js:58-70 | the `eq(field, value)` loop is true exactly when following the dotted path from `x` reaches the string `value` |
| Comments.WalkUndef | generateSchema.js:61-66 | once the walk reaches `undefined`, it stays `undefined` |
| Comments.EqFollowsPath | generateSchema.js:58-70 | `eq('a.b', v)(x)` tests `x.a.b === v`, and `eq('kind', v)(x)` tests `x.kind === v` |
| Comments.EqOnRecords | generateSchema.js:58-70 | `eq('kind', v)`, `eq('name', v)` and `eq('tag', v)` hold exactly when the record's `kind`, `name` or the tag's `tag` is `v`, which is the test `FirstClass`, `Named` and `GetTag` make |
| Comments.GetTagSpec | generateSchema.js:30-36 | `getTag` is the value of the FIRST custom tag of that name, and the fallback when there is none |
| Comments.LatestDefinedSpec | generateSchema.js:167-170 | the reduce keeps the last defined value, or its start value when none is defined |
| Comments.ReduceNamed | generateSchema.js:167-170 | reducing over the records named after the class equals reducing over every record's contribution |
| Comments.FindClassPropIsLastDefined | generateSchema.js:163-172 | `findClassProp` is the LAST value defined among the records named after the class (tag, else fallback field), and `undefined` only when none defines one |
| Titles.Titleify | generateSchema.js:39-55 | the loop throws exactly for the empty name, and otherwise returns the title of the name |
| Titles.SpacingSnoc | generateSchema.js:41-47 | one more turn of the loop appends that character's piece |
| Titles.SpacingShape | generateSchema.js:41-47 | the loop adds exactly one character per capital and leaves no capital behind |
| Titles.DecamelSpacing | generateSchema.js:41-47 | on a name without spaces, the loop can be undone: a space before a letter stands for that letter in capitals |
| Titles.UpperAbbrevsRaises | generateSchema.js:48-54 | the abbreviation step only ever raises letters |
| Titles.TitleShape | generateSchema.js:39-55 | the title starts with the capitalised first letter, is one character longer per later capital, and is, up to raised letters, the spaced name, which reads back as the name |
| Titles.TitleWords | generateSchema.js:48-54 | a word of the title is upper-cased exactly when it is, in any letter case, one of the twelve abbreviations |
| Titles.SplitWords | generateSchema.js:48 | splitting the join of space-free words gives the words back |
| Titles.TitleExampleShort | generateSchema.js:39-55 | "wmsUrl" has the title "WMS URL" |
| Titles.TitleExampleLong | generateSchema.js:38-55 | "myWmsPropName" has the title "My WMS prop name", the example in the source's comment |
| Titles.TitleNotIdempotent | generateSchema.js:39-55 | a title run through `titleify` again changes: "WMS URL" becomes five characters longer |
| TypeNames.SupportedTypeIsListed | generateSchema.js:86-88 | `supportedType` accepts exactly the ten listed names, in any letter case |
| TypeNames.ListedForms | generateSchema.js:87 | an accepted name is one of the plain names or starts with "array" |
| TypeNames.ArrayOfForm | generateSchema.js:87 | `array.<X>` starts with "array", then `.<`, ends with `>` and holds `X` between them |
| TypeNames.LastCloseBrace | generateSchema.js:93 | the greedy `(.*)\}` stops at the last `}` of the line |
| TypeNames.NormalizeEditorType | generateSchema.js:95-101 | an entry changes only when it is one of `Number[]`, `String[]` and `Object[]` |
| TypeNames.FromEditorTypes | generateSchema.js:91-103 | one type per `|`-separated piece of the tag's body, each piece normalised |
| TypeNames.EditorTypeForms | generateSchema.js:92-94 | `{T} ignored text` yields `T`, and a bare `T` yields itself |
| TypeNames.SupportedTypesAreSchemaTypes | generateSchema.js:86-114 | every accepted name maps to a JSON-Schema primitive: the `Array` forms to "array", `LegendUrl` to "string", and Boolean, Number, String and Object to themselves in lower case |
| TypeNames.UnarrayRoundTrip | generateSchema.js:194-196 | reading the result as a list undoes `unarray` (except for a single nested array); the result is a non-array exactly for a one-element list |
| Descriptions.FirstObservable | generateSchema.js:284 | the match found is the leftmost position where `\s*This property is observable.` matches |
| Descriptions.ObservableEnd | generateSchema.js:284 | a match ends after it starts and within the text |
| Descriptions.NoObservable | generateSchema.js:284 | a text without the sentence is left as it was |
| Descriptions.ObservableContained | generateSchema.js:284 | a match means the text contains the sentence |
| Descriptions.NoObservableBefore | generateSchema.js:284 | no match starts inside text that ends in a non-space and holds no copy of the sentence |
| Descriptions.ObservableAfterSpace | generateSchema.js:284 | the sentence after a whitespace run matches there, taking the run, the sentence and one more character |
| Descriptions.StripSentence | generateSchema.js:284 | `a + spaces + sentence + c + b` becomes `a + b`: the spaces and the one character after the sentence go with it |
| Descriptions.OpeningsKept | generateSchema.js:282-283 | text not starting "Gets or sets " keeps its start |
| Descriptions.NormalizeKeepsPlain | generateSchema.js:281-284 | a description with neither opening nor the sentence is left as written |
| Descriptions.NormalizeOpenings | generateSchema.js:282-283 | "Gets or sets the X" reads "The X", and "Gets or sets a X" reads "A X" |
| Descriptions.HashLink | generateSchema.js:214 | a match of the hash-link expression has a positive length within the text |
| Descriptions.LabelAt | generateSchema.js:215 | the caption group is a non-empty run free of `}` and closed by `}` |
| Descriptions.PipeLink | generateSchema.js:215 | a match of the pipe-link expression opens with `{@link ` in any case, closes with `}`, and has a non-empty caption |
| Descriptions.NoLinksUnchanged | generateSchema.js:210-216 | text in which no `{@link ` opens, in any letter case, passes both rewrites, and so `replaceLinks`, unchanged; other inline tags are kept |
| Descriptions.CodeTagUnchanged | generateSchema.js:214-215 | `see {@code x}` is kept as written |
| Descriptions.PlainPrefix | generateSchema.js:214-215 | text without `{` passes both rewrites unchanged in front of what follows |
| Descriptions.HashLinkOf | generateSchema.js:214 | the hash expression matches `{@link a#b}` with target `a` and member `b` |
| Descriptions.HashLinkForm | generateSchema.js:210-216 | `{@link A#b}` inside plain text reads "A's b" |
| Descriptions.PipeLinkOf | generateSchema.js:214-215 | `{@link target|caption}` is no hash link, and is a pipe link with that caption |
| Descriptions.PipeLinkHashPass | generateSchema.js:214 | the hash pass leaves a pipe link in plain text alone |
| Descriptions.PipeLinkPipePass | generateSchema.js:215 | the pipe pass keeps only the caption of a pipe link |
| Descriptions.PipeLinkForm | generateSchema.js:210-216 | `{@link target|Label}` inside plain text reads "Label" |
| Descriptions.PlainMatch | generateSchema.js:214-215 | `{@link T}` is no hash link, and is a pipe link whose caption is `T` |
| Descriptions.PlainLinkForm | generateSchema.js:210-216 | `{@link T}` inside plain text reads "T" |
| Hierarchy.IdentRun | generateSchema.js:145 | the identifier run is the longest prefix of `[A-Za-z0-9_-]` characters |
| Hierarchy.Capture | generateSchema.js:145 | the greedy group keeps the longest length after which `.*Catalog` matches, and is 0 when none does |
| Hierarchy.InheritAt | generateSchema.js:145 | a match at a position starts with `inherit` and captures a non-empty identifier |
| Hierarchy.InheritMatchLeftmost | generateSchema.js:155 | `line.match` finds the leftmost position where the pattern matches, and nothing when it matches nowhere |
| Hierarchy.FindInherits | generateSchema.js:143-161 | the loop over `fulltext.split('\n')` returns the first matching line with its capture, and throws when no line matches |
| Hierarchy.FirstMatchingLineSpec | generateSchema.js:146-160 | a line is found exactly when some line matches; it matches, with the parent captured there; no earlier line matches; and the parent is undefined exactly for `CatalogMember.js` |
| Hierarchy.InheritLine | generateSchema.js:145 | an (indented) `inherit(Parent, …Catalog…)` line yields the whole identifier `Parent` |
| Hierarchy.InheritAtForm | generateSchema.js:145 | the pattern at a position where the line reads `inherit`, spaces, `(`, an identifier and a rest with "Catalog" captures that identifier |
| Hierarchy.CaptureBacktracks | generateSchema.js:145 | when no "Catalog" follows the whole identifier, the group gives characters back: `inherit(ImageryLayerCatalogItem, X)` yields `ImageryLayer` |
| Hierarchy.CaptureLongest | generateSchema.js:145 | the capture is the longest length that lets the rest match |
| ClassTitles.FirstCatalog | generateSchema.js:230 | the leftmost position where `Catalog(?!Member)` (or, for main.js, `Catalog`) starts |
| ClassTitles.NoCatalogKept | generateSchema.js:230 | a name without "Catalog" is its own title |
| ClassTitles.StripSuffix | generateSchema.js:230 | `a + "Catalog" + t` is cut down to `a`, unless the lookahead spares a following "Member" |
| ClassTitles.RootClassTitles | generateSchema.js:230 | the lookahead leaves "CatalogMember" whole; main.js's plain expression leaves nothing of it |
| ClassProps.SelectConcat | generateSchema.js:176-178 | the first filter works record by record |
| ClassProps.KeepConcat | generateSchema.js:188-191 | the last filter works record by record |
| ClassProps.GetClassPropsConcat | generateSchema.js:175-192 | the result for a concatenation is the concatenation of the results, so the input order is kept |
| ClassProps.GetClassPropsSingle | generateSchema.js:175-192 | a single record yields itself, resolved, exactly when it is a member of the class above the inherit line and survives the last filter |
| ClassProps.GetClassPropsMembers | generateSchema.js:175-192 | a returned record comes from a selected record, resolved, that survives; every such record is returned |
| ClassProps.TypeRules | generateSchema.js:180-190 | an `@editortype` tag replaces the types and keeps the record exactly when its text is not empty; without it a `Rectangle` becomes two array types and is kept, and a record with no type is dropped |
| PropertySchema.ArrayItemType | generateSchema.js:118-127 | the item-type table has an entry exactly for the five array keys |
| PropertySchema.EditorArrayItems | generateSchema.js:117-139 | `editorArrayItems` throws exactly for a key outside the table, naming that key, and otherwise returns an object |
| PropertySchema.ItemsRule | generateSchema.js:128-131 | the item type is the `@editoritemstype` tag or the table's entry; the title and description come from their tags |
| PropertySchema.ItemsEnum | generateSchema.js:135-137 | the `enum` of output formats is there exactly when `prop.type` is the one string `Array.<GetFeatureInfoFormat>` |
| PropertySchema.ItemsOrder | generateSchema.js:128-131 | the items object lists type, title and description first |
| PropertySchema.ListItems | generateSchema.js:124-137 | with the record's list of type names as the key, the lookup succeeds exactly for a one-name list naming a table entry, and the `enum` is never added |
| PropertySchema.SupportedOnly | generateSchema.js:279 | `types.filter(supportedType)` holds a name exactly when the input holds it and it is accepted, and is no longer than the input |
| PropertySchema.SupportedOnlyConcat | generateSchema.js:279 | the filter keeps input order: filtering a concatenation concatenates the filtered parts |
| PropertySchema.SchemaTypePrimitive | generateSchema.js:279 | a property's type is a JSON-Schema primitive or a list of them, and is a single one exactly when one accepted name is left |
| PropertySchema.BuildProperty | generateSchema.js:278-298 | the statements that build `p` compute the specified property object |
| PropertySchema.DefaultFormatRule | generateSchema.js:286-293 | the format default touches only `format` and `items`: "tabs" and items for an array, "checkbox" for a boolean, nothing otherwise (the textarea test reads the absent `p.name`) |
| PropertySchema.CoreHead | generateSchema.js:278-285 | the first three members are type, title and description, holding the schema type, the title and the description |
| PropertySchema.FormatRule | generateSchema.js:286-298 | `format` is the `@editorformat` tag, else "tabs"/"checkbox"/undefined by type; `items` exactly for an array; `options` exactly when the final format is "textarea" |
| PropertySchema.CoreErrors | generateSchema.js:286-288 | building the property fails exactly at an array type whose joined names are no table key, with that key in the error |
| PropertySchema.SpecialProps | main.js:206-243 | the loop over the entry's keys computes the merged property |
| PropertySchema.SpecialTablesUnique | main.js:210-236 | no entry of the special table repeats a key |
| PropertySchema.SpecialMergeSpec | main.js:237-242 | a special name's entry overwrites each key it lists, every other key keeps its value and its place; any other name changes nothing |
| PropertySchema.FoldPrefixErr | generateSchema.js:277-302 | once a turn has thrown, the loop's result is that throw |
| PropertySchema.FoldErrors | generateSchema.js:277-302 | the loop fails exactly when some turn throws, with the first such error |
| PropertySchema.FoldKeys | generateSchema.js:301 | the stored names are exactly the records' names |
| PropertySchema.FoldLastWins | generateSchema.js:301 | a name holds the entry of the LAST record with that name |
| GenerateSchema.PropertyEntry | generateSchema.js:278-301 | the `forEach` body computes the specified entry |
| GenerateSchema.EntryErrors | generateSchema.js:278-300 | an entry fails for an empty name, then for a missing description, then for an array type that is no table key, and for nothing else |
| GenerateSchema.SpecialKeysOf | main.js:210-236 | no special entry overwrites a title or a description |
| GenerateSchema.EntryRules | generateSchema.js:278-301 | an entry starts with type, title and description; the title is the tag or `titleify(name)`; the description is the tag or the normalised text, with its links rewritten; the type is the schema type unless the name is special, whose entry overwrites the keys it lists |
| GenerateSchema.FirstClassSpec | generateSchema.js:246-247 | the class record is the first record of kind "class"; there is none exactly when no record has that kind |
| GenerateSchema.AllOfShape | generateSchema.js:257-268 | no `allOf` for the root; a throw exactly for another class without a parent; otherwise the kind's schema first (for a prefixed item or group), the parent's next to last when it is not a root, and the root's last |
| GenerateSchema.ClassPropertyNames | generateSchema.js:277-303 | a name is stored exactly when some selected record has it, except `typeName` |
| GenerateSchema.ClassPropertyLastWins | generateSchema.js:277-303 | a stored name holds the entry of the last selected record with that name |
| GenerateSchema.ClassPropertiesErrors | generateSchema.js:277-302 | the properties are built exactly when every entry is, else the first failure is reported |
| GenerateSchema.MakeShellFile | generateSchema.js:218-239 | the statements of `makeShellFile` compute the specified shell |
| GenerateSchema.ShellRules | generateSchema.js:218-239 | the shell throws exactly without an `allOf`; otherwise it pins the type id in a hidden string property, has the `items` reference exactly for `CatalogGroup`, lists the ancestors then the class, and is titled by the tag, else the type name, else the shortened class name |
| GenerateSchema.BuildAllOf | generateSchema.js:257-268 | the `allOf` pushes compute the specified list |
| GenerateSchema.StoreAll | generateSchema.js:277-302 | the `forEach` loop computes the fold of its entries |
| GenerateSchema.FillProperties | generateSchema.js:277-303 | the loop and the `delete` compute the stored properties |
| GenerateSchema.PaddingRule | generateSchema.js:305 | the console-line padding throws a RangeError exactly for a name over 32 characters, and otherwise is spaces that carry the name to column 31 |
| GenerateSchema.ProcessText | generateSchema.js:245-314 | `processText` computes the specified class schema and shell, or the specified throw, including the padding's RangeError unless `argv.quiet` |
| GenerateSchema.NoClassCommentIff | generateSchema.js:246-247 | "No @class comment" is thrown exactly when no record has kind "class" |
| GenerateSchema.ClassFilesSucceed | generateSchema.js:245-314 | with a class record, `processText` succeeds exactly when the class is the root or has a parent, every entry is built, `argv.quiet` is set or the name has at most 32 characters, and the root has no truthy type id; a longer name otherwise throws the RangeError |
| GenerateSchema.ClassSchemaShape | generateSchema.js:250-313 | the schema is an object with defaults `name`, `type`, `url`, the stored properties, and an `allOf` exactly for a non-root class; the shell is written exactly for a truthy type id |
| GenerateSchema.GroupPart | generateSchema.js:327-329 | each part holds only group references, or only other references |
| GenerateSchema.GroupFirstPermutes | generateSchema.js:372-373 | the editor's `oneOf` order is a permutation of the references |
| GenerateSchema.ItemsFileRules | generateSchema.js:326-379 | a tab array of objects that require name and type and meet the root schema; the editor's `oneOf` holds each shell reference once, the group's first; validation's `allOf` is the root followed by one guarded choice per class in order |
| GenerateSchema.SegmentStart | generateSchema.js:388 | the start of the last path segment follows the last `/` |
| GenerateSchema.BaseNameOf | generateSchema.js:388 | the base name of `dir/name.js` is `name` |
| GenerateSchema.ProcessFileRules | generateSchema.js:386-419 | a file stays pending exactly when it has no parent line (the lifted promise settles only through the callback); otherwise it rejects or resolves as `processText` does |
| GenerateSchema.ProcessModelFile | generateSchema.js:386-419 | `processModelFile` computes the scan and then `processText`: pending on a scan throw, rejected on a `processText` throw |
| GenerateSchema.SchemableFilesSpec | generateSchema.js:440-451 | the directory filter keeps exactly the schemable entries |
| GenerateSchema.WithTypeIdSpec | generateSchema.js:437-439 | the items file lists exactly the processed classes whose type id is truthy |
| GenerateSchema.ProcessAllSpec | generateSchema.js:454 | `when.map` resolves exactly when every file does, with the i-th result from the i-th file, rejects exactly when some file rejects, with the first such error, and otherwise stays pending |
| GenerateSchema.ProcessModelsRules | generateSchema.js:436-459 | the run resolves exactly when every file is processed, and writes the items file over the classes with a truthy type id; it rejects exactly when some `processText` throws, with the first error; otherwise (a file without a parent line) it stays pending and writes no items file |
| LegacyMain.LegacyPropertyEntry | main.js:278-302 | the `forEach` body of `process` computes the specified entry |
| LegacyMain.LegacyEntryErrors | main.js:278-302 | main.js rejects exactly the records generateSchema.js rejects, with the same error |
| LegacyMain.LegacyEntryRules | main.js:279-302 | the title is `#` followed by the tag or `titleify(name)`; the description is the tag or the normalised text, links untouched; type and special keys as in generateSchema.js |
| LegacyMain.LegacyPropertyNames | main.js:278-313 | a name is stored exactly when it is not `typeName` and some record has it or it is `type` on a pinned class |
| LegacyMain.LegacyPinnedType | main.js:305-313 | a pinned class (type id defined and not "group") has the hidden type property whatever the records say; `typeName` is never stored |
| LegacyMain.LegacyPropertyLastWins | main.js:278-313 | any other stored name holds the entry of the last record with that name |
| LegacyMain.LegacyFillProperties | main.js:278-313 | the loop, the pinned type and the `delete` compute the stored properties |
| LegacyMain.FillClass | main.js:251-313 | the statements after the `allOf` pushes compute the class schema |
| LegacyMain.Process | main.js:245-318 | `process` computes the specified schema, or the specified throw, including the padding's RangeError |
| LegacyMain.LegacySchemaErrors | main.js:245-313 | a throw (the TypeError of reading `name` of `undefined`) exactly when no record has kind "class"; with one, success exactly when the class is the root or has a parent, every entry is built and the name has at most 32 characters; a longer name otherwise throws the RangeError |
| LegacyMain.LegacyOutShape | main.js:251-273 | the schema holds type, defaults, properties and description; the root is titled "CatalogMember" and has no `allOf`; another class is titled by the tag, else the type name, else its name cut at "Catalog", and ends with its `allOf` |
| LegacyMain.LegacyItemsShape | main.js:329-347 | the list schema is a tab array of objects that meet the root schema and require name and type; their `oneOf` is the group wrapper's schema first, then each class's `<name>.json` in the given order |
| LegacyMain.StripJsSchemable | main.js:389-394 | the name of a schemable entry is the entry without its `.js` |
| LegacyMain.ProcessModel | main.js:349-377 | `processModel` skips a file whose hierarchy line is missing, stops the run when `process` throws, and otherwise writes the schema |
| LegacyMain.ChosenSpec | main.js:389-391 | the directory filter keeps exactly the schemable entries |
| LegacyMain.CollectSpec | main.js:392-407 | the scan stops exactly when some entry's `process` throws, with the first such error; otherwise it holds exactly the written schemas |
| LegacyMain.CollectAll | main.js:392-407 | the loop over the chosen entries computes the collected outcomes |
| LegacyMain.CollectPrefixErr | main.js:369-372 | once a turn has stopped the run, later turns change nothing |
| LegacyMain.PinnedModelsSpec | main.js:397-402 | the callback keeps exactly the written classes that are pinned |
| LegacyMain.Generate | main.js:386-408 | the directory scan computes the specified run |
| LegacyMain.LegacyRunErrors | main.js:386-408 | the run stops exactly when `process` throws for some chosen entry, and then with the first such error |
| LegacyMain.ChosenWritten | main.js:389-407 | a completed scan holds exactly the schemas written for chosen entries |
| LegacyMain.LegacyRunItems | main.js:386-408 | `items.json` is written exactly when some entry was chosen, and lists exactly the written, pinned classes |

## Left out

- File-system and process I/O: reading and writing files, `makeDir`, `copyStaticFiles`,
  the `manual` copy, `glob`/`sourceGlob`, and the version sub-directory from
  `package.json`. Each file arrives as an input record (its name, text and JSDoc
  records), and each written file is a result value.
- `getTypeProp` and the Esprima parse. The `type` and `typeName` values a class's
  source defines are inputs of the model.
- The `jsdoc-parse` run and `JSON.parse` of its output. The records are inputs.
- Console output itself. Only the RangeError its padding can throw is modelled, with
  `argv.quiet` as a parameter of `GenerateSchema.ClassFiles`.
- Case mapping covers ASCII letters only, which is what the model-file names and
  tags use.
- `specialProperties.json` is not part of this model. The table inlined in main.js
  (`rectangle`, `blacklist`, `whitelist`) stands for it in both pipelines.
- GenerateSchema.GroupFirst: the editor-mode `sort(sortModels)` uses a comparator
  that ignores its second argument. That makes the order engine-dependent. The
  model puts the group's reference first and keeps the rest in input order, and
  only the permutation and the group-first rule are claimed.
- Asynchronous completion order: `when.map` and the readdir callbacks run in input
  order in the model, so a rejected run reports the first rejection in file order.
- In main.js, the schemas already written before a throw in `process` stops the
  run are not modelled as written; the run is just an error.
- `path.basename` covers `/` as the separator; Windows separators are not modelled.
- The validation-mode `modelToItem` branch is modelled as written. The editor-mode
  branch inside `modelToItem` is unreachable and is left out.
- JavaScript's ordering of integer-like object keys ahead of other keys is not
  modelled. Objects keep insertion order.
- The in-place `x.type` overwrite in `getClassProps` is modelled as a fresh `Prop`
  value. Nothing reads the record's old `type` afterwards.
- A custom tag without a value (`{tag: 'x'}` with no `value`) is not modelled.
  Every tag carries a string.
- src/generateFromTypeScript.ts and src/generateFromTypescript.ts are not part of
  this model.

Behaviours of the code that a reader might not expect, all modelled as written:

- Titles are not idempotent (`Titles.TitleNotIdempotent`).
- `findClassProp` keeps the LAST defined value among the class's records, not the
  first non-empty one (`Comments.FindClassPropIsLastDefined`).
- `editorArrayItems` compares `prop.type` with `===` against a string, but every
  caller passes the array of type names. So the output-format `enum` is never added
  by either pipeline (`PropertySchema.ListItems`), and an array property with two or
  more types throws "Not an array type".
- A class name over 32 characters makes the console-line padding throw a RangeError
  (`GenerateSchema.PaddingRule`): in main.js always, in generateSchema.js unless
  `argv.quiet` is set.
- In generateSchema.js a model file without a parent line never completes, so the run
  neither resolves nor reports it (`GenerateSchema.ProcessModelsRules`).
- `p.name` is never set, so the `textarea` default for a description-typed string
  never fires (`PropertySchema.DefaultFormatRule`).
