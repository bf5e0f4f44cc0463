/** JSDoc type names and their JSON-schema counterparts: `supportedType`,
    `fromEditorTypes`, `editorType` and `unarray` (the same text in
    generateSchema.js and main.js). */
module TypeNames {
  import opened Outcomes
  import opened JsText
  import opened Json

  /** The element names `supportedType` accepts inside `Array.<...>`. */
  const ArrayElements: set<string> := {"string", "number", "object", "getfeatureinfoformat"}

  /** The ten type names, in lower case, that `supportedType` accepts. */
  const SupportedNames: set<string> :=
    {"boolean", "number", "string", "object", "legendurl", "array"}
    + set x | x in ArrayElements :: "array.<" + x + ">"

  /** The types a JSON-schema property can carry. */
  const SchemaPrimitives: set<string> := {"boolean", "number", "string", "object", "array"}

  /** `supportedType(type)`, the case-insensitive match of
      `^(Boolean|Number|String|Object|LegendUrl|Array(\.<(String|Number|Object|GetFeatureInfoFormat)>)?)$`,
      written alternative by alternative as the expression reads. */
  predicate SupportedType(t: string) {
    SupportedLower(Lower(t))
  }

  /** The expression on the lower-cased name. */
  predicate SupportedLower(l: string) {
    || l == "boolean" || l == "number" || l == "string" || l == "object" || l == "legendurl"
    || (StartsWith(l, "array")
        && (|l| == 5
            || (StartsWith(l[5..], ".<") && EndsWith(l, ">") && |l| >= 8
                && l[7..|l| - 1] in ArrayElements)))
  }

  /** The expression accepts exactly the ten listed names, in any case. */
  lemma SupportedTypeIsListed(t: string)
    ensures SupportedType(t) <==> Lower(t) in SupportedNames
  {
    var l := Lower(t);
    if SupportedLower(l) {
      ListedIfSupported(l);
    }
    if l in SupportedNames {
      SupportedIfListed(l);
    }
  }

  lemma ListedIfSupported(l: string)
    requires SupportedLower(l)
    ensures l in SupportedNames
  {
    if StartsWith(l, "array") && |l| >= 8 {
      var x := l[7..|l| - 1];
      assert l[..7] == l[..5] + l[5..][..2];
      assert "array" + ".<" == "array.<";
      assert l == l[..7] + x + l[|l| - 1..];
    } else if StartsWith(l, "array") && |l| == 5 {
      assert l == l[..5];
    }
  }

  lemma SupportedIfListed(l: string)
    requires l in SupportedNames
    ensures SupportedLower(l)
  {
    if l == "array" {
      assert StartsWith(l, "array");
    } else if l !in {"boolean", "number", "string", "object", "legendurl"} {
      var x :| x in ArrayElements && l == "array.<" + x + ">";
      ArrayOfForm(l, x);
    }
  }

  /** A listed name is a plain one or starts with "array". */
  lemma ListedForms(l: string)
    requires l in SupportedNames
    ensures l in {"boolean", "number", "string", "object", "legendurl", "array"} || StartsWith(l, "array")
  {
    if l !in {"boolean", "number", "string", "object", "legendurl", "array"} {
      var x :| x in ArrayElements && l == "array.<" + x + ">";
      ArrayOfForm(l, x);
    }
  }

  lemma ArrayOfForm(l: string, x: string)
    requires l == "array.<" + x + ">"
    ensures StartsWith(l, "array") && |l| >= 8 && StartsWith(l[5..], ".<") && EndsWith(l, ">")
    ensures l[7..|l| - 1] == x
  {
    assert l[..5] == "array";
    assert l[5..][..2] == ".<";
    assert l[|l| - 1..] == ">";
  }

  /** The index of the last `}` in `line` after position 0, if any. */
  function LastCloseBrace(line: string): (r: Option<nat>)
    ensures r.Some? ==> 1 <= r.value < |line| && line[r.value] == '}'
                        && forall k :: r.value < k < |line| ==> line[k] != '}'
    ensures r.None? ==> forall k :: 1 <= k < |line| ==> line[k] != '}'
    decreases |line|
  {
    if |line| <= 1 then None
    else if line[|line| - 1] == '}' then Some(|line| - 1)
    else LastCloseBrace(line[..|line| - 1])
  }

  /** `defaultValue(found[2], found[3])` for `found = types.match(/(\{(.*)\})?(.*)/)`:
      the text between a leading `{` and the last `}` of the first line,
      or else the whole first line. */
  function EditorTypeBody(s: string): string {
    var line := FirstLine(s);
    if |line| > 0 && line[0] == '{' && LastCloseBrace(line).Some? then
      line[1..LastCloseBrace(line).value]
    else line
  }

  /** One pipe-separated entry, with the bracket suffix forms turned into
      JSDoc's array names. */
  function NormalizeEditorType(t: string): (r: string)
    ensures r != t ==> t in {"Number[]", "String[]", "Object[]"}
  {
    if t == "Number[]" then "Array.<Number>"
    else if t == "String[]" then "Array.<String>"
    else if t == "Object[]" then "Array.<Object>"
    else t
  }

  /** `fromEditorTypes(types)`: the `@editortype` tag read as a JSDoc type
      list. */
  function FromEditorTypes(s: string): (r: seq<string>)
    ensures |r| == CountChar(EditorTypeBody(s), '|') + 1
    ensures forall i :: 0 <= i < |r| ==> r[i] == NormalizeEditorType(Split(EditorTypeBody(s), '|')[i])
  {
    var parts := Split(EditorTypeBody(s), '|');
    seq(|parts|, i requires 0 <= i < |parts| => NormalizeEditorType(parts[i]))
  }

  /** The two forms the tag takes: `{Type|Type} ignored text` yields the
      braced text, a bare `Type|Type` yields itself. */
  lemma EditorTypeForms(t: string, rest: string)
    requires forall i :: 0 <= i < |t| ==> !IsLineTerminator(t[i]) && t[i] != '}'
    requires forall i :: 0 <= i < |rest| ==> !IsLineTerminator(rest[i]) && rest[i] != '}'
    ensures EditorTypeBody("{" + t + "}" + rest) == t
    ensures |rest| == 0 || rest[0] != '{' ==> EditorTypeBody(rest) == rest
  {
    var s := "{" + t + "}" + rest;
    FirstLineAll(s);
    FirstLineAll(rest);
    var j := |t| + 1;
    assert s[j] == '}';
    var b := LastCloseBrace(s);
    assert b.Some?;
    assert b.value == j;
    assert s[1..j] == t;
  }

  /** `editorType(type)`: the schema type a JSDoc type name stands for. */
  function EditorType(t: string): (r: string)
    ensures Contains(Lower(t), "array") ==> r == "array"
    ensures !Contains(Lower(t), "array") && Contains(Lower(t), "legendurl") ==> r == "string"
    ensures !Contains(Lower(t), "array") && !Contains(Lower(t), "legendurl") ==> r == Lower(t)
  {
    if Contains(Lower(t), "array") then "array"
    else if Contains(Lower(t), "legendurl") then "string"
    else Lower(t)
  }

  /** Every type name the generator accepts maps to a JSON-schema
      primitive: `Array` and its element forms to "array", `LegendUrl` to
      "string", and the four plain names to themselves, in lower case. */
  lemma SupportedTypesAreSchemaTypes(t: string)
    requires SupportedType(t)
    ensures EditorType(t) in SchemaPrimitives
    ensures StartsWith(Lower(t), "array") ==> EditorType(t) == "array"
    ensures Lower(t) == "legendurl" ==> EditorType(t) == "string"
    ensures Lower(t) in {"boolean", "number", "string", "object"} ==> EditorType(t) == Lower(t)
  {
    SupportedTypeIsListed(t);
    var l := Lower(t);
    if StartsWith(l, "array") {
      ArrayNameForm(l);
    } else if l == "legendurl" {
      assert Contains(l, "legendurl");
      NotContainsArray(l);
    } else {
      ListedForms(l);
      NotContainsArray(l);
      NotContainsLegend(l);
    }
  }

  /** A name starting with "array" contains it and is none of the plain names. */
  lemma ArrayNameForm(l: string)
    requires StartsWith(l, "array")
    ensures Contains(l, "array") && l !in {"boolean", "number", "string", "object", "legendurl"}
  {
    assert l[0] == 'a';
  }

  lemma NotContainsArray(l: string)
    requires l in {"boolean", "number", "string", "object", "legendurl"}
    ensures !Contains(l, "array")
  {
    if Contains(l, "array") {
      ContainedChar(l, "array", 4);
      assert false;
    }
  }

  lemma NotContainsLegend(l: string)
    requires l in {"boolean", "number", "string", "object"}
    ensures !Contains(l, "legendurl")
  {
    if Contains(l, "legendurl") {
      ContainedChar(l, "legendurl", 5);
      assert false;
    }
  }

  /** `unarray(arr)`: a one-element list stands for its element. */
  function Unarray(arr: seq<Json>): Json {
    if |arr| == 1 then arr[0] else JArr(arr)
  }

  /** Reading a value as a list (`[x]` for a non-array) undoes `unarray`
      on every list that is not a single nested array. */
  function AsList(j: Json): seq<Json> {
    if j.JArr? then j.items else [j]
  }

  lemma UnarrayRoundTrip(arr: seq<Json>)
    requires |arr| != 1 || !arr[0].JArr?
    ensures AsList(Unarray(arr)) == arr
    ensures |arr| == 1 <==> !Unarray(arr).JArr?
  {
  }
}
