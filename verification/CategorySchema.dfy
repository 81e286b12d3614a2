// The category schema editor: JSON Schema documents are turned into a list of
// form fields where that is possible, and fields into schemas.  Field ids, which
// are random, are left out: fields are compared up to ids.
module CategorySchema {
  import opened Wrappers

  // ---------------------------------------------------------------- JSON

  /** A number: a double by its bits, negative zero taken as zero, or an infinity or no number at all. */
  datatype Num = Finite(bits: nat) | NotFinite

  datatype Json =
    | Null
    | Bool(flag: bool)
    | Number(num: Num)
    | Str(text: string)
    | Arr(items: seq<Json>)
    | Obj(members: Object)

  /** An object: its keys in the order they were added, and their values. */
  datatype Object = Object(keys: seq<string>, at: map<string, Json>) {
    function Put(k: string, v: Json): Object {
      Object(if k in at then keys else keys + [k], at[k := v])
    }

    lemma PutValid(k: string, v: Json)
      requires Valid()
      ensures Put(k, v).Valid()
    {
    }

    ghost predicate Valid() {
      && (forall i, j :: 0 <= i < j < |keys| ==> keys[i] != keys[j])
      && (forall k :: k in keys <==> k in at)
    }
  }

  const EMPTY := Object([], map[])

  /** What `JSON.stringify` prints so that `JSON.parse` reads it back: no infinite numbers anywhere. */
  ghost predicate Printable(v: Json) {
    match v
    case Number(num) => num.Finite?
    case Arr(items) => forall k :: 0 <= k < |items| ==> Printable(items[k])
    case Obj(o) => o.Valid() && forall k :: k in o.at ==> Printable(o.at[k])
    case _ => true
  }

  /** The parts of JavaScript that the editor relies on. */
  datatype Script = Script(
    compact: Json -> string,           // JSON.stringify(v)
    pretty: Json -> string,          // JSON.stringify(v, null, 2)
    parse: string -> Option<Json>,   // JSON.parse; None when it throws
    number: string -> Num,           // Number(s)
    trim: string -> string,
    isoDate: string -> bool)         // the calendar date test of isIsoDate

  ghost predicate Lawful(js: Script) {
    && (forall v :: Printable(v) ==> js.parse(js.compact(v)) == Some(v) && js.parse(js.pretty(v)) == Some(v))
    && (forall s :: js.parse(s).Some? ==> js.parse(js.trim(s)) == js.parse(s))
    && js.trim("") == "" && (forall s :: js.trim(js.trim(s)) == js.trim(s)) && (forall s :: js.number(js.trim(s)) == js.number(s))
    && js.compact(Bool(true)) == "true" && js.compact(Bool(false)) == "false"
    && (forall v, w :: js.parse(js.compact(v)) == Some(w) ==> Printable(w))
  }

  // ---------------------------------------------------------------- the words of JSON Schema

  datatype Word =
    | Type | Title | Description | Default | Format | Enum | Items | PropertiesWord | RequiredWord
    | StringWord | NumberWord | BooleanWord | ArrayWord | ObjectWord | DateWord

  function Name(w: Word): string {
    match w
    case Type => "type"
    case Title => "title"
    case Description => "description"
    case Default => "default"
    case Format => "format"
    case Enum => "enum"
    case Items => "items"
    case PropertiesWord => "properties"
    case RequiredWord => "required"
    case StringWord => "string"
    case NumberWord => "number"
    case BooleanWord => "boolean"
    case ArrayWord => "array"
    case ObjectWord => "object"
    case DateWord => "date"
  }

  /** A word can be told from the length of its name and the first letter. */
  ghost function WordOf(s: string): Option<Word> {
    if s == "" then None
    else
      match |s|
      case 4 => Some(if s[0] == 't' then Type else if s[0] == 'e' then Enum else DateWord)
      case 5 => Some(if s[0] == 't' then Title else if s[0] == 'i' then Items else ArrayWord)
      case 6 =>
        Some(if s[0] == 'f' then Format else if s[0] == 's' then StringWord else if s[0] == 'n' then NumberWord else ObjectWord)
      case 7 => Some(if s[0] == 'd' then Default else BooleanWord)
      case 8 => Some(RequiredWord)
      case 10 => Some(PropertiesWord)
      case 11 => Some(Description)
      case _ => None
  }

  lemma NamesApart()
    ensures forall w {:trigger Name(w)} :: WordOf(Name(w)) == Some(w)
  {
  }

  // ---------------------------------------------------------------- fields

  datatype Scalar = StringScalar | NumberScalar | BooleanScalar | DateScalar | EnumScalar
  datatype Kind = Plain(scalar: Scalar) | ArrayKind | ObjectKind

  datatype Field = Field(
    key: string, title: string, description: string, kind: Kind, required: bool,
    hasDefault: bool, defaultValue: string, enumValues: seq<string>,
    itemKind: Scalar, itemEnumValues: seq<string>, children: seq<Field>)

  // ---------------------------------------------------------------- fields to schemas

  function NonBlank(js: Script, values: seq<string>): (r: seq<string>)
    ensures forall v :: v in r <==> v in values && js.trim(v) != ""
  {
    if values == [] then [] else
    (if js.trim(values[0]) != "" then [values[0]] else []) + NonBlank(js, values[1..])
  }

  function Strings(values: seq<string>): Json { Arr(seq(|values|, k requires 0 <= k < |values| => Str(values[k]))) }

  function ScalarSchema(js: Script, o: Object, kind: Scalar, enumValues: seq<string>): Object {
    match kind
    case DateScalar => o.Put(Name(Type), Str(Name(StringWord))).Put(Name(Format), Str(Name(DateWord)))
    case EnumScalar => o.Put(Name(Type), Str(Name(StringWord))).Put(Name(Enum), Strings(NonBlank(js, enumValues)))
    case StringScalar => o.Put(Name(Type), Str(Name(StringWord)))
    case NumberScalar => o.Put(Name(Type), Str(Name(NumberWord)))
    case BooleanScalar => o.Put(Name(Type), Str(Name(BooleanWord)))
  }

  /** `parseDefaultValue`; None when the text is not JSON. */
  function ParseDefault(js: Script, f: Field): Option<Json> {
    match f.kind
    case Plain(NumberScalar) => Some(Number(js.number(f.defaultValue)))
    case Plain(BooleanScalar) => Some(Bool(js.trim(f.defaultValue) == "true"))
    case Plain(_) => Some(Str(f.defaultValue))
    case _ => js.parse(f.defaultValue)
  }

  function WithTexts(js: Script, f: Field): Object {
    var o := if js.trim(f.title) != "" then EMPTY.Put(Name(Title), Str(f.title)) else EMPTY;
    if js.trim(f.description) != "" then o.Put(Name(Description), Str(f.description)) else o
  }

  function WithRequired(o: Object, required: seq<string>): Object {
    if required == [] then o else o.Put(Name(RequiredWord), Strings(required))
  }

  function WithKind(js: Script, f: Field): Object
    decreases f, 0
  {
    var o := WithTexts(js, f);
    match f.kind
    case ObjectKind =>
      WithRequired(o.Put(Name(Type), Str(Name(ObjectWord))).Put(Name(PropertiesWord), Obj(Properties(js, f.children, EMPTY))),
                   Required(js, f.children))
    case ArrayKind => o.Put(Name(Type), Str(Name(ArrayWord))).Put(Name(Items), Obj(ScalarSchema(js, EMPTY, f.itemKind, f.itemEnumValues)))
    case Plain(scalar) => ScalarSchema(js, o, scalar, f.enumValues)
  }

  /** `fieldToSchema`. */
  function FieldToSchema(js: Script, f: Field): Object
    decreases f, 1
  {
    var o := WithKind(js, f);
    if f.hasDefault && ParseDefault(js, f).Some? then o.Put(Name(Default), ParseDefault(js, f).value) else o
  }

  function Properties(js: Script, fields: seq<Field>, done: Object): Object
    decreases fields, 0
  {
    if fields == [] then done
    else Properties(js, fields[1..], done.Put(js.trim(fields[0].key), Obj(FieldToSchema(js, fields[0]))))
  }

  function Required(js: Script, fields: seq<Field>): seq<string> {
    if fields == [] then [] else
    (if fields[0].required then [js.trim(fields[0].key)] else []) + Required(js, fields[1..])
  }

  /** `editorToSchema`. */
  function EditorToSchema(js: Script, fields: seq<Field>): Json {
    Obj(WithRequired(EMPTY.Put(Name(Type), Str(Name(ObjectWord))).Put(Name(PropertiesWord), Obj(Properties(js, fields, EMPTY))), Required(js, fields)))
  }

  // ---------------------------------------------------------------- schemas to fields

  type Path = seq<string>

  datatype Editor = Builder(fields: seq<Field>) | Advanced(unsupportedPaths: seq<Path>)

  const ROOT_KEYS := {Name(Type), Name(PropertiesWord), Name(RequiredWord)}
  const SCALAR_KEYS := {Name(Type), Name(Title), Name(Description), Name(Default), Name(Format), Name(Enum)}
  const ARRAY_KEYS := {Name(Type), Name(Title), Name(Description), Name(Default), Name(Items)}
  const OBJECT_KEYS := {Name(Type), Name(Title), Name(Description), Name(Default), Name(PropertiesWord), Name(RequiredWord)}
  const ITEM_KEYS := {Name(Type), Name(Format), Name(Enum)}

  function Get(o: Object, k: string): Option<Json> { if k in o.at then Some(o.at[k]) else None }

  /** The paths of the keys that are not allowed. */
  function UnknownKeys(keys: seq<string>, allowed: set<string>, path: Path): (r: seq<Path>)
    ensures r == [] <==> forall k :: k in keys ==> k in allowed
  {
    if keys == [] then [] else
    (if keys[0] in allowed then [] else [path + [keys[0]]]) + UnknownKeys(keys[1..], allowed, path)
  }

  function Issue(bad: bool, path: Path): (r: seq<Path>)
    ensures r == [] <==> !bad
  {
    if bad then [path] else []
  }

  predicate AllStrings(v: Json) { v.Arr? && forall k :: 0 <= k < |v.items| ==> v.items[k].Str? }

  function Texts(v: Json): seq<string>
    requires AllStrings(v)
  {
    seq(|v.items|, k requires 0 <= k < |v.items| => v.items[k].text)
  }

  predicate NoRepeats(s: seq<string>) { forall i, j :: 0 <= i < j < |s| ==> s[i] != s[j] }

  predicate StringsOrAbsent(v: Option<Json>) { v.None? || AllStrings(v.value) }

  function StringsOf(v: Option<Json>): seq<string> {
    if v.Some? && AllStrings(v.value) then Texts(v.value) else []
  }

  /** `parseRequired` and `validateRequiredKeys`. */
  function RequiredIssues(o: Object, properties: set<string>, path: Path): seq<Path> {
    var v := Get(o, Name(RequiredWord));
    Issue(!StringsOrAbsent(v), path + [Name(RequiredWord)])
    + Issue(!NoRepeats(StringsOf(v)), path + [Name(RequiredWord)])
    + Issue(exists k :: k in StringsOf(v) && k !in properties, path + [Name(RequiredWord)])
  }

  predicate TextOrAbsent(v: Option<Json>) { v.None? || v.value.Str? }

  function TextOf(v: Option<Json>): string { if v.Some? && v.value.Str? then v.value.text else "" }

  predicate ScalarName(v: Option<Json>) {
    v in {Some(Str(Name(StringWord))), Some(Str(Name(NumberWord))), Some(Str(Name(BooleanWord)))}
  }

  function ScalarOf(v: Option<Json>): Scalar {
    if v == Some(Str(Name(NumberWord))) then NumberScalar else if v == Some(Str(Name(BooleanWord))) then BooleanScalar else StringScalar
  }

  /** The kind that type, format and enum of a schema stand for. */
  function ScalarKind(o: Object): Scalar {
    if Name(Enum) in o.at then EnumScalar
    else if Get(o, Name(Format)) == Some(Str(Name(DateWord))) then DateScalar
    else ScalarOf(Get(o, Name(Type)))
  }

  /** What `scalarFieldFromSchema` and `arrayItemTypeFromSchema` object to in format and enum. */
  function FormatIssues(o: Object, path: Path): seq<Path> {
    var format, text := Get(o, Name(Format)), Get(o, Name(Type)) == Some(Str(Name(StringWord)));
    Issue(format.Some? && format != Some(Str(Name(DateWord))), path + [Name(Format)])
    + Issue(!StringsOrAbsent(Get(o, Name(Enum))), path + [Name(Enum)])
    + Issue(Name(Enum) in o.at && !text, path + [Name(Enum)])
    + Issue(Name(Enum) in o.at && format.Some?, path + [Name(Format)])
    + Issue(Name(Enum) !in o.at && format == Some(Str(Name(DateWord))) && !text, path + [Name(Format)])
  }

  predicate ScalarDefaultCompatible(js: Script, kind: Scalar, v: Json, enumValues: seq<string>) {
    match kind
    case StringScalar => v.Str?
    case NumberScalar => v.Number? && v.num.Finite?
    case BooleanScalar => v.Bool?
    case DateScalar => v.Str? && js.isoDate(v.text)
    case EnumScalar => v.Str? && v.text in enumValues
  }

  predicate AllCompatible(js: Script, kind: Scalar, items: seq<Json>, enumValues: seq<string>) {
    forall k :: 0 <= k < |items| ==> ScalarDefaultCompatible(js, kind, items[k], enumValues)
  }

  /** `isCategoryDefaultCompatible`. */
  predicate DefaultCompatible(js: Script, f: Field, v: Json) {
    match f.kind
    case ArrayKind => v.Arr? && AllCompatible(js, f.itemKind, v.items, f.itemEnumValues)
    case ObjectKind => v.Obj?
    case Plain(scalar) => ScalarDefaultCompatible(js, scalar, v, f.enumValues)
  }

  function DefaultIssues(js: Script, f: Field, o: Object, path: Path): seq<Path> {
    Issue(Name(Default) in o.at && !DefaultCompatible(js, f, o.at[Name(Default)]), path + [Name(Default)])
  }

  /** `defaultValueToEditor`. */
  function DefaultText(js: Script, v: Option<Json>): string {
    match v
    case None => ""
    case Some(Str(text)) => text
    case Some(json) => js.compact(json)
  }

  /** `createSchemaField`. */
  function BaseField(js: Script, key: string, o: Object, required: bool, kind: Kind): Field {
    Field(key, TextOf(Get(o, Name(Title))), TextOf(Get(o, Name(Description))), kind, required,
          Name(Default) in o.at, DefaultText(js, Get(o, Name(Default))), [], StringScalar, [], [])
  }

  function TextIssues(o: Object, path: Path): seq<Path> {
    Issue(!TextOrAbsent(Get(o, Name(Title))), path + [Name(Title)]) + Issue(!TextOrAbsent(Get(o, Name(Description))), path + [Name(Description)])
  }

  datatype Parsed = Parsed(field: Option<Field>, issues: seq<Path>)

  function ParseScalar(js: Script, o: Object, key: string, required: bool, path: Path): Parsed {
    var kind := ScalarKind(o);
    var f := BaseField(js, key, o, required, Plain(kind)).(enumValues := StringsOf(Get(o, Name(Enum))));
    Parsed(Some(f), TextIssues(o, path) + UnknownKeys(o.keys, SCALAR_KEYS, path) + FormatIssues(o, path) + DefaultIssues(js, f, o, path))
  }

  function ItemIssues(o: Object, path: Path): seq<Path> {
    UnknownKeys(o.keys, ITEM_KEYS, path)
    + if ScalarName(Get(o, Name(Type))) then FormatIssues(o, path)
      else Issue(true, path + [Name(Type)]) + Issue(!StringsOrAbsent(Get(o, Name(Enum))), path + [Name(Enum)])
  }

  function ParseArray(js: Script, o: Object, key: string, required: bool, path: Path): Parsed {
    var before := TextIssues(o, path) + UnknownKeys(o.keys, ARRAY_KEYS, path);
    match Get(o, Name(Items))
    case Some(Obj(items)) =>
      var kind := if ScalarName(Get(items, Name(Type))) then ScalarKind(items) else StringScalar;
      var f := BaseField(js, key, o, required, ArrayKind).(itemKind := kind, itemEnumValues := StringsOf(Get(items, Name(Enum))));
      Parsed(Some(f), before + ItemIssues(items, path + [Name(Items)]) + DefaultIssues(js, f, o, path))
    case _ => Parsed(None, before + Issue(true, path + [Name(Items)]))
  }

  function PropertiesOf(o: Object): Object {
    match Get(o, Name(PropertiesWord))
    case Some(Obj(p)) => p
    case _ => EMPTY
  }

  predicate PropertiesOk(o: Object) { Get(o, Name(PropertiesWord)).None? || Get(o, Name(PropertiesWord)).value.Obj? }

  function ParseObject(js: Script, o: Object, key: string, required: bool, path: Path, depth: nat): Parsed
    requires depth <= 1
    decreases 1 - depth, 1, 0
  {
    var before := TextIssues(o, path) + UnknownKeys(o.keys, OBJECT_KEYS, path);
    if depth > 0 then Parsed(None, before + Issue(true, path))
    else if !PropertiesOk(o) then Parsed(None, before + Issue(true, path + [Name(PropertiesWord)]))
    else
      var p := PropertiesOf(o);
      var (children, issues) := ParseAll(js, p, p.keys, StringsOf(Get(o, Name(RequiredWord))), path + [Name(PropertiesWord)], depth + 1);
      var f := BaseField(js, key, o, required, ObjectKind).(children := children);
      Parsed(Some(f), before + RequiredIssues(o, p.at.Keys, path) + issues + DefaultIssues(js, f, o, path))
  }

  /** `schemaPropertyToField`. */
  function ParseProperty(js: Script, v: Json, key: string, required: bool, path: Path, depth: nat): Parsed
    requires depth <= 1
    decreases 1 - depth, 2, 0
  {
    if !v.Obj? then Parsed(None, Issue(true, path))
    else
      var o := v.members;
      var t := Get(o, Name(Type));
      if t.None? || !t.value.Str? then Parsed(None, Issue(true, path + [Name(Type)]))
      else if ScalarName(t) then ParseScalar(js, o, key, required, path)
      else if t == Some(Str(Name(ArrayWord))) then ParseArray(js, o, key, required, path)
      else if t == Some(Str(Name(ObjectWord))) then ParseObject(js, o, key, required, path, depth)
      else Parsed(None, TextIssues(o, path) + Issue(true, path + [Name(Type)]))
  }

  /** The loop over the properties of an object, from those in `keys` on. */
  function ParseAll(js: Script, p: Object, keys: seq<string>, required: seq<string>, path: Path, depth: nat)
    : (r: (seq<Field>, seq<Path>))
    requires depth <= 1
    decreases 1 - depth, 3, |keys|
  {
    if keys == [] then ([], [])
    else
      var (fields, issues) := ParseAll(js, p, keys[1..], required, path, depth);
      if keys[0] !in p.at then (fields, issues)
      else
        var parsed := ParseProperty(js, p.at[keys[0]], keys[0], keys[0] in required, path + [keys[0]], depth);
        (if parsed.field.Some? then [parsed.field.value] + fields else fields, parsed.issues + issues)
  }

  function Dedup(paths: seq<Path>, seen: set<Path>): (r: seq<Path>) {
    if paths == [] then []
    else if paths[0] in seen then Dedup(paths[1..], seen)
    else [paths[0]] + Dedup(paths[1..], seen + {paths[0]})
  }

  const ROOT: Path := ["$"]

  function RootIssues(o: Object): seq<Path> {
    UnknownKeys(o.keys, ROOT_KEYS, ROOT) + Issue(Get(o, Name(Type)) != Some(Str(Name(ObjectWord))), ROOT + [Name(Type)])
    + Issue(!PropertiesOk(o), ROOT + [Name(PropertiesWord)]) + RequiredIssues(o, PropertiesOf(o).at.Keys, ROOT)
  }

  /** `schemaToEditor`. */
  function SchemaToEditor(js: Script, schema: Json): Editor {
    if !schema.Obj? then Advanced([ROOT])
    else if schema.members.keys == [] then Builder([])
    else
      var o, p := schema.members, PropertiesOf(schema.members);
      var (fields, issues) := ParseAll(js, p, p.keys, StringsOf(Get(o, Name(RequiredWord))), ROOT + [Name(PropertiesWord)], 0);
      var all := RootIssues(o) + issues;
      if all != [] then Advanced(Dedup(all, {})) else Builder(fields)
  }

  // ---------------------------------------------------------------- validation

  /** The enum options that are shown, trimmed. */
  function Trimmed(js: Script, values: seq<string>): seq<string> {
    var shown := NonBlank(js, values);
    seq(|shown|, k requires 0 <= k < |shown| => js.trim(shown[k]))
  }

  function EnumOptions(f: Field): Option<seq<string>> {
    if f.kind == Plain(EnumScalar) then Some(f.enumValues)
    else if f.kind.ArrayKind? && f.itemKind.EnumScalar? then Some(f.itemEnumValues)
    else None
  }

  predicate EnumsValid(js: Script, f: Field) {
    EnumOptions(f).Some? ==> Trimmed(js, EnumOptions(f).value) != [] && NoRepeats(Trimmed(js, EnumOptions(f).value))
  }

  /** `validateDefaultValue`, which looks at the trimmed text, except for enums. */
  predicate DefaultValid(js: Script, f: Field) {
    f.hasDefault ==>
      var value := js.trim(f.defaultValue);
      match f.kind
      case Plain(NumberScalar) => value != "" && js.number(value).Finite?
      case Plain(BooleanScalar) => value == "true" || value == "false"
      case Plain(DateScalar) => js.isoDate(value)
      case Plain(EnumScalar) => f.defaultValue in f.enumValues
      case Plain(StringScalar) => true
      case ArrayKind =>
        var parsed := js.parse(value);
        parsed.Some? && parsed.value.Arr? && AllCompatible(js, f.itemKind, parsed.value.items, f.itemEnumValues)
      case ObjectKind => js.parse(value).Some? && js.parse(value).value.Obj?
  }

  predicate FieldValid(js: Script, f: Field, nested: bool)
    decreases f, 1
  {
    && (f.kind.ObjectKind? ==> !nested && FieldsValid(js, f.children, true))
    && EnumsValid(js, f) && DefaultValid(js, f)
  }

  /** `validateCategoryFields` finds no error. */
  predicate FieldsValid(js: Script, fields: seq<Field>, nested: bool)
    decreases fields, 0
  {
    && (forall k :: 0 <= k < |fields| ==> js.trim(fields[k].key) != "" && FieldValid(js, fields[k], nested))
    && (forall i, j :: 0 <= i < j < |fields| ==> js.trim(fields[i].key) != js.trim(fields[j].key))
  }
}
