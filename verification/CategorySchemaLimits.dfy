// Exactly when fields that pass validation are saved as a schema that the builder
// can open again.
module CategorySchemaLimits {
  import opened CategorySchema
  import opened CategorySchemaTheorems
  import opened CategorySchemaPrinting
  import opened Wrappers

  /**
   * Validation trims a default before it looks at it, and it looks at the options before the blank ones are dropped.
   * What the editor writes is neither trimmed nor checked again.
   */
  ghost predicate DefaultSurvives(js: Script, f: Field) {
    f.hasDefault ==>
      match f.kind
      case Plain(DateScalar) => js.isoDate(f.defaultValue)
      case Plain(EnumScalar) => js.trim(f.defaultValue) != ""
      case ArrayKind => f.itemKind.EnumScalar? ==> NoBlankItems(js, js.parse(f.defaultValue))
      case _ => true
  }

  ghost predicate NoBlankItems(js: Script, v: Option<Json>) {
    v.Some? && v.value.Arr? ==> forall k :: 0 <= k < |v.value.items| && v.value.items[k].Str? ==> js.trim(v.value.items[k].text) != ""
  }

  ghost predicate Survives(js: Script, f: Field) {
    DefaultSurvives(js, f) && (f.kind.ObjectKind? ==> AllSurvive(js, f.children))
  }

  ghost predicate AllSurvive(js: Script, fields: seq<Field>) { forall k :: 0 <= k < |fields| ==> Survives(js, fields[k]) }

  // ---------------------------------------------------------------- what is written of a field

  function Shown(js: Script, text: string): string { if js.trim(text) != "" then text else "" }

  /** A field with only what is written of it, and no default. */
  function Bare(js: Script, f: Field): Field {
    f.(key := js.trim(f.key), title := Shown(js, f.title), description := Shown(js, f.description), hasDefault := false,
       enumValues := NonBlank(js, f.enumValues), itemEnumValues := NonBlank(js, f.itemEnumValues))
  }

  lemma BareTidy(js: Script, f: Field)
    requires Lawful(js)
    ensures Tidy(js, Bare(js, f))
  {
    hide NonBlank;
  }

  lemma ScalarBare(js: Script, o: Object, kind: Scalar, enumValues: seq<string>)
    ensures ScalarSchema(js, o, kind, NonBlank(js, enumValues)) == ScalarSchema(js, o, kind, enumValues)
  {
    AllShownKept(js, NonBlank(js, enumValues));
    hide NonBlank, Strings, Name;
  }

  lemma BareSame(js: Script, f: Field)
    requires Lawful(js)
    ensures WithKind(js, Bare(js, f)) == WithKind(js, f)
  {
    hide NonBlank, Strings, Name, ScalarSchema, Properties, Required, Object.Put;
    ScalarBare(js, WithTexts(js, f), if f.kind.Plain? then f.kind.scalar else StringScalar, f.enumValues);
    ScalarBare(js, EMPTY, f.itemKind, f.itemEnumValues);
  }

  ghost predicate HasDefault(js: Script, d: Object, e: Object, f: Field) {
    e == (if f.hasDefault && ParseDefault(js, f).Some? then d.Put(Name(Default), ParseDefault(js, f).value) else d)
  }

  lemma DefaultAdded(js: Script, d: Object, e: Object, f: Field, g: Field)
    requires HasDefault(js, d, e, f) && HasTexts(d, g)
    ensures e.Valid() && TextsFit(e) && Extends(d, e)
    ensures Name(Default) in e.at <==> f.hasDefault && ParseDefault(js, f).Some?
    ensures Name(Default) in e.at ==> e.at[Name(Default)] == ParseDefault(js, f).value
  {
    NamesApart();
    if f.hasDefault && ParseDefault(js, f).Some? { d.PutValid(Name(Default), ParseDefault(js, f).value); }
    hide Name, WordOf, Object.Valid, ParseDefault;
  }

  lemma AllowsKeys(e: Object, allowed: set<string>)
    requires e.Valid() && e.at.Keys <= allowed
    ensures Allows(e, allowed)
  {
  }

  // ---------------------------------------------------------------- defaults

  /** The options in the document of a field. */
  function WrittenOptions(js: Script, f: Field): seq<string> {
    if f.kind == Plain(EnumScalar) then NonBlank(js, f.enumValues)
    else if f.kind.ArrayKind? && f.itemKind.EnumScalar? then NonBlank(js, f.itemEnumValues)
    else []
  }

  /** A scalar default passes the reader, with the options that are written, exactly if it survives. */
  lemma ScalarDefaultIff(js: Script, f: Field)
    requires Lawful(js) && DefaultValid(js, f) && f.hasDefault && f.kind.Plain?
    ensures DefaultSurvives(js, f) <==> ScalarDefaultCompatible(js, f.kind.scalar, ParseDefault(js, f).value, WrittenOptions(js, f))
  {
    assert js.number(js.trim(f.defaultValue)) == js.number(f.defaultValue);
    hide NonBlank, AllCompatible;
  }

  lemma ArrayDefaultIff(js: Script, f: Field)
    requires Lawful(js) && DefaultValid(js, f) && f.hasDefault && f.kind.ArrayKind? && ParseDefault(js, f).Some?
    ensures var v := ParseDefault(js, f).value;
      && v.Arr?
      && (DefaultSurvives(js, f) <==> AllCompatible(js, f.itemKind, v.items, WrittenOptions(js, f)))
  {
    var v := ParseDefault(js, f).value;
    assert js.parse(js.trim(f.defaultValue)) == Some(v);
    hide NonBlank, Lawful;
    var options := WrittenOptions(js, f);
    assert forall k :: 0 <= k < |v.items| ==> ScalarDefaultCompatible(js, f.itemKind, v.items[k], f.itemEnumValues);
    assert forall k :: 0 <= k < |v.items| ==>
      (ScalarDefaultCompatible(js, f.itemKind, v.items[k], options) <==>
        (f.itemKind.EnumScalar? ==> js.trim(v.items[k].text) != ""));
  }

  // ---------------------------------------------------------------- fields

  lemma PlainIff(js: Script, f: Field, depth: nat)
    requires Lawful(js) && DefaultValid(js, f) && f.kind.Plain?
    ensures Supported(js, Obj(FieldToSchema(js, f)), depth) <==> Survives(js, f)
  {
    hide WithKind, ScalarReads, HasTexts, Extends, Tidy, Lawful, DefaultValid, AllSurvive, ParseDefault, ScalarDefaultCompatible;
    hide Object.Valid, TextsFit, DefaultSurvives, NonBlank, Shown, Object.Put, AllSupported;
    var g, d, e := Bare(js, f), WithKind(js, f), FieldToSchema(js, f);
    BareTidy(js, f);
    BareSame(js, f);
    PlainDocument(js, g);
    DefaultAdded(js, d, e, f, g);
    ExtendsWithin(d, e, SCALAR_KEYS);
    AllowsKeys(e, SCALAR_KEYS);
    ScalarExtends(d, e, f.kind.scalar, Active(g).enumValues);
    ScalarParts(js, e, f.kind.scalar, Active(g).enumValues, depth);
    if f.hasDefault {
      ScalarDefaultIff(js, f);
      PlainParses(js, f);
    } else {
      AbsentSurvives(js, f);
    }
    assert Active(g).enumValues == WrittenOptions(js, f);
    hide Supported, Name, FieldToSchema, Active, Bare, WrittenOptions;
  }

  lemma PlainParses(js: Script, f: Field)
    requires f.kind.Plain?
    ensures ParseDefault(js, f).Some?
  {
  }

  /** What `Supported` says of a scalar document. */
  lemma ScalarParts(js: Script, e: Object, kind: Scalar, enumValues: seq<string>, depth: nat)
    requires ScalarReads(e, kind, enumValues) && TextsFit(e) && Allows(e, SCALAR_KEYS)
    ensures Supported(js, Obj(e), depth) <==>
      (Name(Default) in e.at ==> ScalarDefaultCompatible(js, kind, e.at[Name(Default)], enumValues))
  {
    WordsDiffer();
    hide Name, ScalarKind, ScalarFits, AllStrings, TextsFit, Allows, ScalarDefaultCompatible, AllSupported;
  }

  lemma ArrayIff(js: Script, f: Field, depth: nat)
    requires Lawful(js) && DefaultValid(js, f) && f.kind.ArrayKind?
    ensures Supported(js, Obj(FieldToSchema(js, f)), depth) <==> Survives(js, f)
  {
    hide WithKind, ScalarReads, HasTexts, Extends, Tidy, Lawful, DefaultValid, AllSurvive, ParseDefault, AllCompatible, ScalarSchema;
    hide Object.Valid, TextsFit, DefaultSurvives, NonBlank, Shown, Object.Put, AllSupported;
    var g, d, e := Bare(js, f), WithKind(js, f), FieldToSchema(js, f);
    BareTidy(js, f);
    BareSame(js, f);
    ArrayDocument(js, g);
    ItemDocument(js, g);
    DefaultAdded(js, d, e, f, g);
    ExtendsWithin(d, e, ARRAY_KEYS);
    AllowsKeys(e, ARRAY_KEYS);
    ExtendsKeeps(d, e, Type);
    ExtendsKeeps(d, e, Items);
    var items := ScalarSchema(js, EMPTY, g.itemKind, g.itemEnumValues);
    AllowsKeys(items, ITEM_KEYS);
    assert Active(g).itemEnumValues == WrittenOptions(js, f) && Active(g).itemKind == f.itemKind;
    ArrayParts(js, e, items, f.itemKind, WrittenOptions(js, f), depth);
    if f.hasDefault && ParseDefault(js, f).Some? { ArrayDefaultIff(js, f); } else { AbsentSurvives(js, f); }
    hide Supported, Name, FieldToSchema, Active, Bare, WrittenOptions;
  }

  /** A default that does not parse is not written at all. */
  lemma AbsentSurvives(js: Script, f: Field)
    requires f.hasDefault ==> f.kind.ArrayKind? && ParseDefault(js, f).None?
    ensures DefaultSurvives(js, f)
  {
  }

  lemma ArrayParts(js: Script, e: Object, items: Object, kind: Scalar, enumValues: seq<string>, depth: nat)
    requires TextsFit(e) && Allows(e, ARRAY_KEYS) && Get(e, Name(Type)) == Some(Str(Name(ArrayWord)))
    requires Get(e, Name(Items)) == Some(Obj(items)) && Allows(items, ITEM_KEYS) && ScalarReads(items, kind, enumValues)
    ensures Supported(js, Obj(e), depth) <==>
      (Name(Default) in e.at ==> e.at[Name(Default)].Arr? && AllCompatible(js, kind, e.at[Name(Default)].items, enumValues))
  {
    hide Name, ScalarKind, ScalarFits, AllStrings, TextsFit, Allows, AllCompatible, AllSupported;
  }

  lemma ObjectDefault(js: Script, f: Field)
    requires Lawful(js) && DefaultValid(js, f) && f.kind.ObjectKind? && f.hasDefault && ParseDefault(js, f).Some?
    ensures ParseDefault(js, f).value.Obj?
  {
    assert js.parse(js.trim(f.defaultValue)) == Some(ParseDefault(js, f).value);
  }

  lemma ObjectIff(js: Script, f: Field, depth: nat)
    requires Lawful(js) && FieldValid(js, f, depth > 0) && f.kind.ObjectKind? && depth <= 1
    ensures Supported(js, Obj(FieldToSchema(js, f)), depth) <==> Survives(js, f)
    decreases f, 0
  {
    hide WithKind, HasTexts, Extends, Tidy, Lawful, DefaultValid, AllSurvive, ParseDefault, EnumsValid, FieldsValid;
    hide Object.Valid, TextsFit, NonBlank, Shown, Object.Put, Properties, Required, Strings;
    var g, d, e := Bare(js, f), WithKind(js, f), FieldToSchema(js, f);
    BareTidy(js, f);
    BareSame(js, f);
    ObjectDocument(js, g);
    DefaultAdded(js, d, e, f, g);
    ExtendsWithin(d, e, OBJECT_KEYS);
    AllowsKeys(e, OBJECT_KEYS);
    ExtendsKeeps(d, e, Type);
    ExtendsKeeps(d, e, PropertiesWord);
    if Name(RequiredWord) in d.at { ExtendsKeeps(d, e, RequiredWord); } else { ExtendsAbsent(d, e, RequiredWord); }
    ChildrenIff(js, e, f.children);
    if f.hasDefault && ParseDefault(js, f).Some? { ObjectDefault(js, f); }
    hide FieldToSchema, Active, Bare, Name, AllSupported, RequiredFits, Allows;
  }

  /** The children of an object field: the required list fits, and the properties are supported exactly if all survive. */
  lemma ChildrenIff(js: Script, e: Object, children: seq<Field>)
    requires Lawful(js) && FieldsValid(js, children, true)
    requires Get(e, Name(RequiredWord)) == (if Required(js, children) == [] then None else Some(Strings(Required(js, children))))
    ensures var p := Properties(js, children, EMPTY);
      && RequiredFits(e, p.at.Keys) && (AllSupported(js, p, 1) <==> AllSurvive(js, children))
    decreases children, 2
  {
    hide Lawful, Properties, Required, Strings, RequiredFits, FieldToSchema, FieldValid, KeysTrimmed, DistinctKeys, Survives, Name;
    var trimmed := TrimKeys(js, children);
    TrimmedSame(js, children, EMPTY);
    TrimmedKeys(js, children, true);
    PropertiesAre(js, trimmed, EMPTY);
    RequiredDocument(js, e, trimmed, ROOT);
    var p := Properties(js, children, EMPTY);
    assert p.keys == Keys(trimmed) && p.at.Keys == set k | k in Keys(trimmed);
    RequiredIff(e, p.at.Keys, ROOT);
    AllIffSurvive(js, p, children, 1);
  }

  // ---------------------------------------------------------------- lists

  function TrimKeys(js: Script, fields: seq<Field>): (r: seq<Field>)
    ensures |r| == |fields|
  {
    seq(|fields|, k requires 0 <= k < |fields| => fields[k].(key := js.trim(fields[k].key)))
  }

  lemma {:induction false} TrimmedSame(js: Script, fields: seq<Field>, done: Object)
    requires Lawful(js)
    ensures Properties(js, TrimKeys(js, fields), done) == Properties(js, fields, done)
    ensures Required(js, TrimKeys(js, fields)) == Required(js, fields)
  {
    if fields != [] {
      var f, t := fields[0], TrimKeys(js, fields);
      assert t[1..] == TrimKeys(js, fields[1..]) && t[0] == f.(key := js.trim(f.key)) && js.trim(t[0].key) == js.trim(f.key);
      assert FieldToSchema(js, t[0]) == FieldToSchema(js, f) by { KeyUnused(js, f, js.trim(f.key)); }
      hide FieldToSchema, TrimKeys, Lawful;
      TrimmedSame(js, fields[1..], done.Put(js.trim(f.key), Obj(FieldToSchema(js, f))));
    }
  }

  lemma KeyUnused(js: Script, f: Field, key: string)
    ensures FieldToSchema(js, f.(key := key)) == FieldToSchema(js, f)
  {
    hide Name, Object.Put, NonBlank, Strings, Properties, Required;
  }

  lemma TrimmedKeys(js: Script, fields: seq<Field>, nested: bool)
    requires Lawful(js) && FieldsValid(js, fields, nested)
    ensures KeysTrimmed(js, TrimKeys(js, fields)) && DistinctKeys(TrimKeys(js, fields))
  {
    hide FieldValid;
  }

  lemma AllIffSurvive(js: Script, p: Object, fields: seq<Field>, depth: nat)
    requires Lawful(js) && FieldsValid(js, fields, depth > 0) && depth <= 1
    requires p == Properties(js, fields, EMPTY)
    ensures AllSupported(js, p, depth) <==> AllSurvive(js, fields)
    decreases fields, 1
  {
    hide Lawful, Properties, FieldToSchema, FieldValid, Survives, Supported;
    var trimmed := TrimKeys(js, fields);
    TrimmedSame(js, fields, EMPTY);
    TrimmedKeys(js, fields, depth > 0);
    PropertiesAre(js, trimmed, EMPTY);
    forall k | 0 <= k < |fields|
      ensures Keys(trimmed)[k] in p.keys && Keys(trimmed)[k] in p.at
      ensures Supported(js, p.at[Keys(trimmed)[k]], depth) <==> Survives(js, fields[k])
    {
      FieldIff(js, fields[k], depth);
      KeyUnused(js, fields[k], js.trim(fields[k].key));
      assert Keys(trimmed)[k] == trimmed[k].key;
    }
    assert forall k :: k in p.keys ==> k in Keys(trimmed);
  }

  lemma FieldIff(js: Script, f: Field, depth: nat)
    requires Lawful(js) && FieldValid(js, f, depth > 0) && depth <= 1
    ensures Supported(js, Obj(FieldToSchema(js, f)), depth) <==> Survives(js, f)
    decreases f, 1
  {
    assert DefaultValid(js, f);
    hide *;
    match f.kind
    case Plain(_) => PlainIff(js, f, depth);
    case ArrayKind => ArrayIff(js, f, depth);
    case ObjectKind => ObjectIff(js, f, depth);
  }

  /**
   * Fields that pass validation are saved as a schema that opens in the builder again exactly if every date default is
   * a date without trimming, and no default is one of the blank options that are dropped.
   */
  lemma ValidReopensIff(js: Script, fields: seq<Field>)
    requires Lawful(js) && FieldsValid(js, fields, false)
    ensures SchemaToEditor(js, EditorToSchema(js, fields)).Builder? <==> AllSurvive(js, fields)
  {
    hide Lawful, Properties, Required, FieldsValid, AllSurvive, SchemaToEditor, AllSupported, RequiredFits, Name, KeysTrimmed, DistinctKeys;
    var trimmed := TrimKeys(js, fields);
    TrimmedSame(js, fields, EMPTY);
    TrimmedKeys(js, fields, false);
    PropertiesAre(js, trimmed, EMPTY);
    RootDocument(js, trimmed);
    AllIffSurvive(js, Properties(js, fields, EMPTY), fields, 0);
    BuilderIff(js, EditorToSchema(js, fields));
    RootSupported(js, fields);
  }

  lemma RootSupported(js: Script, fields: seq<Field>)
    requires var o := EditorToSchema(js, fields).members; RootIssues(o) == [] && PropertiesOf(o) == Properties(js, fields, EMPTY)
    ensures OpensInBuilder(js, EditorToSchema(js, fields)) <==> AllSupported(js, Properties(js, fields, EMPTY), 0)
  {
    var o := EditorToSchema(js, fields).members;
    RequiredIff(o, PropertiesOf(o).at.Keys, ROOT);
    hide Properties, Required, AllSupported, RequiredFits, Name, RequiredIssues, Strings;
  }

  /** For instance a date with a blank before it: validation accepts it, and the saved schema opens as raw text only. */
  lemma UntrimmedDateRejected(js: Script, f: Field, date: string)
    requires Lawful(js) && js.trim(f.key) != "" && js.isoDate(date) && js.trim(" " + date) == date && !js.isoDate(" " + date)
    requires f.kind == Plain(DateScalar) && f.hasDefault && f.defaultValue == " " + date
    ensures FieldsValid(js, [f], false) && SchemaToEditor(js, EditorToSchema(js, [f])).Advanced?
  {
    assert FieldValid(js, f, false);
    ValidReopensIff(js, [f]);
    assert !DefaultSurvives(js, f);
    hide SchemaToEditor, EditorToSchema, Lawful;
    assert !Survives(js, [f][0]);
  }
}
