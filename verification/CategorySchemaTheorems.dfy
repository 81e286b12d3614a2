// The schema codec: exactly which documents the builder takes, and that valid
// fields in canonical form survive the way to a schema and back.
module CategorySchemaTheorems {
  import opened CategorySchema
  import opened Wrappers

  // ---------------------------------------------------------------- what the builder takes

  ghost predicate Allows(o: Object, keys: set<string>) { forall k :: k in o.keys ==> k in keys }

  /** Required names are distinct and name properties. */
  ghost predicate RequiredFits(o: Object, properties: set<string>) {
    var v := Get(o, Name(RequiredWord));
    v.None? || (AllStrings(v.value) && NoRepeats(Texts(v.value)) && forall k :: k in Texts(v.value) ==> k in properties)
  }

  /** A scalar type, plain, or with the date format, or with string options. */
  ghost predicate ScalarFits(o: Object) {
    var text := Get(o, Name(Type)) == Some(Str(Name(StringWord)));
    && ScalarName(Get(o, Name(Type)))
    && (Name(Enum) in o.at ==> text && AllStrings(o.at[Name(Enum)]) && Name(Format) !in o.at)
    && (Name(Format) in o.at ==> text && o.at[Name(Format)] == Str(Name(DateWord)))
  }

  ghost predicate ArrayDefaultFits(js: Script, items: Object, v: Json) {
    v.Arr? && AllCompatible(js, ScalarKind(items), v.items, StringsOf(Get(items, Name(Enum))))
  }

  ghost predicate TextsFit(o: Object) { TextOrAbsent(Get(o, Name(Title))) && TextOrAbsent(Get(o, Name(Description))) }

  ghost predicate Supported(js: Script, v: Json, depth: nat)
    decreases 2 - depth, 1
  {
    && v.Obj? && TextsFit(v.members)
    && var o := v.members;
      var t := Get(o, Name(Type));
      if t == Some(Str(Name(ArrayWord))) then
        && Allows(o, ARRAY_KEYS) && Get(o, Name(Items)).Some? && Get(o, Name(Items)).value.Obj?
        && var items := Get(o, Name(Items)).value.members;
          && Allows(items, ITEM_KEYS) && ScalarFits(items)
          && (Name(Default) in o.at ==> ArrayDefaultFits(js, items, o.at[Name(Default)]))
      else if t == Some(Str(Name(ObjectWord))) then
        && depth == 0 && Allows(o, OBJECT_KEYS) && PropertiesOk(o) && RequiredFits(o, PropertiesOf(o).at.Keys)
        && AllSupported(js, PropertiesOf(o), depth + 1)
        && (Name(Default) in o.at ==> o.at[Name(Default)].Obj?)
      else
        && Allows(o, SCALAR_KEYS) && ScalarFits(o)
        && (Name(Default) in o.at ==>
              ScalarDefaultCompatible(js, ScalarKind(o), o.at[Name(Default)], StringsOf(Get(o, Name(Enum)))))
  }

  ghost predicate AllSupported(js: Script, p: Object, depth: nat)
    decreases 2 - depth, 2
  {
    depth <= 1 && forall k :: k in p.keys && k in p.at ==> Supported(js, p.at[k], depth)
  }

  /** The documents that open in the builder. */
  ghost predicate OpensInBuilder(js: Script, schema: Json) {
    && schema.Obj?
    && var o := schema.members;
      o.keys == []
      || (&& Allows(o, ROOT_KEYS) && Get(o, Name(Type)) == Some(Str(Name(ObjectWord))) && PropertiesOk(o)
          && RequiredFits(o, PropertiesOf(o).at.Keys) && AllSupported(js, PropertiesOf(o), 0))
  }

  lemma RequiredIff(o: Object, properties: set<string>, path: Path)
    ensures RequiredIssues(o, properties, path) == [] <==> RequiredFits(o, properties)
  {
    NamesApart();
    hide Name, WordOf;
  }

  lemma FormatIff(o: Object, path: Path)
    requires ScalarName(Get(o, Name(Type)))
    ensures FormatIssues(o, path) == [] <==> ScalarFits(o)
  {
    NamesApart();
    hide Name, WordOf;
  }

  lemma ScalarIff(js: Script, o: Object, key: string, required: bool, path: Path)
    requires ScalarName(Get(o, Name(Type)))
    ensures ParseScalar(js, o, key, required, path).issues == [] <==> Supported(js, Obj(o), 1)
  {
    NamesApart();
    hide Name, WordOf;
    FormatIff(o, path);
    hide FormatIssues, ScalarFits, ScalarKind, AllStrings;
  }

  lemma ArrayIff(js: Script, o: Object, key: string, required: bool, path: Path)
    requires Get(o, Name(Type)) == Some(Str(Name(ArrayWord)))
    ensures ParseArray(js, o, key, required, path).issues == [] <==> Supported(js, Obj(o), 1)
  {
    NamesApart();
    hide Name, WordOf;
    if Get(o, Name(Items)).Some? && Get(o, Name(Items)).value.Obj? {
      var items := Get(o, Name(Items)).value.members;
      if ScalarName(Get(items, Name(Type))) { FormatIff(items, path + [Name(Items)]); }
    }
    hide FormatIssues, ScalarKind, AllStrings;
  }

  /** The depth matters to objects only. */
  lemma SupportedDeeper(js: Script, v: Json, depth: nat)
    requires v.Obj? && Get(v.members, Name(Type)) != Some(Str(Name(ObjectWord)))
    ensures Supported(js, v, depth) == Supported(js, v, 1)
  {
  }

  lemma PropertyIff(js: Script, v: Json, key: string, required: bool, path: Path, depth: nat)
    requires depth <= 1
    ensures ParseProperty(js, v, key, required, path, depth).issues == [] <==> Supported(js, v, depth)
    ensures ParseProperty(js, v, key, required, path, depth).issues == [] ==>
      ParseProperty(js, v, key, required, path, depth).field.Some?
    decreases 1 - depth, 1, 0
  {
    NamesApart();
    hide Name, WordOf;
    if v.Obj? {
      var o := v.members;
      if Get(o, Name(Type)) == Some(Str(Name(ArrayWord))) {
        ArrayIff(js, o, key, required, path);
        SupportedDeeper(js, v, depth);
        hide ParseArray, Supported;
      } else if Get(o, Name(Type)) == Some(Str(Name(ObjectWord))) {
        ObjectIff(js, o, key, required, path, depth);
        hide ParseObject, Supported;
      } else if ScalarName(Get(o, Name(Type))) {
        ScalarIff(js, o, key, required, path);
        SupportedDeeper(js, v, depth);
        hide ParseScalar, Supported;
      }
    }
  }

  lemma ObjectIff(js: Script, o: Object, key: string, required: bool, path: Path, depth: nat)
    requires depth <= 1 && Get(o, Name(Type)) == Some(Str(Name(ObjectWord)))
    ensures ParseObject(js, o, key, required, path, depth).issues == [] <==> Supported(js, Obj(o), depth)
    decreases 1 - depth, 0, 0
  {
    NamesApart();
    hide Name, WordOf;
    if depth == 0 && PropertiesOk(o) {
      var p := PropertiesOf(o);
      RequiredIff(o, p.at.Keys, path);
      AllIff(js, p, p.keys, StringsOf(Get(o, Name(RequiredWord))), path + [Name(PropertiesWord)], 1);
      hide RequiredIssues, RequiredFits, ParseAll, Supported;
      ObjectParts(js, o, key, required, path);
    } else {
      hide RequiredIssues, RequiredFits, ParseAll;
    }
  }

  lemma ObjectParts(js: Script, o: Object, key: string, required: bool, path: Path)
    requires Get(o, Name(Type)) == Some(Str(Name(ObjectWord))) && PropertiesOk(o)
    ensures var p := PropertiesOf(o);
      && (Supported(js, Obj(o), 0) <==>
            TextsFit(o) && Allows(o, OBJECT_KEYS) && RequiredFits(o, p.at.Keys) && AllSupported(js, p, 1)
            && (Name(Default) in o.at ==> o.at[Name(Default)].Obj?))
      && (ParseObject(js, o, key, required, path, 0).issues == [] <==>
            TextsFit(o) && Allows(o, OBJECT_KEYS) && RequiredIssues(o, p.at.Keys, path) == []
            && ParseAll(js, p, p.keys, StringsOf(Get(o, Name(RequiredWord))), path + [Name(PropertiesWord)], 1).1 == []
            && (Name(Default) in o.at ==> o.at[Name(Default)].Obj?))
  {
    NamesApart();
    hide Name, WordOf;
    hide RequiredIssues, RequiredFits, ParseAll, AllSupported;
  }

  lemma AllIff(js: Script, p: Object, keys: seq<string>, required: seq<string>, path: Path, depth: nat)
    requires depth <= 1
    ensures ParseAll(js, p, keys, required, path, depth).1 == []
      <==> forall k :: k in keys && k in p.at ==> Supported(js, p.at[k], depth)
    decreases 1 - depth, 2, |keys|
  {
    if keys != [] {
      AllIff(js, p, keys[1..], required, path, depth);
      if keys[0] in p.at {
        PropertyIff(js, p.at[keys[0]], keys[0], keys[0] in required, path + [keys[0]], depth);
      }
      hide ParseProperty, Supported;
    }
  }

  lemma DedupEmpty(paths: seq<Path>)
    ensures Dedup(paths, {}) == [] <==> paths == []
  {
  }

  /** A document opens in the builder exactly if it is in the supported subset; otherwise its first offending path is named. */
  lemma BuilderIff(js: Script, schema: Json)
    ensures SchemaToEditor(js, schema).Builder? <==> OpensInBuilder(js, schema)
    ensures SchemaToEditor(js, schema).Advanced? ==> SchemaToEditor(js, schema).unsupportedPaths != []
  {
    NamesApart();
    hide Name, WordOf;
    if schema.Obj? && schema.members.keys != [] {
      var o, p := schema.members, PropertiesOf(schema.members);
      RequiredIff(o, p.at.Keys, ROOT);
      AllIff(js, p, p.keys, StringsOf(Get(o, Name(RequiredWord))), ROOT + [Name(PropertiesWord)], 0);
      hide RequiredIssues, RequiredFits, ParseAll, Supported, Dedup;
      DedupEmpty(RootIssues(o) + ParseAll(js, p, p.keys, StringsOf(Get(o, Name(RequiredWord))), ROOT + [Name(PropertiesWord)], 0).1);
      assert PropertiesOf(o).keys == [] || PropertiesOk(o);
    }
  }

  // ---------------------------------------------------------------- the round trip

  ghost predicate AllShown(js: Script, values: seq<string>) { forall k :: 0 <= k < |values| ==> js.trim(values[k]) != "" }

  /** The default is written the way the editor itself would write it. */
  ghost predicate DefaultCanonical(js: Script, f: Field) {
    f.hasDefault ==>
      && ParseDefault(js, f).Some? && DefaultText(js, ParseDefault(js, f)) == f.defaultValue
      && (f.kind == Plain(DateScalar) ==> js.isoDate(f.defaultValue))
  }

  /** A trimmed key, no blank texts or options. */
  ghost predicate Tidy(js: Script, f: Field) {
    && js.trim(f.key) == f.key
    && (f.title == "" || js.trim(f.title) != "") && (f.description == "" || js.trim(f.description) != "")
    && (EnumOptions(f).Some? ==> AllShown(js, EnumOptions(f).value))
  }

  /** Tidy fields whose defaults are in printed form. */
  ghost predicate Canonical(js: Script, f: Field) {
    && Tidy(js, f)
    && DefaultCanonical(js, f)
    && (f.kind.ObjectKind? ==> AllCanonical(js, f.children))
  }

  ghost predicate AllCanonical(js: Script, fields: seq<Field>) { forall k :: 0 <= k < |fields| ==> Canonical(js, fields[k]) }

  /** The part of a field that its kind uses; the rest as in a new field. */
  function Active(f: Field): Field {
    f.(defaultValue := if f.hasDefault then f.defaultValue else "",
       enumValues := if f.kind == Plain(EnumScalar) then f.enumValues else [],
       itemKind := if f.kind.ArrayKind? then f.itemKind else StringScalar,
       itemEnumValues := if f.kind.ArrayKind? && f.itemKind.EnumScalar? then f.itemEnumValues else [],
       children := if f.kind.ObjectKind? then AllActive(f.children) else [])
  }

  function AllActive(fields: seq<Field>): (r: seq<Field>)
    ensures |r| == |fields|
  {
    if fields == [] then [] else [Active(fields[0])] + AllActive(fields[1..])
  }

  lemma {:induction false} AllShownKept(js: Script, values: seq<string>)
    requires AllShown(js, values)
    ensures NonBlank(js, values) == values
  {
    if values != [] {
      assert forall k :: 0 <= k < |values[1..]| ==> values[1..][k] == values[k + 1];
      AllShownKept(js, values[1..]);
    }
  }

  lemma StringsBack(values: seq<string>)
    ensures AllStrings(Strings(values)) && Texts(Strings(values)) == values
  {
  }

  ghost predicate ScalarReads(d: Object, kind: Scalar, enumValues: seq<string>) {
    ScalarName(Get(d, Name(Type))) && ScalarKind(d) == kind && ScalarFits(d) && StringsOf(Get(d, Name(Enum))) == enumValues
  }

  /** A document with the texts of a field and no default yet. */
  ghost predicate HasTexts(d: Object, f: Field) {
    && d.Valid() && Name(Default) !in d.at && TextsFit(d)
    && TextOf(Get(d, Name(Title))) == f.title && TextOf(Get(d, Name(Description))) == f.description
  }

  lemma PutTexts(d: Object, f: Field, w: Word, v: Json)
    requires HasTexts(d, f) && w !in {Title, Description, Default}
    ensures HasTexts(d.Put(Name(w), v), f)
  {
    NamesApart();
    d.PutValid(Name(w), v);
    hide Name, WordOf, Object.Valid;
  }

  lemma TextsDocument(js: Script, f: Field)
    requires Tidy(js, f) && js.trim("") == ""
    ensures HasTexts(WithTexts(js, f), f) && WithTexts(js, f).at.Keys <= {Name(Title), Name(Description)}
  {
    NamesApart();
    hide Name, WordOf, AllShown;
  }

  lemma OptionsDocument(js: Script, o: Object, enumValues: seq<string>)
    requires o.at.Keys <= {Name(Title), Name(Description)} && AllShown(js, enumValues)
    ensures var d := ScalarSchema(js, o, EnumScalar, enumValues);
      d.at.Keys <= o.at.Keys + ITEM_KEYS && ScalarReads(d, EnumScalar, enumValues)
  {
    AllShownKept(js, enumValues);
    StringsBack(enumValues);
    hide Name, AllStrings, Strings, NonBlank, Texts, ScalarReads;
    OptionsRead(o, Strings(enumValues), enumValues);
  }

  lemma OptionsRead(o: Object, options: Json, enumValues: seq<string>)
    requires o.at.Keys <= {Name(Title), Name(Description)} && AllStrings(options) && Texts(options) == enumValues
    ensures var d := o.Put(Name(Type), Str(Name(StringWord))).Put(Name(Enum), options);
      d.at.Keys <= o.at.Keys + ITEM_KEYS && ScalarReads(d, EnumScalar, enumValues)
  {
    NamesApart();
    hide Name, WordOf, AllStrings, Texts, ScalarOf;
  }

  /** The document of a scalar type, added to `o`. */
  lemma ScalarDocument(js: Script, o: Object, kind: Scalar, enumValues: seq<string>)
    requires o.at.Keys <= {Name(Title), Name(Description)} && (kind.EnumScalar? ==> AllShown(js, enumValues))
    ensures var d := ScalarSchema(js, o, kind, enumValues);
      d.at.Keys <= o.at.Keys + ITEM_KEYS && ScalarReads(d, kind, if kind.EnumScalar? then enumValues else [])
  {
    if kind.EnumScalar? {
      hide *;
      OptionsDocument(js, o, enumValues);
    } else {
      NamesApart();
      hide Name, WordOf, AllStrings, Strings, NonBlank, AllShown;
    }
  }

  lemma ScalarTexts(js: Script, o: Object, f: Field, kind: Scalar, enumValues: seq<string>)
    requires HasTexts(o, f)
    ensures HasTexts(ScalarSchema(js, o, kind, enumValues), f)
  {
    NamesApart();
    hide HasTexts, Name, WordOf, Strings, NonBlank;
    var name := ScalarSchema(js, EMPTY, kind, enumValues).at[Name(Type)];
    PutTexts(o, f, Type, name);
    PutTexts(o.Put(Name(Type), name), f, Format, Str(Name(DateWord)));
    PutTexts(o.Put(Name(Type), name), f, Enum, Strings(NonBlank(js, enumValues)));
  }

  lemma PlainDocument(js: Script, f: Field)
    requires Lawful(js) && Tidy(js, f) && f.kind.Plain?
    ensures var d := WithKind(js, f);
      HasTexts(d, f) && d.at.Keys <= SCALAR_KEYS && ScalarReads(d, f.kind.scalar, Active(f).enumValues)
  {
    TextsDocument(js, f);
    ScalarTexts(js, WithTexts(js, f), f, f.kind.scalar, f.enumValues);
    ScalarDocument(js, WithTexts(js, f), f.kind.scalar, f.enumValues);
    hide Name, Lawful, HasTexts, WithTexts, ScalarSchema, ScalarReads, AllActive;
  }

  lemma ArrayDocument(js: Script, f: Field)
    requires Lawful(js) && Tidy(js, f) && f.kind.ArrayKind?
    ensures var d := WithKind(js, f);
      && HasTexts(d, f) && d.at.Keys <= ARRAY_KEYS && Get(d, Name(Type)) == Some(Str(Name(ArrayWord)))
      && Get(d, Name(Items)) == Some(Obj(ScalarSchema(js, EMPTY, f.itemKind, f.itemEnumValues)))
  {
    NamesApart();
    TextsDocument(js, f);
    hide Name, WordOf, HasTexts, Lawful, Tidy, WithTexts, ScalarSchema;
    var o, items := WithTexts(js, f), Obj(ScalarSchema(js, EMPTY, f.itemKind, f.itemEnumValues));
    PutTexts(o, f, Type, Str(Name(ArrayWord)));
    PutTexts(o.Put(Name(Type), Str(Name(ArrayWord))), f, Items, items);
  }

  lemma ObjectDocument(js: Script, f: Field)
    requires Lawful(js) && Tidy(js, f) && f.kind.ObjectKind?
    ensures var d := WithKind(js, f);
      && HasTexts(d, f) && d.at.Keys <= OBJECT_KEYS && Get(d, Name(Type)) == Some(Str(Name(ObjectWord)))
      && Get(d, Name(PropertiesWord)) == Some(Obj(Properties(js, f.children, EMPTY)))
      && Get(d, Name(RequiredWord)) == (if Required(js, f.children) == [] then None else Some(Strings(Required(js, f.children))))
  {
    NamesApart();
    TextsDocument(js, f);
    hide Name, WordOf, HasTexts, Lawful, Tidy, WithTexts, Properties, Required, Strings;
    var o, p, r := WithTexts(js, f), Obj(Properties(js, f.children, EMPTY)), Required(js, f.children);
    PutTexts(o, f, Type, Str(Name(ObjectWord)));
    PutTexts(o.Put(Name(Type), Str(Name(ObjectWord))), f, PropertiesWord, p);
    PutTexts(o.Put(Name(Type), Str(Name(ObjectWord))).Put(Name(PropertiesWord), p), f, RequiredWord, Strings(r));
  }

  /** A valid default in canonical form is one that the schema reader accepts and prints as the same text. */
  lemma DefaultReads(js: Script, f: Field)
    requires Lawful(js) && DefaultValid(js, f) && DefaultCanonical(js, f) && f.hasDefault
    ensures ParseDefault(js, f).Some? && DefaultCompatible(js, f, ParseDefault(js, f).value)
  {
    assert js.number(js.trim(f.defaultValue)) == js.number(f.defaultValue);
    hide AllCompatible;
  }

  /** What the reader finds in the finished document of a field, apart from its kind. */
  ghost predicate Reads(js: Script, e: Object, f: Field) {
    && e.Valid() && TextsFit(e) && TextOf(Get(e, Name(Title))) == f.title && TextOf(Get(e, Name(Description))) == f.description
    && (Name(Default) in e.at <==> f.hasDefault) && DefaultText(js, Get(e, Name(Default))) == Active(f).defaultValue
    && (Name(Default) in e.at ==> DefaultCompatible(js, Active(f), e.at[Name(Default)]))
  }

  ghost predicate Extends(d: Object, e: Object) {
    e.at.Keys <= d.at.Keys + {Name(Default)} && forall k :: k in d.at ==> k in e.at && e.at[k] == d.at[k]
  }

  lemma ActiveDefault(js: Script, f: Field, v: Json)
    ensures DefaultCompatible(js, Active(f), v) == DefaultCompatible(js, f, v)
  {
    if f.kind.ArrayKind? && v.Arr? {
      if f.itemKind.EnumScalar? {
      } else {
        assert forall k :: 0 <= k < |v.items| ==>
          ScalarDefaultCompatible(js, f.itemKind, v.items[k], f.itemEnumValues) == ScalarDefaultCompatible(js, f.itemKind, v.items[k], []);
      }
    }
  }

  lemma DefaultExtends(d: Object, v: Json)
    requires Name(Default) !in d.at
    ensures Extends(d, d.Put(Name(Default), v))
  {
    hide Name;
  }

  lemma WithDefault(js: Script, d: Object, f: Field, v: Json)
    requires HasTexts(d, f) && f.hasDefault && DefaultText(js, Some(v)) == f.defaultValue && DefaultCompatible(js, Active(f), v)
    ensures Reads(js, d.Put(Name(Default), v), f) && Extends(d, d.Put(Name(Default), v))
  {
    DefaultExtends(d, v);
    NamesApart();
    d.PutValid(Name(Default), v);
    hide Name, WordOf, Object.Valid, DefaultCompatible, DefaultText, AllActive, Extends;
  }

  lemma WithoutDefault(js: Script, d: Object, f: Field)
    requires HasTexts(d, f) && !f.hasDefault
    ensures Reads(js, d, f) && Extends(d, d)
  {
    hide Name, Object.Valid, DefaultCompatible, AllActive;
  }

  /** What `FieldToSchema` adds to the document before the default. */
  lemma DefaultDocument(js: Script, f: Field)
    requires Lawful(js) && DefaultValid(js, f) && DefaultCanonical(js, f) && HasTexts(WithKind(js, f), f)
    ensures Reads(js, FieldToSchema(js, f), f) && Extends(WithKind(js, f), FieldToSchema(js, f))
  {
    if f.hasDefault {
      DefaultReads(js, f);
      ActiveDefault(js, f, ParseDefault(js, f).value);
      hide Lawful, WithKind, DefaultCompatible, DefaultValid, ParseDefault, DefaultText, Active, HasTexts, Reads, Extends;
      WithDefault(js, WithKind(js, f), f, ParseDefault(js, f).value);
    } else {
      hide Lawful, WithKind, DefaultValid, ParseDefault, HasTexts, Reads, Extends;
      WithoutDefault(js, WithKind(js, f), f);
    }
  }

  // ---------------------------------------------------------------- one field

  lemma NoUnknownKeys(o: Object, allowed: set<string>, path: Path)
    requires o.Valid() && o.at.Keys <= allowed
    ensures UnknownKeys(o.keys, allowed, path) == []
  {
  }

  lemma ScalarExtends(d: Object, e: Object, kind: Scalar, enumValues: seq<string>)
    requires Extends(d, e) && ScalarReads(d, kind, enumValues)
    ensures ScalarReads(e, kind, enumValues)
  {
    NamesApart();
    hide Name, WordOf, AllStrings;
  }

  lemma PlainReads(js: Script, e: Object, f: Field, path: Path)
    requires Reads(js, e, f) && f.kind.Plain? && ScalarReads(e, f.kind.scalar, Active(f).enumValues) && e.at.Keys <= SCALAR_KEYS
    ensures ParseScalar(js, e, f.key, f.required, path) == Parsed(Some(Active(f)), [])
  {
    NoUnknownKeys(e, SCALAR_KEYS, path);
    FormatIff(e, path);
    hide Name, ScalarKind, ScalarFits, FormatIssues, AllStrings, Object.Valid, DefaultCompatible, DefaultText, TextOrAbsent, TextOf;
  }

  lemma PlainRoundTrip(js: Script, f: Field, path: Path, depth: nat)
    requires Lawful(js) && depth <= 1 && FieldValid(js, f, depth > 0) && Canonical(js, f) && f.kind.Plain?
    ensures ParseProperty(js, Obj(FieldToSchema(js, f)), f.key, f.required, path, depth) == Parsed(Some(Active(f)), [])
  {
    hide Name, HasTexts, FieldToSchema, WithKind, Reads, Extends, ScalarReads, ParseScalar, Lawful, DefaultValid, DefaultCanonical, Active;
    hide FieldsValid, EnumsValid, AllCanonical, AllShown;
    PlainDocument(js, f);
    DefaultDocument(js, f);
    var d, e := WithKind(js, f), FieldToSchema(js, f);
    ScalarExtends(d, e, f.kind.scalar, Active(f).enumValues);
    assert e.at.Keys <= SCALAR_KEYS by { hide *; ExtendsWithin(d, e, SCALAR_KEYS); }
    PlainReads(js, e, f, path);
    assert ScalarName(Get(e, Name(Type))) by { ScalarNamed(e, f.kind.scalar, Active(f).enumValues); }
  }

  lemma ExtendsWithin(d: Object, e: Object, allowed: set<string>)
    requires Extends(d, e) && d.at.Keys <= allowed && Name(Default) in allowed
    ensures e.at.Keys <= allowed
  {
  }

  lemma ScalarNamed(e: Object, kind: Scalar, enumValues: seq<string>)
    requires ScalarReads(e, kind, enumValues)
    ensures ScalarName(Get(e, Name(Type)))
  {
  }

  /** The document of the items of an array field. */
  lemma ItemDocument(js: Script, f: Field)
    requires Tidy(js, f) && f.kind.ArrayKind?
    ensures var items := ScalarSchema(js, EMPTY, f.itemKind, f.itemEnumValues);
      && items.Valid() && items.at.Keys <= ITEM_KEYS && ScalarReads(items, Active(f).itemKind, Active(f).itemEnumValues)
  {
    hide Name, AllShown, ScalarReads, AllActive, ScalarSchema;
    ScalarDocument(js, EMPTY, f.itemKind, f.itemEnumValues);
    ScalarValid(js, EMPTY, f.itemKind, f.itemEnumValues);
  }

  lemma ScalarValid(js: Script, o: Object, kind: Scalar, enumValues: seq<string>)
    requires o.Valid()
    ensures ScalarSchema(js, o, kind, enumValues).Valid()
  {
    hide Name, Object.Valid, NonBlank, Strings;
    var name := ScalarSchema(js, EMPTY, kind, enumValues).at[Name(Type)];
    o.PutValid(Name(Type), name);
    o.PutValid(Name(Type), Str(Name(StringWord)));
    o.Put(Name(Type), Str(Name(StringWord))).PutValid(Name(Format), Str(Name(DateWord)));
    o.Put(Name(Type), Str(Name(StringWord))).PutValid(Name(Enum), Strings(NonBlank(js, enumValues)));
    o.PutValid(Name(Type), Str(Name(NumberWord)));
    o.PutValid(Name(Type), Str(Name(BooleanWord)));
  }

  lemma NoItemIssues(items: Object, kind: Scalar, enumValues: seq<string>, path: Path)
    requires items.Valid() && items.at.Keys <= ITEM_KEYS && ScalarReads(items, kind, enumValues)
    ensures ItemIssues(items, path) == []
  {
    hide Name, Object.Valid, FormatIssues, ScalarKind, AllStrings, ScalarFits;
    NoUnknownKeys(items, ITEM_KEYS, path);
    FormatIff(items, path);
  }

  lemma ArrayReads(js: Script, e: Object, items: Object, f: Field, path: Path)
    requires Reads(js, e, f) && f.kind.ArrayKind? && e.at.Keys <= ARRAY_KEYS && Get(e, Name(Items)) == Some(Obj(items))
    requires items.Valid() && items.at.Keys <= ITEM_KEYS && ScalarReads(items, Active(f).itemKind, Active(f).itemEnumValues)
    ensures ParseArray(js, e, f.key, f.required, path) == Parsed(Some(Active(f)), [])
  {
    hide Name, ScalarKind, ScalarFits, ItemIssues, AllStrings, Object.Valid, DefaultCompatible, DefaultText, TextOrAbsent, TextOf;
    NoUnknownKeys(e, ARRAY_KEYS, path);
    NoItemIssues(items, Active(f).itemKind, Active(f).itemEnumValues, path + [Name(Items)]);
  }

  lemma ArrayRoundTrip(js: Script, f: Field, path: Path, depth: nat)
    requires Lawful(js) && depth <= 1 && FieldValid(js, f, depth > 0) && Canonical(js, f) && f.kind.ArrayKind?
    ensures ParseProperty(js, Obj(FieldToSchema(js, f)), f.key, f.required, path, depth) == Parsed(Some(Active(f)), [])
  {
    hide HasTexts, FieldToSchema, WithKind, Reads, Extends, ScalarReads, ParseArray, Lawful, DefaultValid, DefaultCanonical, Active;
    hide FieldsValid, EnumsValid, AllCanonical, AllShown, ScalarSchema, Object.Valid, ParseScalar, ParseObject;
    ArrayDocument(js, f);
    DefaultDocument(js, f);
    ItemDocument(js, f);
    var d, e := WithKind(js, f), FieldToSchema(js, f);
    ExtendsWithin(d, e, ARRAY_KEYS);
    ExtendsKeeps(d, e, Type);
    ExtendsKeeps(d, e, Items);
    ArrayReads(js, e, ScalarSchema(js, EMPTY, f.itemKind, f.itemEnumValues), f, path);
    WordsDiffer();
    hide Name;
  }

  lemma ExtendsKeeps(d: Object, e: Object, w: Word)
    requires Extends(d, e) && Name(w) in d.at
    ensures Get(e, Name(w)) == Get(d, Name(w))
  {
  }

  lemma ExtendsAbsent(d: Object, e: Object, w: Word)
    requires Extends(d, e) && Name(w) !in d.at && w != Default
    ensures Get(e, Name(w)) == None
  {
    NamesApart();
    hide Name, WordOf;
  }

  lemma WordsDiffer()
    ensures Name(ArrayWord) !in {Name(StringWord), Name(NumberWord), Name(BooleanWord)}
    ensures Name(ObjectWord) !in {Name(StringWord), Name(NumberWord), Name(BooleanWord), Name(ArrayWord)}
  {
  }

  // ---------------------------------------------------------------- lists of fields

  ghost predicate DistinctKeys(fields: seq<Field>) { forall i, j :: 0 <= i < j < |fields| ==> fields[i].key != fields[j].key }

  ghost predicate KeysTrimmed(js: Script, fields: seq<Field>) { forall k :: 0 <= k < |fields| ==> js.trim(fields[k].key) == fields[k].key }

  function Keys(fields: seq<Field>): (r: seq<string>)
    ensures |r| == |fields|
  {
    seq(|fields|, k requires 0 <= k < |fields| => fields[k].key)
  }

  /** The properties of a list of fields, in order. */
  lemma {:induction false} PropertiesAre(js: Script, fields: seq<Field>, done: Object)
    requires KeysTrimmed(js, fields) && DistinctKeys(fields) && forall k :: 0 <= k < |fields| ==> fields[k].key !in done.at
    ensures var p := Properties(js, fields, done);
      && p.keys == done.keys + Keys(fields) && p.at.Keys == done.at.Keys + (set k | k in Keys(fields))
      && (forall k :: k in done.at ==> p.at[k] == done.at[k])
      && (forall k :: 0 <= k < |fields| ==> fields[k].key in p.at && p.at[fields[k].key] == Obj(FieldToSchema(js, fields[k])))
    decreases fields
  {
    hide FieldToSchema, Object.Put;
    if fields != [] {
      var f, rest := fields[0], fields[1..];
      var next := done.Put(f.key, Obj(FieldToSchema(js, f)));
      PutNew(done, f.key, Obj(FieldToSchema(js, f)));
      assert forall k :: 0 <= k < |rest| ==> rest[k] == fields[k + 1];
      PropertiesAre(js, rest, next);
      hide Properties;
      KeysFirst(fields);
    }
  }

  lemma PutNew(o: Object, k: string, v: Json)
    requires k !in o.at
    ensures o.Put(k, v).keys == o.keys + [k] && o.Put(k, v).at == o.at[k := v]
  {
  }

  lemma KeysFirst(fields: seq<Field>)
    requires fields != []
    ensures Keys(fields) == [fields[0].key] + Keys(fields[1..])
    ensures (set k | k in Keys(fields)) == {fields[0].key} + (set k | k in Keys(fields[1..]))
  {
    assert Keys(fields) == [fields[0].key] + Keys(fields[1..]);
  }

  lemma {:induction false} RequiredAre(js: Script, fields: seq<Field>)
    requires KeysTrimmed(js, fields) && DistinctKeys(fields)
    ensures NoRepeats(Required(js, fields)) && forall s :: s in Required(js, fields) ==> s in Keys(fields)
    ensures forall k :: 0 <= k < |fields| ==> (fields[k].key in Required(js, fields) <==> fields[k].required)
  {
    if fields != [] {
      var rest := fields[1..];
      assert forall k :: 0 <= k < |rest| ==> rest[k] == fields[k + 1];
      RequiredAre(js, rest);
      assert Keys(fields) == [fields[0].key] + Keys(rest);
      assert forall k :: 0 <= k < |rest| ==> Keys(rest)[k] != fields[0].key;
      assert fields[0].key !in Required(js, rest);
      assert NoRepeats([fields[0].key] + Required(js, rest));
    }
  }

  /** The parsed fields of a list, from those in position `n` on. */
  lemma {:induction false} AllRoundTrip(js: Script, p: Object, fields: seq<Field>, required: seq<string>, path: Path, depth: nat)
    requires Lawful(js) && depth <= 1 && AllCanonical(js, fields)
    requires forall k :: 0 <= k < |fields| ==> FieldValid(js, fields[k], depth > 0)
    requires forall k :: 0 <= k < |fields| ==>
      fields[k].key in p.at && p.at[fields[k].key] == Obj(FieldToSchema(js, fields[k]))
    requires forall k :: 0 <= k < |fields| ==> (fields[k].key in required <==> fields[k].required)
    ensures ParseAll(js, p, Keys(fields), required, path, depth) == (AllActive(fields), [])
    decreases fields, 0
  {
    hide FieldToSchema, FieldValid, Canonical, Active, ParseProperty, Lawful;
    if fields != [] {
      var f, rest := fields[0], fields[1..];
      assert forall k :: 0 <= k < |rest| ==> rest[k] == fields[k + 1];
      AllRoundTrip(js, p, rest, required, path, depth);
      FieldRoundTrip(js, f, path + [f.key], depth);
      var keys := Keys(fields);
      assert keys != [] && keys[1..] == Keys(rest) && keys[0] == f.key && (f.key in required) == f.required;
      var tail := ParseAll(js, p, keys[1..], required, path, depth);
      assert ParseAll(js, p, keys, required, path, depth) == ([Active(f)] + tail.0, [] + tail.1);
      assert [] + tail.1 == [] && [Active(f)] + tail.0 == AllActive(fields);
    } else {
      assert Keys(fields) == [];
    }
  }

  /** A valid field in canonical form comes back as its active part. */
  lemma FieldRoundTrip(js: Script, f: Field, path: Path, depth: nat)
    requires Lawful(js) && depth <= 1 && FieldValid(js, f, depth > 0) && Canonical(js, f)
    ensures ParseProperty(js, Obj(FieldToSchema(js, f)), f.key, f.required, path, depth) == Parsed(Some(Active(f)), [])
    decreases f, 1
  {
    hide *;
    match f.kind
    case Plain(_) => PlainRoundTrip(js, f, path, depth);
    case ArrayKind => ArrayRoundTrip(js, f, path, depth);
    case ObjectKind => ObjectRoundTrip(js, f, path, depth);
  }

  /** What validation says of the list of an object's children. */
  lemma ListParts(js: Script, fields: seq<Field>, nested: bool)
    requires FieldsValid(js, fields, nested) && AllCanonical(js, fields)
    ensures KeysTrimmed(js, fields) && DistinctKeys(fields)
    ensures forall k :: 0 <= k < |fields| ==> FieldValid(js, fields[k], nested)
  {
    hide FieldValid, DefaultCanonical, AllShown;
    forall k | 0 <= k < |fields| ensures js.trim(fields[k].key) == fields[k].key { assert Canonical(js, fields[k]); }
  }

  lemma ObjectReads(js: Script, e: Object, f: Field, p: Object, path: Path)
    requires Reads(js, e, f) && f.kind.ObjectKind? && e.at.Keys <= OBJECT_KEYS && Get(e, Name(PropertiesWord)) == Some(Obj(p))
    requires RequiredIssues(e, p.at.Keys, path) == []
    requires ParseAll(js, p, p.keys, StringsOf(Get(e, Name(RequiredWord))), path + [Name(PropertiesWord)], 1) == (AllActive(f.children), [])
    ensures ParseObject(js, e, f.key, f.required, path, 0) == Parsed(Some(Active(f)), [])
  {
    hide Name, AllStrings, Object.Valid, DefaultText, TextOrAbsent, TextOf, RequiredIssues, ParseAll, StringsOf, AllActive;
    NoUnknownKeys(e, OBJECT_KEYS, path);
  }

  lemma RequiredDocument(js: Script, e: Object, fields: seq<Field>, path: Path)
    requires KeysTrimmed(js, fields) && DistinctKeys(fields)
    requires Get(e, Name(RequiredWord)) == (if Required(js, fields) == [] then None else Some(Strings(Required(js, fields))))
    ensures StringsOf(Get(e, Name(RequiredWord))) == Required(js, fields)
    ensures RequiredIssues(e, (set k | k in Keys(fields)), path) == []
  {
    hide Name, Required, Strings, AllStrings, Texts;
    RequiredAre(js, fields);
    StringsBack(Required(js, fields));
  }

  /** The properties and the required list of an object field's document. */
  lemma ChildrenRoundTrip(js: Script, e: Object, children: seq<Field>, path: Path)
    requires Lawful(js) && FieldsValid(js, children, true) && AllCanonical(js, children)
    requires Get(e, Name(RequiredWord)) == (if Required(js, children) == [] then None else Some(Strings(Required(js, children))))
    ensures var p := Properties(js, children, EMPTY);
      && RequiredIssues(e, p.at.Keys, path) == []
      && ParseAll(js, p, p.keys, StringsOf(Get(e, Name(RequiredWord))), path + [Name(PropertiesWord)], 1) == (AllActive(children), [])
    decreases children, 1
  {
    hide Name, FieldToSchema, FieldValid, Canonical, Lawful, Properties, Required, RequiredIssues, ParseAll, Strings, StringsOf, AllActive;
    ListParts(js, children, true);
    PropertiesAre(js, children, EMPTY);
    RequiredAre(js, children);
    RequiredDocument(js, e, children, path);
    var p := Properties(js, children, EMPTY);
    assert p.keys == Keys(children) && p.at.Keys == set k | k in Keys(children);
    AllRoundTrip(js, p, children, Required(js, children), path + [Name(PropertiesWord)], 1);
  }

  /** The finished document of an object field. */
  lemma ObjectFinished(js: Script, f: Field)
    requires Lawful(js) && DefaultValid(js, f) && Canonical(js, f) && f.kind.ObjectKind?
    ensures var e := FieldToSchema(js, f);
      && Reads(js, e, f) && e.at.Keys <= OBJECT_KEYS && Get(e, Name(Type)) == Some(Str(Name(ObjectWord)))
      && Get(e, Name(PropertiesWord)) == Some(Obj(Properties(js, f.children, EMPTY)))
      && Get(e, Name(RequiredWord)) == (if Required(js, f.children) == [] then None else Some(Strings(Required(js, f.children))))
  {
    hide HasTexts, FieldToSchema, WithKind, Reads, Extends, Lawful, DefaultValid, DefaultCanonical, AllCanonical, AllShown;
    hide Object.Valid, Properties, Required, Strings;
    ObjectDocument(js, f);
    DefaultDocument(js, f);
    var d, e := WithKind(js, f), FieldToSchema(js, f);
    ExtendsWithin(d, e, OBJECT_KEYS);
    ExtendsKeeps(d, e, Type);
    ExtendsKeeps(d, e, PropertiesWord);
    if Name(RequiredWord) in d.at { ExtendsKeeps(d, e, RequiredWord); } else { ExtendsAbsent(d, e, RequiredWord); }
    hide Name;
  }

  lemma ObjectRoundTrip(js: Script, f: Field, path: Path, depth: nat)
    requires Lawful(js) && depth <= 1 && FieldValid(js, f, depth > 0) && Canonical(js, f) && f.kind.ObjectKind?
    ensures ParseProperty(js, Obj(FieldToSchema(js, f)), f.key, f.required, path, depth) == Parsed(Some(Active(f)), [])
    decreases f, 0
  {
    hide FieldToSchema, Reads, ParseArray, Lawful, DefaultValid, DefaultCanonical, Active, ParseScalar, ParseObject;
    hide FieldsValid, EnumsValid, AllCanonical, AllShown, Properties, Required, RequiredIssues, ParseAll, Strings, StringsOf;
    ObjectFinished(js, f);
    ChildrenRoundTrip(js, FieldToSchema(js, f), f.children, path);
    ObjectReads(js, FieldToSchema(js, f), f, Properties(js, f.children, EMPTY), path);
    WordsDiffer();
    hide Name;
  }

  /** Valid fields in canonical form open in the builder again, as they were, up to ids and unused parts. */
  lemma FieldsRoundTrip(js: Script, fields: seq<Field>)
    requires Lawful(js) && FieldsValid(js, fields, false) && AllCanonical(js, fields)
    ensures SchemaToEditor(js, EditorToSchema(js, fields)) == Builder(AllActive(fields))
  {
    hide Properties, Required, FieldValid, Canonical, ParseAll, AllActive, Lawful;
    ListParts(js, fields, false);
    PropertiesAre(js, fields, EMPTY);
    RequiredAre(js, fields);
    var p, r := Properties(js, fields, EMPTY), Required(js, fields);
    assert p.keys == Keys(fields) && p.at.Keys == set k | k in Keys(fields);
    AllRoundTrip(js, p, fields, r, ROOT + [Name(PropertiesWord)], 0);
    RootDocument(js, fields);
  }

  /** The root of a printed schema raises no objection. */
  lemma RootDocument(js: Script, fields: seq<Field>)
    requires KeysTrimmed(js, fields) && DistinctKeys(fields)
    requires var p := Properties(js, fields, EMPTY); p.keys == Keys(fields) && p.at.Keys == set k | k in Keys(fields)
    ensures var o := EditorToSchema(js, fields).members;
      && o.keys != [] && RootIssues(o) == [] && PropertiesOf(o) == Properties(js, fields, EMPTY)
      && StringsOf(Get(o, Name(RequiredWord))) == Required(js, fields)
  {
    hide Name, WordOf, Properties, Required, Strings, StringsOf, RequiredIssues, KeysTrimmed, DistinctKeys, Keys;
    NamesApart();
    var o := EditorToSchema(js, fields).members;
    RequiredDocument(js, o, fields, ROOT);
    RootValid(js, fields);
    NoUnknownKeys(o, ROOT_KEYS, ROOT);
  }

  lemma RootValid(js: Script, fields: seq<Field>)
    ensures EditorToSchema(js, fields).members.Valid()
  {
    hide Name, Object.Valid, Properties, Required, Strings;
    var p := Obj(Properties(js, fields, EMPTY));
    assert EMPTY.Valid() by { EmptyValid(); }
    EMPTY.PutValid(Name(Type), Str(Name(ObjectWord)));
    EMPTY.Put(Name(Type), Str(Name(ObjectWord))).PutValid(Name(PropertiesWord), p);
    EMPTY.Put(Name(Type), Str(Name(ObjectWord))).Put(Name(PropertiesWord), p).PutValid(Name(RequiredWord), Strings(Required(js, fields)));
  }

  lemma EmptyValid()
    ensures EMPTY.Valid()
  {
  }
}
