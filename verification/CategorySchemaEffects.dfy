// The schema codec, document by document: what a field is written as, what a
// property is read as, and which fields validate.
module CategorySchemaEffects {
  import opened CategorySchema
  import opened CategorySchemaTheorems
  import opened Picking
  import opened Wrappers

  // ---------------------------------------------------------------- words

  /** The words of JSON Schema. */
  lemma NamesAre()
    ensures Name(Type) == "type" && Name(Title) == "title" && Name(Description) == "description" && Name(Default) == "default"
    ensures Name(Format) == "format" && Name(Enum) == "enum" && Name(Items) == "items"
    ensures Name(PropertiesWord) == "properties" && Name(RequiredWord) == "required"
    ensures Name(StringWord) == "string" && Name(NumberWord) == "number" && Name(BooleanWord) == "boolean"
    ensures Name(ArrayWord) == "array" && Name(ObjectWord) == "object" && Name(DateWord) == "date"
  {
  }

  /** The members that each kind of document may have. */
  lemma MembersAre()
    ensures ROOT_KEYS == {"type", "properties", "required"} && ITEM_KEYS == {"type", "format", "enum"}
    ensures SCALAR_KEYS == {"type", "title", "description", "default", "format", "enum"}
    ensures ARRAY_KEYS == {"type", "title", "description", "default", "items"}
    ensures OBJECT_KEYS == {"type", "title", "description", "default", "properties", "required"}
  {
    NamesAre();
    hide Name;
  }

  // ---------------------------------------------------------------- writing

  /** The member of an object, as text. */
  predicate Has(o: Object, k: Word, text: string) { Name(k) in o.at && o.at[Name(k)] == Str(text) }

  /** The options that are written: those that are not blank, in order. */
  ghost predicate Options(js: Script, v: Json, values: seq<string>, at: seq<nat>) {
    && Picks(at, values, (s: string) => js.trim(s) != "")
    && v.Arr? && |v.items| == |at| && forall k :: 0 <= k < |at| ==> at[k] < |values| && v.items[k] == Str(values[at[k]])
  }

  /** Type, format and options of a scalar. */
  ghost predicate SaysScalar(js: Script, o: Object, kind: Scalar, values: seq<string>) {
    && (match kind
        case NumberScalar => Has(o, Type, "number")
        case BooleanScalar => Has(o, Type, "boolean")
        case _ => Has(o, Type, "string"))
    && (if kind.DateScalar? then Has(o, Format, "date") else Name(Format) !in o.at)
    && (Name(Enum) in o.at <==> kind.EnumScalar?)
    && (kind.EnumScalar? ==> exists at :: Options(js, o.at[Name(Enum)], values, at))
  }

  /** Title and description, where they are not blank. */
  ghost predicate SaysTexts(js: Script, o: Object, f: Field) {
    && (Name(Title) in o.at <==> js.trim(f.title) != "") && (js.trim(f.title) != "" ==> Has(o, Title, f.title))
    && (Name(Description) in o.at <==> js.trim(f.description) != "")
    && (js.trim(f.description) != "" ==> Has(o, Description, f.description))
  }

  /** The default: a number or a flag for such fields, the text itself for other scalars, JSON for lists and objects. */
  ghost predicate SaysDefault(js: Script, o: Object, f: Field) {
    && (Name(Default) in o.at <==> f.hasDefault && (f.kind.Plain? || js.parse(f.defaultValue).Some?))
    && (Name(Default) in o.at ==>
          match f.kind
          case Plain(NumberScalar) => o.at[Name(Default)] == Number(js.number(f.defaultValue))
          case Plain(BooleanScalar) => o.at[Name(Default)] == Bool(js.trim(f.defaultValue) == "true")
          case Plain(_) => o.at[Name(Default)] == Str(f.defaultValue)
          case _ => Some(o.at[Name(Default)]) == js.parse(f.defaultValue))
  }

  /** Properties and required names of some fields: under each name the document of the last field that has it. */
  ghost predicate SaysFields(js: Script, o: Object, fields: seq<Field>) {
    && Name(PropertiesWord) in o.at && o.at[Name(PropertiesWord)].Obj?
    && SaysProperties(js, o.at[Name(PropertiesWord)].members, fields)
    && (Name(RequiredWord) in o.at <==> exists k :: 0 <= k < |fields| && fields[k].required)
    && (Name(RequiredWord) in o.at ==> exists at :: SaysRequired(js, o.at[Name(RequiredWord)], fields, at))
  }

  ghost predicate LastNamed(js: Script, fields: seq<Field>, key: string, i: nat) {
    i < |fields| && js.trim(fields[i].key) == key && forall j :: i < j < |fields| ==> js.trim(fields[j].key) != key
  }

  ghost predicate SaysProperties(js: Script, p: Object, fields: seq<Field>) {
    && (forall key :: key in p.at <==> exists i: nat :: LastNamed(js, fields, key, i))
    && forall i: nat, key :: LastNamed(js, fields, key, i) ==> p.at[key] == Obj(FieldToSchema(js, fields[i]))
  }

  ghost predicate SaysRequired(js: Script, v: Json, fields: seq<Field>, at: seq<nat>) {
    && Picks(at, fields, (f: Field) => f.required)
    && v.Arr? && |v.items| == |at| && forall k :: 0 <= k < |at| ==> at[k] < |fields| && v.items[k] == Str(js.trim(fields[at[k]].key))
  }

  /** The document of a field. */
  ghost predicate Writes(js: Script, o: Object, f: Field) {
    && SaysTexts(js, o, f) && SaysDefault(js, o, f)
    && match f.kind
       case Plain(scalar) => SaysScalar(js, o, scalar, f.enumValues)
       case ArrayKind =>
         && Has(o, Type, "array") && Name(Items) in o.at && o.at[Name(Items)].Obj?
         && SaysScalar(js, o.at[Name(Items)].members, f.itemKind, f.itemEnumValues)
       case ObjectKind => Has(o, Type, "object") && SaysFields(js, o, f.children)
  }

  lemma {:induction false} NonBlankLeaves(js: Script, values: seq<string>, keep: string -> bool) returns (at: seq<nat>)
    requires forall s :: keep(s) <==> js.trim(s) != ""
    ensures Leaves(NonBlank(js, values), values, keep, at)
  {
    hide Leaves;
    if values == [] {
      LeavesNothing(keep);
      at := [];
    } else {
      var before := NonBlankLeaves(js, values[1..], keep);
      at := (if keep(values[0]) then [0] else []) + Shifted(before);
      LeavesMore(NonBlank(js, values[1..]), values, keep, before);
    }
  }

  lemma OptionsAre(js: Script, values: seq<string>)
    ensures exists at :: Options(js, Strings(NonBlank(js, values)), values, at)
  {
    var at := NonBlankLeaves(js, values, (s: string) => js.trim(s) != "");
    hide NonBlank, Picks;
    assert Options(js, Strings(NonBlank(js, values)), values, at);
  }

  /** A scalar document, whatever else the object says. */
  lemma ScalarSays(js: Script, o: Object, kind: Scalar, values: seq<string>)
    requires Name(Format) !in o.at && Name(Enum) !in o.at
    ensures SaysScalar(js, ScalarSchema(js, o, kind, values), kind, values)
    ensures forall w: Word :: w !in {Type, Format, Enum} ==> Get(ScalarSchema(js, o, kind, values), Name(w)) == Get(o, Name(w))
  {
    OptionsAre(js, values);
    NamesApart();
    NamesAre();
    hide Name, WordOf, NonBlank, Strings, Options;
  }

  lemma TextsSay(js: Script, f: Field)
    ensures SaysTexts(js, WithTexts(js, f), f)
    ensures forall w: Word :: w !in {Title, Description} ==> Get(WithTexts(js, f), Name(w)) == None
  {
    NamesApart();
    hide Name, WordOf;
  }

  /** What stands under a key once all fields are written: the last field that has it, or what stood there before. */
  lemma {:induction false} PropertyAt(js: Script, fields: seq<Field>, done: Object, key: string) returns (i: Option<nat>)
    ensures i.Some? ==>
      && LastNamed(js, fields, key, i.value)
      && key in Properties(js, fields, done).at && Properties(js, fields, done).at[key] == Obj(FieldToSchema(js, fields[i.value]))
    ensures i.None? ==>
      && (forall j :: 0 <= j < |fields| ==> js.trim(fields[j].key) != key)
      && Get(Properties(js, fields, done), key) == Get(done, key)
    decreases fields
  {
    hide FieldToSchema;
    if fields == [] {
      i := None;
    } else {
      var rest, first := fields[1..], js.trim(fields[0].key);
      var next := done.Put(first, Obj(FieldToSchema(js, fields[0])));
      var later := PropertyAt(js, rest, next, key);
      if later.Some? {
        i := Some(later.value + 1);
        assert forall j :: i.value < j < |fields| ==> fields[j] == rest[j - 1];
      } else {
        assert forall j :: 0 < j < |fields| ==> fields[j] == rest[j - 1];
        i := if first == key then Some(0) else None;
      }
    }
  }

  lemma PropertiesSay(js: Script, fields: seq<Field>)
    ensures SaysProperties(js, Properties(js, fields, EMPTY), fields)
  {
    hide Properties, FieldToSchema;
    var p := Properties(js, fields, EMPTY);
    forall key ensures key in p.at <==> exists i: nat :: LastNamed(js, fields, key, i) {
      var i := PropertyAt(js, fields, EMPTY, key);
    }
    forall i: nat, key | LastNamed(js, fields, key, i) ensures p.at[key] == Obj(FieldToSchema(js, fields[i])) {
      var j := PropertyAt(js, fields, EMPTY, key);
      assert j == Some(i);
    }
  }

  lemma {:induction false} RequiredPicks(js: Script, fields: seq<Field>, keep: Field -> bool, named: (Field, string) -> bool) returns (at: seq<nat>)
    requires (forall f :: keep(f) <==> f.required) && forall f, key :: named(f, key) <==> key == js.trim(f.key)
    ensures Picks(at, fields, keep) && Makes(Required(js, fields), fields, at, named)
  {
    hide Picks, Makes;
    if fields == [] {
      at := [];
      NothingPicked(js, keep, named);
    } else {
      var before := RequiredPicks(js, fields[1..], keep, named);
      at := (if keep(fields[0]) then [0] else []) + Shifted(before);
      PicksMore(before, fields, keep);
      MakesMore(if fields[0].required then [js.trim(fields[0].key)] else [], Required(js, fields[1..]), fields, before, named);
    }
  }

  lemma NothingPicked(js: Script, keep: Field -> bool, named: (Field, string) -> bool)
    ensures Picks([], [], keep) && Makes([], [], [], named)
  {
  }

  lemma RequiredSay(js: Script, fields: seq<Field>)
    ensures Required(js, fields) != [] <==> exists k :: 0 <= k < |fields| && fields[k].required
    ensures exists at :: SaysRequired(js, Strings(Required(js, fields)), fields, at)
  {
    var at := RequiredPicks(js, fields, (f: Field) => f.required, (f: Field, key: string) => key == js.trim(f.key));
    hide Required;
    assert SaysRequired(js, Strings(Required(js, fields)), fields, at);
    if k :| 0 <= k < |fields| && fields[k].required { assert k in at; }
    if at != [] { assert fields[at[0]].required; }
  }

  lemma FieldsSay(js: Script, o: Object, fields: seq<Field>)
    requires Name(RequiredWord) !in o.at
    ensures var d := WithRequired(o.Put(Name(PropertiesWord), Obj(Properties(js, fields, EMPTY))), Required(js, fields));
      && SaysFields(js, d, fields)
      && forall w: Word :: w !in {PropertiesWord, RequiredWord} ==> Get(d, Name(w)) == Get(o, Name(w))
  {
    PropertiesSay(js, fields);
    RequiredSay(js, fields);
    NamesApart();
    hide Name, WordOf, Properties, Required, SaysProperties, SaysRequired, Strings;
  }

  lemma KindSays(js: Script, f: Field)
    ensures var o := WithKind(js, f);
      && SaysTexts(js, o, f) && Name(Default) !in o.at
      && match f.kind
         case Plain(scalar) => SaysScalar(js, o, scalar, f.enumValues)
         case ArrayKind =>
           && Has(o, Type, "array") && Name(Items) in o.at && o.at[Name(Items)].Obj?
           && SaysScalar(js, o.at[Name(Items)].members, f.itemKind, f.itemEnumValues)
         case ObjectKind => Has(o, Type, "object") && SaysFields(js, o, f.children)
  {
    TextsSay(js, f);
    NamesApart();
    NamesAre();
    hide Name, WordOf, WithTexts, SaysScalar, SaysFields, ScalarSchema, Properties, Required;
    var o := WithTexts(js, f);
    match f.kind
    case Plain(scalar) => ScalarSays(js, o, scalar, f.enumValues);
    case ArrayKind => ScalarSays(js, EMPTY, f.itemKind, f.itemEnumValues);
    case ObjectKind => FieldsSay(js, o.Put(Name(Type), Str(Name(ObjectWord))), f.children);
  }

  /** Two objects that differ at most in the default. */
  ghost predicate SameButDefault(o: Object, d: Object) { forall w: Word :: w != Default ==> Get(d, Name(w)) == Get(o, Name(w)) }

  lemma SaysMore(o: Object, v: Json)
    ensures SameButDefault(o, o.Put(Name(Default), v))
  {
    NamesApart();
    hide Name, WordOf;
  }

  lemma TextsKept(js: Script, o: Object, d: Object, f: Field)
    requires SameButDefault(o, d) && SaysTexts(js, o, f)
    ensures SaysTexts(js, d, f)
  {
    hide Name;
    assert Get(d, Name(Title)) == Get(o, Name(Title)) && Get(d, Name(Description)) == Get(o, Name(Description));
  }

  lemma ScalarKept(js: Script, o: Object, d: Object, kind: Scalar, values: seq<string>)
    requires SameButDefault(o, d) && SaysScalar(js, o, kind, values)
    ensures SaysScalar(js, d, kind, values)
  {
    hide Name, Options;
    assert Get(d, Name(Type)) == Get(o, Name(Type)) && Get(d, Name(Format)) == Get(o, Name(Format)) && Get(d, Name(Enum)) == Get(o, Name(Enum));
  }

  lemma FieldsKept(js: Script, o: Object, d: Object, fields: seq<Field>)
    requires SameButDefault(o, d) && SaysFields(js, o, fields) && Has(o, Type, "object")
    ensures SaysFields(js, d, fields) && Has(d, Type, "object")
  {
    hide Name, SaysProperties, SaysRequired;
    assert Get(d, Name(PropertiesWord)) == Get(o, Name(PropertiesWord)) && Get(d, Name(RequiredWord)) == Get(o, Name(RequiredWord));
    assert Get(d, Name(Type)) == Get(o, Name(Type));
  }

  lemma ItemsKept(o: Object, d: Object)
    requires SameButDefault(o, d)
    ensures Get(d, Name(Type)) == Get(o, Name(Type)) && Get(d, Name(Items)) == Get(o, Name(Items))
  {
  }

  /** Every field is written as its parts say, however deep it stands. */
  lemma WritesIs(js: Script, f: Field)
    ensures Writes(js, FieldToSchema(js, f), f)
  {
    hide Name, WithKind, SaysScalar, SaysFields, SaysTexts, SameButDefault;
    KindSays(js, f);
    if f.hasDefault && ParseDefault(js, f).Some? {
      var o, d := WithKind(js, f), FieldToSchema(js, f);
      SaysMore(o, ParseDefault(js, f).value);
      TextsKept(js, o, d, f);
      ItemsKept(o, d);
      match f.kind
      case Plain(scalar) => ScalarKept(js, o, d, scalar, f.enumValues);
      case ArrayKind =>
      case ObjectKind => FieldsKept(js, o, d, f.children);
    }
  }

  /** The document of a list of fields. */
  lemma SchemaWrites(js: Script, fields: seq<Field>)
    ensures var o := EditorToSchema(js, fields).members;
      EditorToSchema(js, fields).Obj? && Has(o, Type, "object") && SaysFields(js, o, fields)
  {
    NamesApart();
    NamesAre();
    hide Name, WordOf, SaysFields, Properties, Required;
    FieldsSay(js, EMPTY.Put(Name(Type), Str(Name(ObjectWord))), fields);
  }

  // ---------------------------------------------------------------- reading

  /** A list of texts, or nothing. */
  predicate Lists(o: Object, w: Word, values: seq<string>) {
    if Name(w) in o.at then
      && o.at[Name(w)].Arr? && |o.at[Name(w)].items| == |values|
      && forall k :: 0 <= k < |values| ==> o.at[Name(w)].items[k] == Str(values[k])
    else values == []
  }

  predicate TextIs(o: Object, w: Word, text: string) { if Name(w) in o.at then o.at[Name(w)] == Str(text) else text == "" }

  /** The kind of a scalar document: options make an enum, a format a date, and otherwise the type decides. */
  predicate KindIs(o: Object, kind: Scalar) {
    && (kind.EnumScalar? <==> Name(Enum) in o.at)
    && (kind.DateScalar? <==> Name(Format) in o.at)
    && (kind.NumberScalar? <==> Has(o, Type, "number"))
    && (kind.BooleanScalar? <==> Has(o, Type, "boolean"))
  }

  /** The default as text: texts as they are, and everything else as JSON. */
  predicate DefaultIs(js: Script, o: Object, f: Field) {
    && (f.hasDefault <==> Name(Default) in o.at)
    && (if !f.hasDefault then f.defaultValue == ""
        else if o.at[Name(Default)].Str? then o.at[Name(Default)] == Str(f.defaultValue)
        else f.defaultValue == js.compact(o.at[Name(Default)]))
  }

  /** What a field says of the document it was read from. */
  ghost predicate ReadFrom(js: Script, o: Object, f: Field)
    decreases f, 1
  {
    && TextIs(o, Title, f.title) && TextIs(o, Description, f.description) && DefaultIs(js, o, f)
    && match f.kind
       case ArrayKind =>
         && Has(o, Type, "array") && Name(Items) in o.at && o.at[Name(Items)].Obj?
         && KindIs(o.at[Name(Items)].members, f.itemKind) && Lists(o.at[Name(Items)].members, Enum, f.itemEnumValues)
         && f.enumValues == [] && f.children == []
       case ObjectKind =>
         && Has(o, Type, "object") && PropertiesRead(js, o, f.children)
         && f.enumValues == [] && f.itemKind == StringScalar && f.itemEnumValues == []
       case Plain(scalar) =>
         && KindIs(o, scalar) && Lists(o, Enum, f.enumValues)
         && f.itemKind == StringScalar && f.itemEnumValues == [] && f.children == []
  }

  /** One field for each property, in order; it is required exactly if its name is in the list. */
  ghost predicate PropertiesRead(js: Script, o: Object, fields: seq<Field>)
    decreases fields, 0
  {
    if Name(PropertiesWord) !in o.at then fields == []
    else
      && o.at[Name(PropertiesWord)].Obj?
      && var p := o.at[Name(PropertiesWord)].members;
        && |fields| == |p.keys|
        && forall k :: 0 <= k < |fields| ==>
             && fields[k].key == p.keys[k] && (fields[k].required <==> Requires(o, p.keys[k]))
             && p.keys[k] in p.at && p.at[p.keys[k]].Obj? && ReadFrom(js, p.at[p.keys[k]].members, fields[k])
  }

  /** The name is in the list of required names. */
  predicate Requires(o: Object, key: string) {
    && Name(RequiredWord) in o.at && o.at[Name(RequiredWord)].Arr?
    && exists k :: 0 <= k < |o.at[Name(RequiredWord)].items| && o.at[Name(RequiredWord)].items[k] == Str(key)
  }

  lemma BaseReads(js: Script, key: string, o: Object, required: bool, kind: Kind)
    requires TextsFit(o)
    ensures var f := BaseField(js, key, o, required, kind);
      && TextIs(o, Title, f.title) && TextIs(o, Description, f.description) && DefaultIs(js, o, f)
      && f.key == key && f.required == required && f.kind == kind
      && f.enumValues == [] && f.itemKind == StringScalar && f.itemEnumValues == [] && f.children == []
  {
    hide Name;
  }

  lemma ScalarKindIs(o: Object)
    requires ScalarFits(o)
    ensures KindIs(o, ScalarKind(o)) && Lists(o, Enum, StringsOf(Get(o, Name(Enum))))
  {
    NamesApart();
    NamesAre();
    hide Name, WordOf;
  }

  lemma ReadsScalar(js: Script, o: Object, key: string, required: bool, path: Path)
    requires ScalarName(Get(o, Name(Type))) && ParseScalar(js, o, key, required, path).issues == []
    ensures var f := ParseScalar(js, o, key, required, path).field;
      f.Some? && ReadFrom(js, o, f.value) && f.value.key == key && f.value.required == required
  {
    ScalarIff(js, o, key, required, path);
    SupportedScalar(js, o);
    ScalarKindIs(o);
    BaseReads(js, key, o, required, Plain(ScalarKind(o)));
    hide Name, Supported, KindIs, Lists, TextIs, DefaultIs, BaseField, ScalarKind, StringsOf;
    hide TextIssues, UnknownKeys, FormatIssues, DefaultIssues;
  }

  lemma SupportedScalar(js: Script, o: Object)
    requires ScalarName(Get(o, Name(Type))) && Supported(js, Obj(o), 1)
    ensures TextsFit(o) && ScalarFits(o)
  {
    NamesApart();
    hide Name, WordOf;
  }

  lemma SupportedArray(js: Script, o: Object)
    requires Get(o, Name(Type)) == Some(Str(Name(ArrayWord))) && Supported(js, Obj(o), 1)
    ensures TextsFit(o) && Name(Items) in o.at && o.at[Name(Items)].Obj? && ScalarFits(o.at[Name(Items)].members)
  {
    NamesApart();
    hide Name, WordOf;
  }

  lemma ReadsArray(js: Script, o: Object, key: string, required: bool, path: Path)
    requires Get(o, Name(Type)) == Some(Str(Name(ArrayWord))) && ParseArray(js, o, key, required, path).issues == []
    ensures var f := ParseArray(js, o, key, required, path).field;
      f.Some? && ReadFrom(js, o, f.value) && f.value.key == key && f.value.required == required
  {
    ArrayIff(js, o, key, required, path);
    SupportedArray(js, o);
    var items := o.at[Name(Items)].members;
    ScalarKindIs(items);
    ScalarFitsNamed(items);
    BaseReads(js, key, o, required, ArrayKind);
    NamesAre();
    hide Name, Supported, KindIs, Lists, TextIs, DefaultIs, BaseField, ScalarKind, StringsOf, ScalarName;
    hide TextIssues, UnknownKeys, ItemIssues, DefaultIssues;
  }

  lemma ScalarFitsNamed(o: Object)
    requires ScalarFits(o)
    ensures ScalarName(Get(o, Name(Type)))
  {
  }

  lemma RequiresIff(o: Object, key: string)
    requires StringsOrAbsent(Get(o, Name(RequiredWord)))
    ensures key in StringsOf(Get(o, Name(RequiredWord))) <==> Requires(o, key)
  {
    hide Name;
    if Name(RequiredWord) in o.at {
      var v := o.at[Name(RequiredWord)];
      if k :| 0 <= k < |v.items| && v.items[k] == Str(key) { assert Texts(v)[k] == key; }
    }
  }

  /** Each property without an issue is read as a field. */
  lemma {:induction false} ReadsAll(js: Script, p: Object, keys: seq<string>, required: seq<string>, path: Path, depth: nat)
    requires depth <= 1 && ParseAll(js, p, keys, required, path, depth).1 == [] && forall k :: 0 <= k < |keys| ==> keys[k] in p.at
    requires forall k :: k in p.at ==> Sound(p.at[k])
    ensures var fields := ParseAll(js, p, keys, required, path, depth).0;
      && |fields| == |keys|
      && forall k :: 0 <= k < |fields| ==>
           && fields[k].key == keys[k] && (fields[k].required <==> keys[k] in required)
           && p.at[keys[k]].Obj? && ReadFrom(js, p.at[keys[k]].members, fields[k])
    decreases 1 - depth, 3, |keys|
  {
    if keys != [] {
      assert keys[0] in p.at;
      ReadsAll(js, p, keys[1..], required, path, depth);
      ReadsProperty(js, p.at[keys[0]], keys[0], keys[0] in required, path + [keys[0]], depth);
      hide ParseProperty, ReadFrom;
      var fields := ParseAll(js, p, keys, required, path, depth).0;
      var rest := ParseAll(js, p, keys[1..], required, path, depth).0;
      assert fields[1..] == rest;
      forall k | 0 < k < |fields|
        ensures fields[k].key == keys[k] && (fields[k].required <==> keys[k] in required)
        ensures p.at[keys[k]].Obj? && ReadFrom(js, p.at[keys[k]].members, fields[k])
      {
        assert fields[k] == rest[k - 1] && keys[k] == keys[1..][k - 1];
      }
    }
  }

  /** What the loop reads is what the object says. */
  lemma ReadsObjectProperties(js: Script, o: Object, path: Path, depth: nat)
    requires depth <= 1 && Sound(Obj(o)) && PropertiesOk(o) && StringsOrAbsent(Get(o, Name(RequiredWord)))
    requires ParseAll(js, PropertiesOf(o), PropertiesOf(o).keys, StringsOf(Get(o, Name(RequiredWord))), path, depth).1 == []
    ensures var p := PropertiesOf(o);
      PropertiesRead(js, o, ParseAll(js, p, p.keys, StringsOf(Get(o, Name(RequiredWord))), path, depth).0)
    decreases 1 - depth, 4, 0
  {
    hide Name, ParseAll, ReadFrom, Requires, StringsOf, StringsOrAbsent;
    var p, names := PropertiesOf(o), StringsOf(Get(o, Name(RequiredWord)));
    SoundProperties(o);
    ReadsAll(js, p, p.keys, names, path, depth);
    forall k | 0 <= k < |p.keys| ensures p.keys[k] in names <==> Requires(o, p.keys[k]) { RequiresIff(o, p.keys[k]); }
    hide Sound;
  }

  lemma ReadsObject(js: Script, o: Object, key: string, required: bool, path: Path, depth: nat)
    requires depth <= 1 && Get(o, Name(Type)) == Some(Str(Name(ObjectWord))) && ParseObject(js, o, key, required, path, depth).issues == []
    requires Sound(Obj(o))
    ensures var f := ParseObject(js, o, key, required, path, depth).field;
      f.Some? && ReadFrom(js, o, f.value) && f.value.key == key && f.value.required == required
    decreases 1 - depth, 1, 0
  {
    hide Name, Supported, TextIs, BaseField, StringsOf, ParseAll, Sound, PropertiesRead, PropertiesOk;
    hide TextIssues, UnknownKeys, RequiredIssues, DefaultIssues;
    ObjectIff(js, o, key, required, path, depth);
    SupportedObject(js, o, depth);
    ObjectParts(js, o, key, required, path);
    ReadsObjectProperties(js, o, path + [Name(PropertiesWord)], 1);
    BaseReads(js, key, o, required, ObjectKind);
    NamesAre();
  }

  lemma SupportedObject(js: Script, o: Object, depth: nat)
    requires Get(o, Name(Type)) == Some(Str(Name(ObjectWord))) && Supported(js, Obj(o), depth)
    ensures depth == 0 && TextsFit(o) && PropertiesOk(o) && StringsOrAbsent(Get(o, Name(RequiredWord)))
  {
    NamesApart();
    hide Name, WordOf;
  }

  /** Every property without an issue is read as a field that says the same. */
  lemma ReadsProperty(js: Script, v: Json, key: string, required: bool, path: Path, depth: nat)
    requires depth <= 1 && Sound(v) && ParseProperty(js, v, key, required, path, depth).issues == []
    ensures var f := ParseProperty(js, v, key, required, path, depth).field;
      v.Obj? && f.Some? && ReadFrom(js, v.members, f.value) && f.value.key == key && f.value.required == required
    decreases 1 - depth, 2, 0
  {
    NamesApart();
    hide Name, WordOf, ParseScalar, ParseArray, ParseObject, ReadFrom;
    if v.Obj? {
      var o := v.members;
      var t := Get(o, Name(Type));
      if ScalarName(t) {
        ReadsScalar(js, o, key, required, path);
      } else if t == Some(Str(Name(ArrayWord))) {
        ReadsArray(js, o, key, required, path);
      } else if t == Some(Str(Name(ObjectWord))) {
        ReadsObject(js, o, key, required, path, depth);
      }
    }
  }

  /** The objects in the value list each of their members once. */
  ghost predicate Sound(v: Json) {
    match v
    case Arr(items) => forall k :: 0 <= k < |items| ==> Sound(items[k])
    case Obj(o) => o.Valid() && forall k :: k in o.at ==> Sound(o.at[k])
    case _ => true
  }

  lemma SoundProperties(o: Object)
    requires Sound(Obj(o))
    ensures PropertiesOf(o).Valid() && forall k :: k in PropertiesOf(o).at ==> Sound(PropertiesOf(o).at[k])
  {
    hide Name;
  }

  /** A document that opens in the builder shows each of its properties as a field that says the same, in order. */
  lemma EditorReads(js: Script, schema: Json)
    requires Sound(schema) && SchemaToEditor(js, schema).Builder?
    ensures schema.Obj? && PropertiesRead(js, schema.members, SchemaToEditor(js, schema).fields)
  {
    var o := schema.members;
    if o.keys != [] {
      hide Name, ParseAll, RootIssues, PropertiesRead, StringsOf, Sound, OpensInBuilder;
      var p, names := PropertiesOf(o), StringsOf(Get(o, Name(RequiredWord)));
      BuilderIff(js, schema);
      var issues := ParseAll(js, p, p.keys, names, ROOT + [Name(PropertiesWord)], 0).1;
      DedupEmpty(RootIssues(o) + issues);
      RootParts(o);
      ReadsObjectProperties(js, o, ROOT + [Name(PropertiesWord)], 0);
    } else {
      assert o.Valid();
    }
  }

  lemma RootParts(o: Object)
    requires RootIssues(o) == []
    ensures StringsOrAbsent(Get(o, Name(RequiredWord))) && PropertiesOk(o)
  {
    hide Name;
  }

  // ---------------------------------------------------------------- validation

  /** Keys that are not blank, and no two alike but for blanks around them. */
  predicate KeysOwn(js: Script, fields: seq<Field>) {
    && (forall k :: 0 <= k < |fields| ==> js.trim(fields[k].key) != "")
    && forall i, j :: 0 <= i < j < |fields| ==> js.trim(fields[i].key) != js.trim(fields[j].key)
  }

  /** At least one option that is not blank, and no two such options alike but for blanks around them. */
  predicate OptionsOwn(js: Script, values: seq<string>) {
    && (exists k :: 0 <= k < |values| && js.trim(values[k]) != "")
    && forall i, j :: 0 <= i < j < |values| && js.trim(values[i]) != "" ==> js.trim(values[i]) != js.trim(values[j])
  }

  /** A JSON value fits the kind of a scalar. */
  predicate ValueFits(js: Script, kind: Scalar, v: Json, values: seq<string>) {
    && (kind.StringScalar? ==> v.Str?)
    && (kind.NumberScalar? ==> v.Number? && v.num.Finite?)
    && (kind.BooleanScalar? ==> v.Bool?)
    && (kind.DateScalar? ==> v.Str? && js.isoDate(v.text))
    && (kind.EnumScalar? ==> exists k :: 0 <= k < |values| && v == Str(values[k]))
  }

  /** The text of a default fits the field. */
  predicate DefaultOwn(js: Script, f: Field) {
    var text := js.trim(f.defaultValue);
    match f.kind
    case Plain(StringScalar) => true
    case Plain(NumberScalar) => text != "" && js.number(text).Finite?
    case Plain(BooleanScalar) => text == "true" || text == "false"
    case Plain(DateScalar) => js.isoDate(text)
    case Plain(EnumScalar) => exists k :: 0 <= k < |f.enumValues| && f.enumValues[k] == f.defaultValue
    case ArrayKind =>
      && js.parse(text).Some? && js.parse(text).value.Arr?
      && forall k :: 0 <= k < |js.parse(text).value.items| ==> ValueFits(js, f.itemKind, js.parse(text).value.items[k], f.itemEnumValues)
    case ObjectKind => js.parse(text).Some? && js.parse(text).value.Obj?
  }

  predicate FieldOwn(js: Script, f: Field) {
    && (f.kind == Plain(EnumScalar) ==> OptionsOwn(js, f.enumValues))
    && (f.kind.ArrayKind? && f.itemKind.EnumScalar? ==> OptionsOwn(js, f.itemEnumValues))
    && (f.hasDefault ==> DefaultOwn(js, f))
  }

  /** The positions of the options that are not blank. */
  lemma TrimmedAt(js: Script, values: seq<string>) returns (at: seq<nat>)
    ensures Picks(at, values, (s: string) => js.trim(s) != "") && |Trimmed(js, values)| == |at|
    ensures forall k :: 0 <= k < |at| ==> at[k] < |values| && Trimmed(js, values)[k] == js.trim(values[at[k]])
  {
    at := NonBlankLeaves(js, values, (s: string) => js.trim(s) != "");
    hide NonBlank, Picks;
  }

  lemma TrimmedSome(js: Script, values: seq<string>)
    ensures Trimmed(js, values) != [] <==> exists k :: 0 <= k < |values| && js.trim(values[k]) != ""
  {
    var at := TrimmedAt(js, values);
    hide Trimmed;
    if k: nat :| k < |values| && js.trim(values[k]) != "" { assert k in at; }
    if at != [] { assert js.trim(values[at[0]]) != ""; }
  }

  lemma TrimmedApart(js: Script, values: seq<string>)
    ensures NoRepeats(Trimmed(js, values)) <==>
      forall i, j :: 0 <= i < j < |values| && js.trim(values[i]) != "" ==> js.trim(values[i]) != js.trim(values[j])
  {
    var at := TrimmedAt(js, values);
    hide Trimmed;
    var trimmed := Trimmed(js, values);
    if NoRepeats(trimmed) {
      forall i: nat, j: nat | i < j < |values| && js.trim(values[i]) != "" ensures js.trim(values[i]) != js.trim(values[j]) {
        if js.trim(values[j]) != "" {
          assert i in at && j in at;
          var m: nat :| m < |at| && at[m] == i;
          var n: nat :| n < |at| && at[n] == j;
          assert m < n;
        }
      }
    } else {
      var m, n :| 0 <= m < n < |trimmed| && trimmed[m] == trimmed[n];
      assert at[m] < at[n] && js.trim(values[at[m]]) != "";
    }
  }

  lemma TrimmedOwn(js: Script, values: seq<string>)
    ensures Trimmed(js, values) != [] && NoRepeats(Trimmed(js, values)) <==> OptionsOwn(js, values)
  {
    TrimmedSome(js, values);
    TrimmedApart(js, values);
    hide Trimmed, NoRepeats;
  }

  lemma ValueFitsIff(js: Script, kind: Scalar, v: Json, values: seq<string>)
    ensures ScalarDefaultCompatible(js, kind, v, values) <==> ValueFits(js, kind, v, values)
  {
  }

  lemma FieldOwnIff(js: Script, f: Field)
    ensures EnumsValid(js, f) && DefaultValid(js, f) <==> FieldOwn(js, f)
  {
    if EnumOptions(f).Some? { TrimmedOwn(js, EnumOptions(f).value); }
    forall v ensures ScalarDefaultCompatible(js, f.itemKind, v, f.itemEnumValues) <==> ValueFits(js, f.itemKind, v, f.itemEnumValues) {
      ValueFitsIff(js, f.itemKind, v, f.itemEnumValues);
    }
    hide Trimmed, OptionsOwn, NoRepeats, ScalarDefaultCompatible, ValueFits;
  }

  /**
   * Fields validate exactly if their keys are their own, every field and every child of an object is in order by itself,
   * and no child is an object.
   */
  lemma ValidIff(js: Script, fields: seq<Field>)
    ensures FieldsValid(js, fields, false) <==>
      && KeysOwn(js, fields)
      && forall f :: f in fields ==>
           && FieldOwn(js, f)
           && (f.kind.ObjectKind? ==>
                 KeysOwn(js, f.children) && forall c :: c in f.children ==> FieldOwn(js, c) && !c.kind.ObjectKind?)
  {
    forall f: Field ensures EnumsValid(js, f) && DefaultValid(js, f) <==> FieldOwn(js, f) { FieldOwnIff(js, f); }
    hide EnumsValid, DefaultValid, FieldOwn;
    forall children ensures FieldsValid(js, children, true) <==>
      KeysOwn(js, children) && forall c :: c in children ==> FieldOwn(js, c) && !c.kind.ObjectKind?
    {
    }
  }
}
