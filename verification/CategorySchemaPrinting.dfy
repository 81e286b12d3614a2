// What the editor writes can be printed and read back, and leaves out nothing
// that is in use.
module CategorySchemaPrinting {
  import opened CategorySchema
  import opened CategorySchemaTheorems

  lemma StringsPrintable(values: seq<string>)
    ensures Printable(Strings(values))
  {
  }

  lemma PutPrintable(o: Object, k: string, v: Json)
    requires Printable(Obj(o)) && Printable(v)
    ensures Printable(Obj(o.Put(k, v)))
  {
    o.PutValid(k, v);
    hide Object.Valid;
  }

  lemma ScalarPrintable(js: Script, o: Object, kind: Scalar, enumValues: seq<string>)
    requires Printable(Obj(o))
    ensures Printable(Obj(ScalarSchema(js, o, kind, enumValues)))
  {
    var options := Strings(NonBlank(js, enumValues));
    StringsPrintable(NonBlank(js, enumValues));
    var name := ScalarSchema(js, EMPTY, kind, enumValues).at[Name(Type)];
    hide Name, Strings, NonBlank, Object.Put;
    PutPrintable(o, Name(Type), Str(Name(StringWord)));
    PutPrintable(o, Name(Type), Str(Name(NumberWord)));
    PutPrintable(o, Name(Type), Str(Name(BooleanWord)));
    PutPrintable(o.Put(Name(Type), Str(Name(StringWord))), Name(Format), Str(Name(DateWord)));
    PutPrintable(o.Put(Name(Type), Str(Name(StringWord))), Name(Enum), options);
  }

  lemma TextsPrintable(js: Script, f: Field)
    ensures Printable(Obj(WithTexts(js, f)))
  {
    assert Printable(Obj(EMPTY));
    hide Name, Object.Put;
    PutPrintable(EMPTY, Name(Title), Str(f.title));
    PutPrintable(EMPTY, Name(Description), Str(f.description));
    PutPrintable(EMPTY.Put(Name(Title), Str(f.title)), Name(Description), Str(f.description));
  }

  lemma RequiredPrintable(o: Object, required: seq<string>)
    requires Printable(Obj(o))
    ensures Printable(Obj(WithRequired(o, required)))
  {
    StringsPrintable(required);
    PutPrintable(o, Name(RequiredWord), Strings(required));
    hide Name, Strings, Object.Put;
  }

  /** A default in the editor's own form was printed by it, so it holds no infinite number. */
  lemma DefaultPrintable(js: Script, f: Field)
    requires Lawful(js) && DefaultValid(js, f) && DefaultCanonical(js, f) && f.hasDefault
    ensures ParseDefault(js, f).Some? && Printable(ParseDefault(js, f).value)
  {
    assert js.number(js.trim(f.defaultValue)) == js.number(f.defaultValue);
    hide AllCompatible;
  }

  lemma {:induction false} FieldPrintable(js: Script, f: Field, nested: bool)
    requires Lawful(js) && FieldValid(js, f, nested) && Canonical(js, f)
    ensures Printable(Obj(FieldToSchema(js, f)))
    decreases f, 2
  {
    KindPrintable(js, f, nested);
    if f.hasDefault {
      DefaultPrintable(js, f);
      PutPrintable(WithKind(js, f), Name(Default), ParseDefault(js, f).value);
    }
    hide Name, WithKind, ParseDefault, Object.Put, Lawful, FieldValid, Canonical;
  }

  lemma {:induction false} KindPrintable(js: Script, f: Field, nested: bool)
    requires Lawful(js) && FieldValid(js, f, nested) && Canonical(js, f)
    ensures Printable(Obj(WithKind(js, f)))
    decreases f, 1
  {
    hide Name, Object.Put, Lawful, WithTexts, ScalarSchema, Properties, WithRequired, EnumsValid, DefaultValid, FieldsValid, Printable;
    hide AllCanonical, DefaultCanonical, AllShown, Required;
    var o := WithTexts(js, f);
    TextsPrintable(js, f);
    match f.kind
    case Plain(scalar) => ScalarPrintable(js, o, scalar, f.enumValues);
    case ArrayKind =>
      EmptyPrintable();
      ScalarPrintable(js, EMPTY, f.itemKind, f.itemEnumValues);
      PutPrintable(o, Name(Type), Str(Name(ArrayWord))) by { TextPrintable(Name(ArrayWord)); }
      PutPrintable(o.Put(Name(Type), Str(Name(ArrayWord))), Name(Items), Obj(ScalarSchema(js, EMPTY, f.itemKind, f.itemEnumValues)));
    case ObjectKind =>
      AllPrintable(js, f.children, true);
      ListPrintable(js, o, f.children);
  }

  lemma EmptyPrintable()
    ensures Printable(Obj(EMPTY))
  {
  }

  lemma TextPrintable(s: string)
    ensures Printable(Str(s))
  {
  }

  /** The type, properties and required members of a list of fields. */
  lemma ListPrintable(js: Script, o: Object, fields: seq<Field>)
    requires Printable(Obj(o)) && Printable(Obj(Properties(js, fields, EMPTY)))
    ensures Printable(Obj(WithRequired(o.Put(Name(Type), Str(Name(ObjectWord))).Put(Name(PropertiesWord), Obj(Properties(js, fields, EMPTY))),
                                       Required(js, fields))))
  {
    hide Name, Object.Put, Properties, WithRequired, Required, Printable;
    TextPrintable(Name(ObjectWord));
    PutPrintable(o, Name(Type), Str(Name(ObjectWord)));
    var p := o.Put(Name(Type), Str(Name(ObjectWord)));
    PutPrintable(p, Name(PropertiesWord), Obj(Properties(js, fields, EMPTY)));
    RequiredPrintable(p.Put(Name(PropertiesWord), Obj(Properties(js, fields, EMPTY))), Required(js, fields));
  }

  lemma {:induction false} AllPrintable(js: Script, fields: seq<Field>, nested: bool)
    requires Lawful(js) && FieldsValid(js, fields, nested) && AllCanonical(js, fields)
    ensures Printable(Obj(Properties(js, fields, EMPTY)))
    decreases fields, 3
  {
    EmptyPrintable();
    EachPrintable(js, fields, EMPTY, nested);
    hide *;
  }

  lemma {:induction false} EachPrintable(js: Script, fields: seq<Field>, done: Object, nested: bool)
    requires Lawful(js) && AllCanonical(js, fields) && Printable(Obj(done))
    requires forall k :: 0 <= k < |fields| ==> FieldValid(js, fields[k], nested)
    ensures Printable(Obj(Properties(js, fields, done)))
    decreases fields, 2
  {
    hide Printable, FieldToSchema, FieldValid, Canonical, Lawful, Object.Put;
    if fields != [] {
      FieldPrintable(js, fields[0], nested);
      var key, v := js.trim(fields[0].key), Obj(FieldToSchema(js, fields[0]));
      PutPrintable(done, key, v);
      assert forall k :: 0 <= k < |fields[1..]| ==> fields[1..][k] == fields[k + 1];
      EachPrintable(js, fields[1..], done.Put(key, v), nested);
    }
  }

  /** The schema of valid fields in canonical form survives printing and parsing. */
  lemma SchemaPrintable(js: Script, fields: seq<Field>)
    requires Lawful(js) && FieldsValid(js, fields, false) && AllCanonical(js, fields)
    ensures Printable(EditorToSchema(js, fields))
  {
    hide Name, Object.Put, Properties, WithRequired, Required, Printable, Lawful, FieldsValid, AllCanonical;
    EmptyPrintable();
    AllPrintable(js, fields, false);
    ListPrintable(js, EMPTY, fields);
  }

  // ---------------------------------------------------------------- unused parts are not written

  lemma ActiveDefaultSame(js: Script, f: Field)
    requires f.hasDefault
    ensures ParseDefault(js, Active(f)) == ParseDefault(js, f)
  {
    hide AllActive;
  }

  lemma {:induction false} ActiveFieldSame(js: Script, f: Field)
    ensures FieldToSchema(js, Active(f)) == FieldToSchema(js, f)
    decreases f, 2
  {
    ActiveKindSame(js, f);
    if f.hasDefault { ActiveDefaultSame(js, f); }
    hide Name, Object.Put, WithKind, ParseDefault, AllActive;
  }

  lemma {:induction false} ActiveKindSame(js: Script, f: Field)
    ensures WithKind(js, Active(f)) == WithKind(js, f)
    decreases f, 1
  {
    hide Name, Object.Put, Properties, Required, AllActive, NonBlank, WithRequired, Strings;
    if f.kind.ObjectKind? {
      ActivePropertiesSame(js, f.children, EMPTY);
      ActiveRequiredSame(js, f.children);
    }
  }

  lemma {:induction false} ActivePropertiesSame(js: Script, fields: seq<Field>, done: Object)
    ensures Properties(js, AllActive(fields), done) == Properties(js, fields, done)
    decreases fields, 0
  {
    hide FieldToSchema, Object.Put;
    if fields != [] {
      ActiveFieldSame(js, fields[0]);
      ActivePropertiesSame(js, fields[1..], done.Put(js.trim(fields[0].key), Obj(FieldToSchema(js, fields[0]))));
      assert AllActive(fields)[0] == Active(fields[0]) && AllActive(fields)[1..] == AllActive(fields[1..]);
    }
  }

  lemma {:induction false} ActiveRequiredSame(js: Script, fields: seq<Field>)
    ensures Required(js, AllActive(fields)) == Required(js, fields)
  {
    if fields != [] {
      ActiveRequiredSame(js, fields[1..]);
      assert AllActive(fields)[0] == Active(fields[0]) && AllActive(fields)[1..] == AllActive(fields[1..]);
    }
  }

  /** The parts that a round trip drops were never written. */
  lemma ActiveSaysTheSame(js: Script, fields: seq<Field>)
    ensures EditorToSchema(js, AllActive(fields)) == EditorToSchema(js, fields)
  {
    ActivePropertiesSame(js, fields, EMPTY);
    ActiveRequiredSame(js, fields);
    hide Properties, Required, AllActive;
  }
}
