// The draft of the category editor: switching between the builder and the raw
// schema text, and what is saved.
module CategoryEditorState {
  import opened CategorySchema
  import opened CategorySchemaPrinting
  import opened CategorySchemaTheorems
  import opened Wrappers

  datatype Draft = Draft(builder: bool, fields: seq<Field>, rawSchemaText: string, unsupportedPaths: seq<Path>)

  datatype Transition = Ready(draft: Draft) | Confirm(unsupportedPaths: seq<Path>) | InvalidText

  function OpenDraft(js: Script, schema: Json): Draft {
    match SchemaToEditor(js, schema)
    case Builder(fields) => Draft(true, fields, js.pretty(schema), [])
    case Advanced(paths) => Draft(false, [], js.pretty(schema), paths)
  }

  /** `parseAdvancedSchema`; None when it throws. */
  function ParseAdvanced(js: Script, text: string): Option<Json> {
    match js.parse(text)
    case Some(Obj(o)) => Some(Obj(o))
    case _ => None
  }

  function ActivateAdvanced(js: Script, draft: Draft): Draft {
    if !draft.builder then draft
    else draft.(builder := false, rawSchemaText := js.pretty(EditorToSchema(js, draft.fields)), unsupportedPaths := [])
  }

  function PlanBuilder(js: Script, draft: Draft): Transition {
    if draft.builder then Ready(draft)
    else
      match ParseAdvanced(js, draft.rawSchemaText)
      case None => InvalidText
      case Some(schema) =>
        match SchemaToEditor(js, schema)
        case Advanced(paths) => Confirm(paths)
        case Builder(fields) => Ready(draft.(builder := true, fields := fields, unsupportedPaths := []))
  }

  // ---------------------------------------------------------------- what is saved

  function ScalarCode(s: Scalar): Json {
    match s
    case StringScalar => Str("string")
    case NumberScalar => Str("number")
    case BooleanScalar => Str("boolean")
    case DateScalar => Str("date")
    case EnumScalar => Str("enum")
  }

  function KindCode(k: Kind): Json {
    match k
    case Plain(s) => ScalarCode(s)
    case ArrayKind => Str("array")
    case ObjectKind => Str("object")
  }

  /** `fieldStateSnapshot`; the members of each object in the order they are written. */
  function Snapshot(f: Field): Json
    decreases f, 1
  {
    Arr([Str(f.key), Str(f.title), Str(f.description), KindCode(f.kind), Bool(f.required), Bool(f.hasDefault), Str(f.defaultValue),
         Strings(f.enumValues), ScalarCode(f.itemKind), Strings(f.itemEnumValues), Arr(Snapshots(f.children))])
  }

  function Snapshots(fields: seq<Field>): (r: seq<Json>)
    ensures |r| == |fields|
    decreases fields, 0
  {
    if fields == [] then [] else [Snapshot(fields[0])] + Snapshots(fields[1..])
  }

  function Fingerprint(js: Script, fields: seq<Field>): string { js.compact(Arr(Snapshots(fields))) }

  /** `resolveCategorySchemaForSave`; None when the text is not a JSON object. */
  function Resolve(js: Script, draft: Draft, initial: Draft, original: Option<Json>): Option<Json> {
    if !draft.builder then ParseAdvanced(js, draft.rawSchemaText)
    else if original.Some? && initial.builder && Fingerprint(js, draft.fields) == Fingerprint(js, initial.fields) then original
    else Some(EditorToSchema(js, draft.fields))
  }

  lemma StringsEqual(a: seq<string>, b: seq<string>)
    requires Strings(a) == Strings(b)
    ensures a == b
  {
    assert |Strings(a).items| == |Strings(b).items|;
    forall k | 0 <= k < |a| ensures a[k] == b[k] { assert Strings(a).items[k] == Strings(b).items[k]; }
  }

  lemma {:induction false} SnapshotInjective(f: Field, g: Field)
    requires Snapshot(f) == Snapshot(g)
    ensures f == g
    decreases f, 1
  {
    var a, b := Snapshot(f).items, Snapshot(g).items;
    assert a[0] == b[0] && a[1] == b[1] && a[2] == b[2] && a[3] == b[3] && a[4] == b[4] && a[5] == b[5] && a[6] == b[6];
    assert a[7] == b[7] && a[8] == b[8] && a[9] == b[9] && a[10] == b[10];
    StringsEqual(f.enumValues, g.enumValues);
    StringsEqual(f.itemEnumValues, g.itemEnumValues);
    SnapshotsInjective(f.children, g.children);
  }

  lemma {:induction false} SnapshotsInjective(fs: seq<Field>, gs: seq<Field>)
    requires Snapshots(fs) == Snapshots(gs)
    ensures fs == gs
    decreases fs, 0
  {
    if fs != [] {
      assert Snapshots(fs)[0] == Snapshots(gs)[0] && Snapshots(fs)[1..] == Snapshots(fs[1..]) && Snapshots(gs)[1..] == Snapshots(gs[1..]);
      SnapshotInjective(fs[0], gs[0]);
      SnapshotsInjective(fs[1..], gs[1..]);
      assert fs == [fs[0]] + fs[1..] && gs == [gs[0]] + gs[1..];
    }
  }

  lemma {:induction false} SnapshotPrintable(f: Field)
    ensures Printable(Snapshot(f))
    decreases f, 1
  {
    StringsPrintable(f.enumValues);
    StringsPrintable(f.itemEnumValues);
    SnapshotsPrintable(f.children);
  }

  lemma {:induction false} SnapshotsPrintable(fields: seq<Field>)
    ensures Printable(Arr(Snapshots(fields)))
    decreases fields, 0
  {
    if fields != [] {
      SnapshotPrintable(fields[0]);
      SnapshotsPrintable(fields[1..]);
      var rest := Snapshots(fields[1..]);
      assert forall k :: 0 <= k < |rest| ==> Printable(Arr(rest).items[k]);
    }
  }

  /** Fingerprints agree exactly on equal fields. */
  lemma FingerprintIff(js: Script, fs: seq<Field>, gs: seq<Field>)
    requires Lawful(js)
    ensures Fingerprint(js, fs) == Fingerprint(js, gs) <==> fs == gs
  {
    if Fingerprint(js, fs) == Fingerprint(js, gs) {
      SnapshotsPrintable(fs);
      SnapshotsPrintable(gs);
      assert js.parse(js.compact(Arr(Snapshots(fs)))) == Some(Arr(Snapshots(fs)));
      SnapshotsInjective(fs, gs);
    }
  }

  /** Saving an untouched draft saves the stored schema, in either mode. */
  lemma UntouchedSavesStored(js: Script, schema: Json)
    requires Lawful(js) && Printable(schema) && schema.Obj?
    ensures Resolve(js, OpenDraft(js, schema), OpenDraft(js, schema), Some(schema)) == Some(schema)
  {
    hide SchemaToEditor, Fingerprint;
  }

  /** A builder draft saves the stored schema exactly if no field changed, and what the fields say otherwise. */
  lemma BuilderSaves(js: Script, schema: Json, draft: Draft)
    requires Lawful(js) && OpenDraft(js, schema).builder && draft.builder
    ensures Resolve(js, draft, OpenDraft(js, schema), Some(schema)) ==
      Some(if draft.fields == OpenDraft(js, schema).fields then schema else EditorToSchema(js, draft.fields))
  {
    FingerprintIff(js, draft.fields, OpenDraft(js, schema).fields);
    hide SchemaToEditor, Fingerprint, EditorToSchema, Lawful;
  }

  /** Valid fields in canonical form survive a visit to the raw text, up to ids and parts their kinds do not use. */
  lemma AdvancedAndBack(js: Script, draft: Draft)
    requires Lawful(js) && draft.builder && FieldsValid(js, draft.fields, false) && AllCanonical(js, draft.fields)
    ensures var there := ActivateAdvanced(js, draft);
      && !there.builder && Resolve(js, there, draft, None) == Some(EditorToSchema(js, draft.fields))
      && PlanBuilder(js, there) == Ready(there.(builder := true, fields := AllActive(draft.fields)))
      && EditorToSchema(js, AllActive(draft.fields)) == EditorToSchema(js, draft.fields)
  {
    hide FieldsValid, AllCanonical, AllActive, SchemaToEditor, EditorToSchema;
    SchemaPrintable(js, draft.fields);
    FieldsRoundTrip(js, draft.fields);
    ActiveSaysTheSame(js, draft.fields);
    assert EditorToSchema(js, draft.fields).Obj? by { SchemaIsObject(js, draft.fields); }
  }

  lemma SchemaIsObject(js: Script, fields: seq<Field>)
    ensures EditorToSchema(js, fields).Obj?
  {
  }

  /** An advanced draft saves what its text says if that is an object, and nothing otherwise. */
  lemma AdvancedSaves(js: Script, draft: Draft, initial: Draft, original: Option<Json>, schema: Json)
    requires !draft.builder
    ensures Resolve(js, draft, initial, original) == Some(schema) <==> js.parse(draft.rawSchemaText) == Some(schema) && schema.Obj?
  {
  }

  /** A builder draft saves its fields if there is no stored schema, or it was opened as text. */
  lemma NewSaves(js: Script, draft: Draft, initial: Draft, original: Option<Json>)
    requires draft.builder && (original.None? || !initial.builder)
    ensures Resolve(js, draft, initial, original) == Some(EditorToSchema(js, draft.fields))
  {
    hide EditorToSchema;
  }

  /** Leaving the text succeeds exactly if it is an object of the supported subset, and asks first if it is another object. */
  lemma BuilderOpensIff(js: Script, draft: Draft)
    requires !draft.builder
    ensures PlanBuilder(js, draft).InvalidText? <==> !(exists schema :: js.parse(draft.rawSchemaText) == Some(schema) && schema.Obj?)
    ensures PlanBuilder(js, draft).Ready? <==>
      exists schema :: js.parse(draft.rawSchemaText) == Some(schema) && OpensInBuilder(js, schema)
    ensures PlanBuilder(js, draft).Ready? ==>
      var next := PlanBuilder(js, draft).draft;
      && next.builder && next.rawSchemaText == draft.rawSchemaText && next.unsupportedPaths == []
      && SchemaToEditor(js, js.parse(draft.rawSchemaText).value) == Builder(next.fields)
    ensures PlanBuilder(js, draft).Confirm? ==> PlanBuilder(js, draft).unsupportedPaths != []
  {
    hide OpensInBuilder, SchemaToEditor;
    var parsed := js.parse(draft.rawSchemaText);
    if parsed.Some? {
      BuilderIff(js, parsed.value);
      OpensObjects(js, parsed.value);
    }
  }

  lemma OpensObjects(js: Script, schema: Json)
    ensures OpensInBuilder(js, schema) ==> schema.Obj?
  {
  }
}
