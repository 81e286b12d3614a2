// The loops of the schema editor, against the functions that say what they compute.
module CategorySchemaEditor {
  import opened CategorySchema
  import opened CategorySchemaTheorems

  /** `editorToSchema`: the properties and the required keys, collected field by field. */
  method BuildSchema(js: Script, fields: seq<Field>) returns (schema: Json)
    ensures schema == EditorToSchema(js, fields)
  {
    hide FieldToSchema, Object.Put, WithRequired;
    var properties, required, i := EMPTY, [], 0;
    while i < |fields|
      invariant 0 <= i <= |fields|
      invariant Properties(js, fields[i..], properties) == Properties(js, fields, EMPTY)
      invariant required + Required(js, fields[i..]) == Required(js, fields)
    {
      assert fields[i..][0] == fields[i] && fields[i..][1..] == fields[i + 1..];
      var key := js.trim(fields[i].key);
      properties := properties.Put(key, Obj(FieldToSchema(js, fields[i])));
      if fields[i].required { required := required + [key]; }
      i := i + 1;
    }
    assert fields[i..] == [] && properties == Properties(js, fields, EMPTY) && required == Required(js, fields);
    schema := Obj(WithRequired(EMPTY.Put(Name(Type), Str(Name(ObjectWord))).Put(Name(PropertiesWord), Obj(properties)), required));
  }

  // ---------------------------------------------------------------- reading

  /** `addUnsupportedPath`. */
  function AddPath(paths: seq<Path>, path: Path): seq<Path> { if path in paths then paths else paths + [path] }

  function AddPaths(paths: seq<Path>, more: seq<Path>): seq<Path>
    decreases more
  {
    if more == [] then paths else AddPaths(AddPath(paths, more[0]), more[1..])
  }

  lemma {:induction false} AddPathsAppend(paths: seq<Path>, a: seq<Path>, b: seq<Path>)
    ensures AddPaths(paths, a + b) == AddPaths(AddPaths(paths, a), b)
    decreases a
  {
    if a == [] {
      assert a + b == b;
    } else {
      assert (a + b)[1..] == a[1..] + b;
      AddPathsAppend(AddPath(paths, a[0]), a[1..], b);
    }
  }

  /** Adding paths one by one keeps the first of each. */
  lemma {:induction false} AddPathsDedup(paths: seq<Path>, more: seq<Path>)
    ensures AddPaths(paths, more) == paths + Dedup(more, set p | p in paths)
    decreases more
  {
    if more != [] {
      AddPathsDedup(AddPath(paths, more[0]), more[1..]);
      assert (set p | p in AddPath(paths, more[0])) == (set p | p in paths) + {more[0]};
      if more[0] in paths { assert (set p | p in paths) + {more[0]} == set p | p in paths; }
    }
  }

  /** The loop over the properties of a schema. */
  method ReadProperties(js: Script, p: Object, required: seq<string>, path: Path, before: seq<Path>) returns (fields: seq<Field>, paths: seq<Path>)
    requires p.Valid()
    ensures var (found, issues) := ParseAll(js, p, p.keys, required, path, 0); fields == found && paths == AddPaths(before, issues)
  {
    hide ParseProperty, Object.Valid, AddPaths;
    fields, paths := [], before;
    var i := 0;
    ghost var (found, issues) := ParseAll(js, p, p.keys, required, path, 0);
    while i < |p.keys|
      invariant 0 <= i <= |p.keys|
      invariant var (rest, more) := ParseAll(js, p, p.keys[i..], required, path, 0);
        fields + rest == found && AddPaths(paths, more) == AddPaths(before, issues)
    {
      var key := p.keys[i];
      assert key in p.at by { KeyThere(p, i); }
      assert p.keys[i..][0] == key && p.keys[i..][1..] == p.keys[i + 1..];
      var parsed := ParseProperty(js, p.at[key], key, key in required, path + [key], 0);
      ghost var (rest, more) := ParseAll(js, p, p.keys[i + 1..], required, path, 0);
      assert ParseAll(js, p, p.keys[i..], required, path, 0) ==
        (if parsed.field.Some? then [parsed.field.value] + rest else rest, parsed.issues + more);
      hide ParseAll;
      if parsed.field.Some? { fields := fields + [parsed.field.value]; }
      AddPathsAppend(paths, parsed.issues, more);
      paths := AddPaths(paths, parsed.issues);
      i := i + 1;
    }
    assert p.keys[i..] == [] && AddPaths(paths, []) == paths by { NothingAdded(paths); }
  }

  lemma KeyThere(p: Object, i: nat)
    requires p.Valid() && i < |p.keys|
    ensures p.keys[i] in p.at
  {
  }

  lemma NothingAdded(paths: seq<Path>)
    ensures AddPaths(paths, []) == paths
  {
  }

  /** `schemaToEditor`. */
  method ReadSchema(js: Script, schema: Json) returns (editor: Editor)
    requires schema.Obj? ==> schema.members.Valid() && PropertiesOf(schema.members).Valid()
    ensures editor == SchemaToEditor(js, schema)
  {
    hide ParseAll, RootIssues, Dedup, AddPaths;
    if !schema.Obj? { return Advanced([ROOT]); }
    var o := schema.members;
    if o.keys == [] { return Builder([]); }
    var p, required := PropertiesOf(o), StringsOf(Get(o, Name(RequiredWord)));
    var before := AddPaths([], RootIssues(o));
    var fields, paths := ReadProperties(js, p, required, ROOT + [Name(PropertiesWord)], before);
    ghost var issues := ParseAll(js, p, p.keys, required, ROOT + [Name(PropertiesWord)], 0).1;
    AddPathsAppend([], RootIssues(o), issues);
    AddPathsDedup([], RootIssues(o) + issues);
    var none: seq<Path> := [];
    assert (set q | q in none) == {} && none + Dedup(RootIssues(o) + issues, {}) == Dedup(RootIssues(o) + issues, {});
    DedupEmpty(RootIssues(o) + issues);
    if paths != [] { return Advanced(paths); }
    return Builder(fields);
  }

  // ---------------------------------------------------------------- validation

  /** How often a key comes up among the first n fields. */
  function KeyCount(js: Script, fields: seq<Field>, n: nat, key: string): nat
    requires n <= |fields|
  {
    if n == 0 then 0 else KeyCount(js, fields, n - 1, key) + if js.trim(fields[n - 1].key) == key then 1 else 0
  }

  lemma {:induction false} CountedTwice(js: Script, fields: seq<Field>, n: nat, i: nat, j: nat)
    requires i < n <= |fields| && j < i && js.trim(fields[i].key) == js.trim(fields[j].key)
    ensures KeyCount(js, fields, n, js.trim(fields[i].key)) >= 2
  {
    if i < n - 1 { CountedTwice(js, fields, n - 1, i, j); } else { CountedOnce(js, fields, n - 1, j); }
  }

  lemma {:induction false} CountedOnce(js: Script, fields: seq<Field>, n: nat, j: nat)
    requires j < n <= |fields|
    ensures KeyCount(js, fields, n, js.trim(fields[j].key)) >= 1
  {
    if j < n - 1 { CountedOnce(js, fields, n - 1, j); }
  }

  lemma {:induction false} CountedAt(js: Script, fields: seq<Field>, n: nat, key: string) returns (j: nat)
    requires n <= |fields| && KeyCount(js, fields, n, key) >= 1
    ensures j < n && js.trim(fields[j].key) == key
  {
    if js.trim(fields[n - 1].key) == key { j := n - 1; } else { j := CountedAt(js, fields, n - 1, key); }
  }

  lemma {:induction false} CountedApart(js: Script, fields: seq<Field>, n: nat, key: string) returns (j: nat, i: nat)
    requires n <= |fields| && KeyCount(js, fields, n, key) >= 2
    ensures j < i < n && js.trim(fields[i].key) == js.trim(fields[j].key) == key
  {
    if js.trim(fields[n - 1].key) == key {
      i := n - 1;
      j := CountedAt(js, fields, n - 1, key);
    } else {
      j, i := CountedApart(js, fields, n - 1, key);
    }
  }

  /** `validateFields`: whether it records no error. */
  method ValidateFields(js: Script, fields: seq<Field>, nested: bool) returns (valid: bool)
    ensures valid == FieldsValid(js, fields, nested)
  {
    var keyCounts: map<string, nat> := map[];
    var i := 0;
    while i < |fields|
      invariant 0 <= i <= |fields|
      invariant forall key :: key != "" ==> (if key in keyCounts then keyCounts[key] else 0) == KeyCount(js, fields, i, key)
    {
      var key := js.trim(fields[i].key);
      if key != "" { keyCounts := keyCounts[key := (if key in keyCounts then keyCounts[key] else 0) + 1]; }
      i := i + 1;
    }
    hide FieldValid;
    valid := true;
    var j := 0;
    while j < |fields|
      invariant 0 <= j <= |fields|
      invariant valid <==> forall k :: 0 <= k < j ==> FieldPasses(js, fields, nested, k)
    {
      hide FieldPasses;
      var key := js.trim(fields[j].key);
      assert FieldPasses(js, fields, nested, j) <==> key != "" && KeyCount(js, fields, |fields|, key) <= 1 && FieldValid(js, fields[j], nested) by {
        FieldPassesIs(js, fields, nested, j);
      }
      if key == "" || (if key in keyCounts then keyCounts[key] else 0) > 1 { valid := false; }
      if !FieldValid(js, fields[j], nested) { valid := false; }
      j := j + 1;
    }
    PassingIsValid(js, fields, nested);
  }

  ghost predicate FieldPasses(js: Script, fields: seq<Field>, nested: bool, k: nat)
    requires k < |fields|
  {
    var key := js.trim(fields[k].key);
    key != "" && KeyCount(js, fields, |fields|, key) <= 1 && FieldValid(js, fields[k], nested)
  }

  lemma FieldPassesIs(js: Script, fields: seq<Field>, nested: bool, k: nat)
    requires k < |fields|
    ensures var key := js.trim(fields[k].key);
      FieldPasses(js, fields, nested, k) <==> key != "" && KeyCount(js, fields, |fields|, key) <= 1 && FieldValid(js, fields[k], nested)
  {
  }

  /** Counting keys finds exactly the repeated ones. */
  lemma PassingIsValid(js: Script, fields: seq<Field>, nested: bool)
    ensures (forall k :: 0 <= k < |fields| ==> FieldPasses(js, fields, nested, k)) <==> FieldsValid(js, fields, nested)
  {
    hide FieldValid;
    if forall k :: 0 <= k < |fields| ==> FieldPasses(js, fields, nested, k) {
      forall i, j | 0 <= i < j < |fields| ensures js.trim(fields[i].key) != js.trim(fields[j].key) {
        assert FieldPasses(js, fields, nested, j);
        if js.trim(fields[i].key) == js.trim(fields[j].key) { CountedTwice(js, fields, |fields|, j, i); }
      }
      forall k | 0 <= k < |fields| ensures js.trim(fields[k].key) != "" && FieldValid(js, fields[k], nested) {
        assert FieldPasses(js, fields, nested, k);
      }
    }
    if FieldsValid(js, fields, nested) {
      forall k | 0 <= k < |fields| ensures FieldPasses(js, fields, nested, k) {
        var key := js.trim(fields[k].key);
        if KeyCount(js, fields, |fields|, key) >= 2 {
          var j, i := CountedApart(js, fields, |fields|, key);
          assert false;
        }
      }
    }
  }
}
