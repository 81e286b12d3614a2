// Which paths of a document the schema reader reports as unsupported.
module CategorySchemaPaths {
  import opened CategorySchema
  import opened CategorySchemaTheorems
  import opened CategorySchemaEffects
  import opened Wrappers

  /** A member that the kind of document does not have. */
  ghost predicate Stray(o: Object, allowed: set<string>, path: Path, q: Path) {
    exists k :: k in o.keys && k !in allowed && q == path + [k]
  }

  predicate TextsWrong(o: Object, path: Path, q: Path) {
    || (q == path + ["title"] && Name(Title) in o.at && !o.at[Name(Title)].Str?)
    || (q == path + ["description"] && Name(Description) in o.at && !o.at[Name(Description)].Str?)
  }

  predicate NoTexts(o: Object, w: Word) { Name(w) in o.at && !AllStrings(o.at[Name(w)]) }

  /** A format other than date, or with options, or of no text; options that are no texts, or of no text. */
  predicate FormatsWrong(o: Object, path: Path, q: Path) {
    || (q == path + ["format"] && Name(Format) in o.at
        && (!Has(o, Format, "date") || Name(Enum) in o.at || !Has(o, Type, "string")))
    || (q == path + ["enum"] && Name(Enum) in o.at && (!AllStrings(o.at[Name(Enum)]) || !Has(o, Type, "string")))
  }

  predicate ScalarType(o: Object) { Has(o, Type, "string") || Has(o, Type, "number") || Has(o, Type, "boolean") }

  /** Required names that are no list of texts, repeat, or name no property. */
  ghost predicate RequiredWrong(o: Object) {
    && Name(RequiredWord) in o.at
    && var v := o.at[Name(RequiredWord)];
      || !AllStrings(v)
      || (exists i, j :: 0 <= i < j < |v.items| && v.items[i] == v.items[j])
      || exists i :: 0 <= i < |v.items| && v.items[i].text !in PropertiesOf(o).at
  }

  ghost predicate ScalarReports(js: Script, o: Object, path: Path, q: Path) {
    || TextsWrong(o, path, q) || Stray(o, {"type", "title", "description", "default", "format", "enum"}, path, q) || FormatsWrong(o, path, q)
    || (q == path + ["default"] && Name(Default) in o.at
        && !ScalarDefaultCompatible(js, ScalarKind(o), o.at[Name(Default)], StringsOf(Get(o, Name(Enum)))))
  }

  ghost predicate ItemsReport(o: Object, path: Path, q: Path) {
    || Stray(o, {"type", "format", "enum"}, path, q)
    || (if ScalarType(o) then FormatsWrong(o, path, q) else q == path + ["type"] || (q == path + ["enum"] && NoTexts(o, Enum)))
  }

  ghost predicate ArrayReports(js: Script, o: Object, path: Path, q: Path) {
    || TextsWrong(o, path, q) || Stray(o, {"type", "title", "description", "default", "items"}, path, q)
    || (match Get(o, Name(Items))
        case Some(Obj(items)) =>
          || ItemsReport(items, path + ["items"], q)
          || (q == path + ["default"] && Name(Default) in o.at
              && !(o.at[Name(Default)].Arr?
                   && AllCompatible(js, if ScalarType(items) then ScalarKind(items) else StringScalar, o.at[Name(Default)].items,
                                    StringsOf(Get(items, Name(Enum))))))
        case _ => q == path + ["items"])
  }

  /** Objects within objects are reported as a whole; the properties of others one by one. */
  ghost predicate ObjectReports(js: Script, o: Object, path: Path, depth: nat, q: Path)
    decreases 2 - depth, 1
  {
    || TextsWrong(o, path, q) || Stray(o, {"type", "title", "description", "default", "properties", "required"}, path, q)
    || (if depth > 0 then q == path
        else if Name(PropertiesWord) in o.at && !o.at[Name(PropertiesWord)].Obj? then q == path + ["properties"]
        else
          || (q == path + ["required"] && RequiredWrong(o))
          || PropertiesReport(js, PropertiesOf(o), path + ["properties"], depth + 1, q)
          || (q == path + ["default"] && Name(Default) in o.at && !o.at[Name(Default)].Obj?))
  }

  /** What is reported of the property at a path. */
  ghost predicate Reports(js: Script, v: Json, path: Path, depth: nat, q: Path)
    decreases 2 - depth, 2
  {
    if !v.Obj? then q == path
    else if !(Name(Type) in v.members.at && v.members.at[Name(Type)].Str?) then q == path + ["type"]
    else if ScalarType(v.members) then ScalarReports(js, v.members, path, q)
    else if Has(v.members, Type, "array") then ArrayReports(js, v.members, path, q)
    else if Has(v.members, Type, "object") then ObjectReports(js, v.members, path, depth, q)
    else TextsWrong(v.members, path, q) || q == path + ["type"]
  }

  ghost predicate PropertiesReport(js: Script, p: Object, path: Path, depth: nat, q: Path)
    decreases 2 - depth, 3
  {
    depth <= 1 && exists k :: k in p.keys && k in p.at && Reports(js, p.at[k], path + [k], depth, q)
  }

  lemma {:induction false} UnknownAre(keys: seq<string>, allowed: set<string>, path: Path, q: Path)
    ensures q in UnknownKeys(keys, allowed, path) <==> exists k :: k in keys && k !in allowed && q == path + [k]
  {
    if keys != [] {
      UnknownAre(keys[1..], allowed, path, q);
      assert forall k :: k in keys <==> k == keys[0] || k in keys[1..];
    }
  }

  lemma TextsAre(o: Object, path: Path, q: Path)
    ensures q in TextIssues(o, path) <==> TextsWrong(o, path, q)
  {
    NamesAre();
    hide Name;
  }

  lemma FormatsAre(o: Object, path: Path, q: Path)
    ensures q in FormatIssues(o, path) <==> FormatsWrong(o, path, q)
  {
    NamesAre();
    hide Name, AllStrings;
  }

  lemma ScalarTypeIff(o: Object)
    ensures ScalarName(Get(o, Name(Type))) <==> ScalarType(o)
  {
    NamesAre();
    hide Name;
  }

  lemma ScalarReported(js: Script, o: Object, key: string, required: bool, path: Path, q: Path)
    ensures q in ParseScalar(js, o, key, required, path).issues <==> ScalarReports(js, o, path, q)
  {
    NamesAre();
    MembersAre();
    TextsAre(o, path, q);
    FormatsAre(o, path, q);
    UnknownAre(o.keys, SCALAR_KEYS, path, q);
    hide Name, TextsWrong, FormatsWrong, TextIssues, FormatIssues, UnknownKeys, ScalarKind, StringsOf, ScalarDefaultCompatible;
  }

  lemma ItemsReported(o: Object, path: Path, q: Path)
    ensures q in ItemIssues(o, path) <==> ItemsReport(o, path, q)
  {
    NamesAre();
    MembersAre();
    ScalarTypeIff(o);
    FormatsAre(o, path, q);
    UnknownAre(o.keys, ITEM_KEYS, path, q);
    hide Name, FormatsWrong, FormatIssues, UnknownKeys, ScalarName, ScalarType, AllStrings;
  }

  lemma ArrayReported(js: Script, o: Object, key: string, required: bool, path: Path, q: Path)
    ensures q in ParseArray(js, o, key, required, path).issues <==> ArrayReports(js, o, path, q)
  {
    hide Name, TextsWrong, TextIssues, UnknownKeys, ScalarKind, StringsOf, AllCompatible, ItemIssues, ItemsReport, ScalarName, ScalarType;
    NamesAre();
    MembersAre();
    TextsAre(o, path, q);
    UnknownAre(o.keys, ARRAY_KEYS, path, q);
    match Get(o, Name(Items))
    case Some(Obj(items)) =>
      ItemsReported(items, path + [Name(Items)], q);
      ScalarTypeIff(items);
    case _ =>
  }

  lemma RequiredReported(o: Object, path: Path, q: Path)
    ensures q in RequiredIssues(o, PropertiesOf(o).at.Keys, path) <==> q == path + ["required"] && RequiredWrong(o)
  {
    NamesAre();
    hide Name, PropertiesOf;
    var v := Get(o, Name(RequiredWord));
    if v.Some? && AllStrings(v.value) {
      var names := StringsOf(v);
      assert |names| == |v.value.items| && forall i :: 0 <= i < |names| ==> v.value.items[i] == Str(names[i]);
      assert !NoRepeats(names) <==> exists i, j :: 0 <= i < j < |v.value.items| && v.value.items[i] == v.value.items[j];
      if k :| k in names && k !in PropertiesOf(o).at {
        var i :| 0 <= i < |names| && names[i] == k;
        assert v.value.items[i].text !in PropertiesOf(o).at;
      }
    }
  }

  lemma ObjectReported(js: Script, o: Object, key: string, required: bool, path: Path, depth: nat, q: Path)
    requires depth <= 1
    ensures q in ParseObject(js, o, key, required, path, depth).issues <==> ObjectReports(js, o, path, depth, q)
    decreases 1 - depth, 1, 0
  {
    hide Name, TextsWrong, TextIssues, UnknownKeys, StringsOf, RequiredIssues, RequiredWrong, ParseAll, PropertiesReport;
    NamesAre();
    MembersAre();
    TextsAre(o, path, q);
    UnknownAre(o.keys, OBJECT_KEYS, path, q);
    if depth == 0 && PropertiesOk(o) {
      var p := PropertiesOf(o);
      RequiredReported(o, path, q);
      AllReported(js, p, p.keys, StringsOf(Get(o, Name(RequiredWord))), path + ["properties"], 1, q);
      PropertiesReportIs(js, p, path + ["properties"], 1, q);
    }
  }

  lemma PropertiesReportIs(js: Script, p: Object, path: Path, depth: nat, q: Path)
    requires depth <= 1
    ensures PropertiesReport(js, p, path, depth, q) <==> exists k :: k in p.keys && k in p.at && Reports(js, p.at[k], path + [k], depth, q)
  {
  }

  lemma PropertyReported(js: Script, v: Json, key: string, required: bool, path: Path, depth: nat, q: Path)
    requires depth <= 1
    ensures q in ParseProperty(js, v, key, required, path, depth).issues <==> Reports(js, v, path, depth, q)
    decreases 1 - depth, 2, 0
  {
    hide Name, TextsWrong, TextIssues, ScalarName, ScalarType, ParseScalar, ParseArray, ParseObject, ScalarReports, ArrayReports, ObjectReports;
    NamesAre();
    if v.Obj? {
      var o := v.members;
      ScalarTypeIff(o);
      ScalarReported(js, o, key, required, path, q);
      ArrayReported(js, o, key, required, path, q);
      ObjectReported(js, o, key, required, path, depth, q);
      TextsAre(o, path, q);
    }
  }

  lemma {:induction false} AllReported(js: Script, p: Object, keys: seq<string>, required: seq<string>, path: Path, depth: nat, q: Path)
    requires depth <= 1
    ensures q in ParseAll(js, p, keys, required, path, depth).1 <==>
      exists k :: k in keys && k in p.at && Reports(js, p.at[k], path + [k], depth, q)
    decreases 1 - depth, 3, |keys|
  {
    if keys != [] {
      AllReported(js, p, keys[1..], required, path, depth, q);
      assert forall k :: k in keys <==> k == keys[0] || k in keys[1..];
      if keys[0] in p.at { PropertyReported(js, p.at[keys[0]], keys[0], keys[0] in required, path + [keys[0]], depth, q); }
      hide ParseProperty, Reports;
    }
  }

  lemma {:induction false} DedupAre(paths: seq<Path>, seen: set<Path>)
    ensures forall q :: q in Dedup(paths, seen) <==> q in paths && q !in seen
    ensures forall i, j :: 0 <= i < j < |Dedup(paths, seen)| ==> Dedup(paths, seen)[i] != Dedup(paths, seen)[j]
  {
    if paths != [] {
      DedupAre(paths[1..], seen);
      DedupAre(paths[1..], seen + {paths[0]});
    }
  }

  ghost predicate RootReports(o: Object, q: Path) {
    || Stray(o, {"type", "properties", "required"}, ["$"], q)
    || (q == ["$", "type"] && !Has(o, Type, "object"))
    || (q == ["$", "properties"] && Name(PropertiesWord) in o.at && !o.at[Name(PropertiesWord)].Obj?)
    || (q == ["$", "required"] && RequiredWrong(o))
  }

  lemma RootReported(o: Object, q: Path)
    ensures q in RootIssues(o) <==> RootReports(o, q)
  {
    hide Name, UnknownKeys, RequiredIssues, RequiredWrong;
    NamesAre();
    MembersAre();
    UnknownAre(o.keys, ROOT_KEYS, ROOT, q);
    RequiredReported(o, ROOT, q);
    assert ROOT + ["type"] == ["$", "type"] && ROOT + ["properties"] == ["$", "properties"] && ROOT + ["required"] == ["$", "required"];
  }

  lemma AdvancedAre(js: Script, schema: Json)
    requires SchemaToEditor(js, schema).Advanced? && schema.Obj?
    ensures var o, p := schema.members, PropertiesOf(schema.members);
      SchemaToEditor(js, schema).unsupportedPaths ==
        Dedup(RootIssues(o) + ParseAll(js, p, p.keys, StringsOf(Get(o, Name(RequiredWord))), ["$", "properties"], 0).1, {})
  {
    hide Name, RootIssues, ParseAll, StringsOf, Dedup, PropertiesOf;
    NamesAre();
    assert ROOT + [Name(PropertiesWord)] == ["$", "properties"];
  }

  /** A document that does not open in the builder names each path that is not supported, once. */
  lemma PathsAre(js: Script, schema: Json, q: Path)
    requires SchemaToEditor(js, schema).Advanced?
    ensures var paths := SchemaToEditor(js, schema).unsupportedPaths;
      && (forall i, j :: 0 <= i < j < |paths| ==> paths[i] != paths[j])
      && (q in paths <==>
            if !schema.Obj? then q == ["$"]
            else RootReports(schema.members, q) || PropertiesReport(js, PropertiesOf(schema.members), ["$", "properties"], 0, q))
  {
    if schema.Obj? {
      AdvancedAre(js, schema);
      hide Name, RootReports, RootIssues, ParseAll, PropertiesReport, StringsOf, Dedup, PropertiesOf, SchemaToEditor;
      var o, p := schema.members, PropertiesOf(schema.members);
      RootReported(o, q);
      AllReported(js, p, p.keys, StringsOf(Get(o, Name(RequiredWord))), ["$", "properties"], 0, q);
      PropertiesReportIs(js, p, ["$", "properties"], 0, q);
      DedupAre(RootIssues(o) + ParseAll(js, p, p.keys, StringsOf(Get(o, Name(RequiredWord))), ["$", "properties"], 0).1, {});
    }
  }
}
