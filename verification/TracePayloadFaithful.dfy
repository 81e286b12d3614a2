// A payload that is within the bounds and has no secret key passes unchanged.
module TracePayloadFaithful {
  import opened Utf8
  import opened TracePayloads
  import opened TracePayloadTheorems
  import opened TracePayloadBounds
  import opened Wrappers

  function KeysOf(fields: seq<Field>): (r: seq<Text>)
    ensures |r| == |fields|
  {
    seq(|fields|, i requires 0 <= i < |fields| => fields[i].key)
  }

  /** The value under a string key. */
  function Lookup(entries: seq<Entry>, key: Text): Option<Value> {
    if entries == [] then None
    else if entries[|entries| - 1].key == Word(key) then entries[|entries| - 1].value
    else Lookup(entries[..|entries| - 1], key)
  }

  /** As many entries as fields, under distinct string keys that are those of the fields. */
  ghost predicate SameKeys(entries: seq<Entry>, fields: seq<Field>) {
    |entries| == |fields| && DistinctEntries(entries) && forall k :: 0 <= k < |entries| ==> entries[k].key.s in KeysOf(fields)
  }

  ghost predicate DistinctEntries(entries: seq<Entry>) {
    && (forall k :: 0 <= k < |entries| ==> entries[k].key.Word?)
    && forall i, k :: 0 <= i < k < |entries| ==> entries[i].key != entries[k].key
  }

  /** The object graph at v, read as JSON with sorted keys; the order of the entries on the heap is free. */
  ghost predicate Represents(h: map<nat, Node>, v: Value, j: Json)
    decreases j
  {
    match j
    case Null => v == Nothing
    case Bool(flag) => v == Flag(flag)
    case Int(n) => v.Integer? && v.n == n
    case Float(printed) => v == Real(printed, true)
    case Str(s) => v == Chars(s)
    case List(items) =>
      && v.Ref? && v.id in h && h[v.id].Sequence? && h[v.id].length == Some(|items|) && |h[v.id].items| == |items|
      && forall i :: 0 <= i < |items| ==> h[v.id].items[i].Some? && Represents(h, h[v.id].items[i].value, items[i])
    case Dict(fields) =>
      && v.Ref? && v.id in h && h[v.id].Mapping? && !h[v.id].broken && h[v.id].reported == Some(|fields|)
      && StrictlySorted(KeysOf(fields)) && SameKeys(h[v.id].entries, fields)
      && forall i :: 0 <= i < |fields| ==>
        Lookup(h[v.id].entries, fields[i].key).Some? && Represents(h, Lookup(h[v.id].entries, fields[i].key).value, fields[i].value)
  }

  /** JSON that needs no redaction and no truncation, apart from the number of nodes. */
  ghost predicate Harmless(secret: Text -> bool, j: Json, height: nat) {
    match j
    case Str(s) => TextFits(s)
    case Int(n) => BitLength(Magnitude(n)) <= MAX_INT_BITS
    case List(items) => height > 0 && |items| <= 50 && forall i :: 0 <= i < |items| ==> Harmless(secret, items[i], height - 1)
    case Dict(fields) => height > 0 && |fields| <= 50 && FieldsHarmless(secret, fields, height - 1)
    case _ => true
  }

  ghost predicate FieldsHarmless(secret: Text -> bool, fields: seq<Field>, height: nat) {
    forall i :: 0 <= i < |fields| ==>
      TextFits(fields[i].key) && !secret(fields[i].key) && Harmless(secret, fields[i].value, height)
  }

  lemma FittingPasses(s: Text)
    requires TextFits(s)
    ensures Bounded(s) == s
  {
    ShortPasses(s);
    assert Replaced(s) == s;
  }

  // ---------------------------------------------------------------- a graph reads as one JSON value only

  lemma {:induction false} LookupFinds(entries: seq<Entry>, key: Text)
    requires Lookup(entries, key).Some?
    ensures exists k :: 0 <= k < |entries| && entries[k].key == Word(key)
  {
    if entries[|entries| - 1].key != Word(key) {
      LookupFinds(entries[..|entries| - 1], key);
      var k :| 0 <= k < |entries| - 1 && entries[..|entries| - 1][k].key == Word(key);
      assert entries[k].key == Word(key);
    }
  }

  /** The keys of the fields are those that can be looked up. */
  lemma FieldKeys(entries: seq<Entry>, fields: seq<Field>)
    requires SameKeys(entries, fields) && forall i :: 0 <= i < |fields| ==> Lookup(entries, fields[i].key).Some?
    ensures forall s :: s in KeysOf(fields) <==> Lookup(entries, s).Some?
  {
    forall s | Lookup(entries, s).Some? ensures s in KeysOf(fields) {
      LookupFinds(entries, s);
    }
  }

  lemma {:induction false} ReadsAsOne(h: map<nat, Node>, v: Value, i: Json, j: Json)
    requires Represents(h, v, i) && Represents(h, v, j)
    ensures i == j
    decreases i
  {
    match i
    case List(items) =>
      forall k | 0 <= k < |items| ensures items[k] == j.items[k] {
        ReadsAsOne(h, h[v.id].items[k].value, items[k], j.items[k]);
      }
    case Dict(fields) =>
      var entries := h[v.id].entries;
      FieldKeys(entries, fields);
      FieldKeys(entries, j.fields);
      hide SameKeys, Lookup;
      SortedUnique(KeysOf(fields), KeysOf(j.fields));
      forall k | 0 <= k < |fields| ensures fields[k] == j.fields[k] {
        assert KeysOf(fields)[k] == KeysOf(j.fields)[k];
        ReadsAsOne(h, Lookup(entries, fields[k].key).value, fields[k].value, j.fields[k].value);
      }
    case _ =>
  }

  // ---------------------------------------------------------------- keys of a harmless object

  /** Every key is its own output key. */
  ghost predicate Passing(entries: seq<Entry>) {
    forall k :: 0 <= k < |entries| && entries[k].key.Word? ==> OutputKey(entries[k].key) == entries[k].key.s
  }

  lemma {:induction false} MatchesNone(entries: seq<Entry>, key: Text)
    requires DistinctEntries(entries) && Passing(entries) && forall k :: 0 <= k < |entries| ==> entries[k].key != Word(key)
    ensures Matches(entries, key) == []
  {
    hide OutputKey;
    if entries != [] { MatchesNone(entries[..|entries| - 1], key); }
  }

  lemma {:induction false} MatchesOne(entries: seq<Entry>, key: Text)
    requires DistinctEntries(entries) && Passing(entries)
    ensures if Lookup(entries, key).Some? then Matches(entries, key) == [Entry(Word(key), Lookup(entries, key))]
            else forall e :: e in Matches(entries, key) ==> e.value.None?
  {
    hide OutputKey;
    if entries != [] {
      var init, last := entries[..|entries| - 1], entries[|entries| - 1];
      if last.key == Word(key) { MatchesNone(init, key); } else { MatchesOne(init, key); }
    }
  }

  lemma HarmlessPass(secret: Text -> bool, entries: seq<Entry>, fields: seq<Field>, height: nat)
    requires SameKeys(entries, fields) && FieldsHarmless(secret, fields, height)
    ensures Passing(entries)
  {
    hide TextFits, Harmless, Bounded;
    forall k | 0 <= k < |entries| ensures OutputKey(entries[k].key) == entries[k].key.s {
      var i :| 0 <= i < |fields| && KeysOf(fields)[i] == entries[k].key.s;
      FittingPasses(fields[i].key);
    }
  }

  lemma KeysAre(entries: seq<Entry>, fields: seq<Field>)
    requires SameKeys(entries, fields) && Passing(entries) && StrictlySorted(KeysOf(fields)) && |fields| <= 50
    requires forall i :: 0 <= i < |fields| ==> Lookup(entries, fields[i].key).Some?
    ensures FirstKeys(entries) == KeysOf(fields)
  {
    SortedKeysAre(entries);
    hide Matches, SortedKeys, Lookup, OutputKey, StrictlySorted;
    forall s ensures s in SortedKeys(entries) <==> s in KeysOf(fields) {
      if s in KeysOf(fields) { MatchesOne(entries, s); }
      if Matches(entries, s) != [] {
        var e := Matches(entries, s)[0];
        assert e in entries;
      }
    }
    SortedUnique(SortedKeys(entries), KeysOf(fields));
  }

  // ---------------------------------------------------------------- nothing is changed

  /** The containers on the path hold more than n values. */
  ghost predicate PathAbove(h: map<nat, Node>, active: set<nat>, n: nat) {
    forall id :: id in active ==> exists p :: Represents(h, Ref(id), p) && Nodes(p) > n
  }

  lemma PathGrows(h: map<nat, Node>, active: set<nat>, id: nat, j: Json)
    requires PathAbove(h, active, Nodes(j)) && Represents(h, Ref(id), j) && Nodes(j) > 0
    ensures id !in active && PathAbove(h, active + {id}, Nodes(j) - 1)
  {
    hide Represents, Nodes;
    if id in active {
      var p :| Represents(h, Ref(id), p) && Nodes(p) > Nodes(j);
      ReadsAsOne(h, Ref(id), p, j);
    }
    forall a | a in active + {id} ensures exists p :: Represents(h, Ref(a), p) && Nodes(p) > Nodes(j) - 1 {
      if a != id { var p :| Represents(h, Ref(a), p) && Nodes(p) > Nodes(j); }
    }
  }

  lemma PathShrinks(h: map<nat, Node>, active: set<nat>, n: nat, m: nat)
    requires PathAbove(h, active, n) && m <= n
    ensures PathAbove(h, active, m)
  {
    hide Represents, Nodes;
    forall a | a in active ensures exists p :: Represents(h, Ref(a), p) && Nodes(p) > m {
      var p :| Represents(h, Ref(a), p) && Nodes(p) > n;
    }
  }

  lemma {:induction false} NodesOfPart(items: seq<Json>, n: nat)
    requires n < |items|
    ensures NodesOf(items[..n]) + Nodes(items[n]) == NodesOf(items[..n + 1]) <= NodesOf(items)
    decreases |items|
  {
    hide Nodes;
    assert items[..n + 1][..n] == items[..n];
    if n + 1 < |items| {
      var init := items[..|items| - 1];
      NodesOfPart(init, n);
      assert init[..n + 1] == items[..n + 1];
    } else {
      assert items[..n + 1] == items;
    }
  }

  lemma {:induction false} NodesInPart(fields: seq<Field>, n: nat)
    requires n < |fields|
    ensures NodesIn(fields[..n]) + Nodes(fields[n].value) == NodesIn(fields[..n + 1]) <= NodesIn(fields)
    decreases |fields|
  {
    hide Nodes;
    assert fields[..n + 1][..n] == fields[..n];
    if n + 1 < |fields| {
      var init := fields[..|fields| - 1];
      NodesInPart(init, n);
      assert init[..n + 1] == fields[..n + 1];
    } else {
      assert fields[..n + 1] == fields;
    }
  }

  lemma {:induction false} Unchanged(c: Context, v: Value, j: Json, depth: nat, active: set<nat>, budget: nat)
    requires depth <= MAX_DEPTH && Known(c.heap, v) && Represents(c.heap, v, j) && Harmless(c.secret, j, MAX_DEPTH - depth)
    requires Nodes(j) <= budget && PathAbove(c.heap, active, Nodes(j))
    ensures Sanitized(c, v, depth, active, budget) == (j, budget - Nodes(j))
    decreases j, 2, 0
  {
    hide PathAbove, NodeKnown, TextFits, NodesOf, NodesIn, SanitizedItems, SanitizedFields, Bounded;
    match j
    case Str(s) => FittingPasses(s);
    case List(items) =>
      var n := c.heap[v.id];
      PathGrows(c.heap, active, v.id, j);
      assert NodeKnown(c.heap, n) && NodeKnown(c.heap, Sequence(None, n.items)) by { SequenceKnown(c.heap, v.id); }
      ItemsUnchanged(c, n.items, items, |items|, depth, active + {v.id}, budget - 1);
      assert items[..|items|] == items;
    case Dict(fields) =>
      PathGrows(c.heap, active, v.id, j);
      ObjectUnchanged(c, c.heap[v.id], fields, depth, active + {v.id}, budget - 1);
    case _ =>
  }

  lemma SequenceKnown(h: Heap, id: nat)
    requires id in h && h[id].Sequence?
    ensures NodeKnown(h, h[id]) && NodeKnown(h, Sequence(None, h[id].items))
  {
  }

  lemma {:induction false} ItemsUnchanged(c: Context, raw: seq<Option<Value>>, items: seq<Json>, n: nat, depth: nat, active: set<nat>, budget: nat)
    requires depth < MAX_DEPTH && n <= |items| == |raw| && NodeKnown(c.heap, Sequence(None, raw))
    requires forall i :: 0 <= i < |items| ==> raw[i].Some? && Represents(c.heap, raw[i].value, items[i])
    requires forall i :: 0 <= i < |items| ==> Harmless(c.secret, items[i], MAX_DEPTH - depth - 1)
    requires NodesOf(items) <= budget && PathAbove(c.heap, active, NodesOf(items))
    ensures NodesOf(items[..n]) <= NodesOf(items)
    ensures SanitizedItems(c, raw, n, depth, active, budget) == (items[..n], budget - NodesOf(items[..n]))
    decreases items, 1, n
  {
    hide PathAbove, NodeKnown, Represents, Harmless, Sanitized, Nodes, SanitizedItems, NodesOf;
    if n == 0 {
      NoItemsUnchanged(c, raw, depth, active, budget);
      assert items[..n] == [];
    } else {
      ItemsUnchanged(c, raw, items, n - 1, depth, active, budget);
      NodesOfPart(items, n - 1);
      PathShrinks(c.heap, active, NodesOf(items), Nodes(items[n - 1]));
      assert Known(c.heap, raw[n - 1].value) by { ItemOfNode(c.heap, raw, n - 1); }
      Unchanged(c, raw[n - 1].value, items[n - 1], depth + 1, active, budget - NodesOf(items[..n - 1]));
      NextItem(c, raw, n, depth, active, budget);
      assert items[..n] == items[..n - 1] + [items[n - 1]];
    }
  }

  lemma NoItemsUnchanged(c: Context, raw: seq<Option<Value>>, depth: nat, active: set<nat>, budget: nat)
    requires depth <= MAX_DEPTH && NodeKnown(c.heap, Sequence(None, raw))
    ensures NodesOf([]) == 0 && SanitizedItems(c, raw, 0, depth, active, budget) == ([], budget)
  {
    hide NodeKnown;
  }

  /** An item that can be read, after others that can. */
  lemma NextItem(c: Context, raw: seq<Option<Value>>, n: nat, depth: nat, active: set<nat>, budget: nat)
    requires depth <= MAX_DEPTH && 0 < n <= |raw| && NodeKnown(c.heap, Sequence(None, raw))
    requires forall i :: 0 <= i < n ==> raw[i].Some?
    requires Known(c.heap, raw[n - 1].value)
    ensures var (out, left) := SanitizedItems(c, raw, n - 1, depth, active, budget);
      var (value, rest) := Sanitized(c, raw[n - 1].value, depth + 1, active, left);
      SanitizedItems(c, raw, n, depth, active, budget) == (out + [value], rest)
  {
    hide Sanitized, NodeKnown;
    assert forall i :: 0 <= i < n ==> Item(raw, i) == raw[i];
  }

  lemma {:induction false} ObjectUnchanged(c: Context, n: Node, fields: seq<Field>, depth: nat, active: set<nat>, budget: nat)
    requires depth < MAX_DEPTH && NodeKnown(c.heap, n) && n.Mapping? && !n.broken && n.reported == Some(|fields|) && |fields| <= 50
    requires StrictlySorted(KeysOf(fields)) && SameKeys(n.entries, fields) && FieldsHarmless(c.secret, fields, MAX_DEPTH - depth - 1)
    requires forall i :: 0 <= i < |fields| ==>
      Lookup(n.entries, fields[i].key).Some? && Represents(c.heap, Lookup(n.entries, fields[i].key).value, fields[i].value)
    requires NodesIn(fields) <= budget && PathAbove(c.heap, active, NodesIn(fields))
    ensures SanitizedNode(c, n, depth, active, budget) == (Dict(fields), budget - NodesIn(fields))
    decreases fields, 2, 0
  {
    hide PathAbove, EntriesKnown, Represents, FieldsHarmless, Passing, SanitizedFields, NodesIn, Lookup, FirstKeys, StrictlySorted;
    hide NodeKnown, TooManyFields;
    MappingKnown(c.heap, n);
    HarmlessPass(c.secret, n.entries, fields, MAX_DEPTH - depth - 1);
    KeysAre(n.entries, fields);
    hide DistinctEntries;
    FieldsUnchanged(c, n.entries, fields, |fields|, depth, active, budget);
    assert fields[..|fields|] == fields && KeysOf(fields)[..|fields|] == KeysOf(fields);
  }

  lemma {:induction false} FieldsUnchanged(c: Context, entries: seq<Entry>, fields: seq<Field>, n: nat, depth: nat, active: set<nat>, budget: nat)
    requires depth < MAX_DEPTH && n <= |fields| && EntriesKnown(c.heap, entries) && Passing(entries) && DistinctEntries(entries)
    requires FieldsHarmless(c.secret, fields, MAX_DEPTH - depth - 1)
    requires forall i :: 0 <= i < |fields| ==>
      Lookup(entries, fields[i].key).Some? && Represents(c.heap, Lookup(entries, fields[i].key).value, fields[i].value)
    requires NodesIn(fields) <= budget && PathAbove(c.heap, active, NodesIn(fields))
    ensures NodesIn(fields[..n]) <= NodesIn(fields)
    ensures SanitizedFields(c, entries, KeysOf(fields)[..n], depth, active, budget) == (fields[..n], budget - NodesIn(fields[..n]))
    decreases fields, 1, n
  {
    hide PathAbove, EntriesKnown, Represents, Harmless, Passing, Lookup, Matches, Nodes, TextFits, DistinctEntries;
    hide SanitizedFields, SanitizedField, NodesIn;
    if n == 0 {
      NoFieldsUnchanged(c, entries, depth, active, budget);
      assert KeysOf(fields)[..n] == [] && fields[..n] == [];
    } else {
      var keys, f := KeysOf(fields), fields[n - 1];
      FieldsUnchanged(c, entries, fields, n - 1, depth, active, budget);
      NodesInPart(fields, n - 1);
      PathShrinks(c.heap, active, NodesIn(fields), Nodes(f.value));
      var left := budget - NodesIn(fields[..n - 1]);
      FieldUnchanged(c, entries, f, depth, active, left);
      NextField(c, entries, keys, n - 1, depth, active, budget, fields[..n - 1], left);
      assert keys[n - 1] == f.key && fields[..n] == fields[..n - 1] + [Field(f.key, f.value)];
    }
  }

  lemma NoFieldsUnchanged(c: Context, entries: seq<Entry>, depth: nat, active: set<nat>, budget: nat)
    requires depth <= MAX_DEPTH && EntriesKnown(c.heap, entries)
    ensures NodesIn([]) == 0 && SanitizedFields(c, entries, [], depth, active, budget) == ([], budget)
  {
    hide EntriesKnown;
  }

  lemma {:induction false} FieldUnchanged(c: Context, entries: seq<Entry>, f: Field, depth: nat, active: set<nat>, budget: nat)
    requires depth < MAX_DEPTH && EntriesKnown(c.heap, entries) && Passing(entries) && DistinctEntries(entries)
    requires !c.secret(f.key) && Harmless(c.secret, f.value, MAX_DEPTH - depth - 1)
    requires Lookup(entries, f.key).Some? && Represents(c.heap, Lookup(entries, f.key).value, f.value)
    requires Nodes(f.value) <= budget && PathAbove(c.heap, active, Nodes(f.value))
    ensures EntriesKnown(c.heap, Matches(entries, f.key))
    ensures SanitizedField(c, Matches(entries, f.key), depth, active, budget) == (f.value, budget - Nodes(f.value))
    decreases f.value, 3, 0
  {
    hide PathAbove, EntriesKnown, Represents, Harmless, Passing, Sanitized, Lookup, Matches, Nodes, DistinctEntries;
    MatchesOne(entries, f.key);
    MatchesKnown(c.heap, entries, f.key);
    var matches := Matches(entries, f.key);
    assert Known(c.heap, matches[0].value.value) by { MatchKnown(c.heap, matches); }
    Unchanged(c, matches[0].value.value, f.value, depth + 1, active, budget);
  }

  lemma MatchKnown(h: map<nat, Node>, matches: seq<Entry>)
    requires EntriesKnown(h, matches) && |matches| == 1 && matches[0].value.Some?
    ensures Known(h, matches[0].value.value)
  {
  }

  /** Redaction and truncation touch nothing else: a small payload without secret keys comes out as it went in, keys sorted. */
  lemma HarmlessPasses(c: Context, v: Value, j: Json)
    requires Known(c.heap, v) && Represents(c.heap, v, j) && Harmless(c.secret, j, MAX_DEPTH) && Nodes(j) <= MAX_TRAVERSAL_NODES
    ensures SanitizedPayload(c, v) == j
  {
    Unchanged(c, v, j, 0, {}, MAX_TRAVERSAL_NODES);
    hide Represents, Sanitized, Harmless;
  }
}
