// Bounds on every sanitized payload: strings, numbers, entries, height and total
// size, whatever the object graph is.
module TracePayloadBounds {
  import opened Utf8
  import opened TracePayloads
  import opened TracePayloadTheorems
  import opened Wrappers

  ghost predicate DistinctKeys(fields: seq<Field>) { forall i, j :: 0 <= i < j < |fields| ==> fields[i].key != fields[j].key }

  /** Encodable strings of at most 4096 bytes, numbers of at most 4096 bits, at most 51 entries, at most `height` levels. */
  ghost predicate Fits(j: Json, height: nat) {
    match j
    case Str(s) => TextFits(s)
    case Int(n) => BitLength(Magnitude(n)) <= MAX_INT_BITS
    case List(items) => height > 0 && |items| <= 51 && AllFit(items, height - 1)
    case Dict(fields) => height > 0 && |fields| <= 51 && DistinctKeys(fields) && FieldsFit(fields, height - 1)
    case _ => true
  }

  ghost predicate AllFit(items: seq<Json>, height: nat) { forall i :: 0 <= i < |items| ==> Fits(items[i], height) }

  ghost predicate FieldsFit(fields: seq<Field>, height: nat) {
    forall i :: 0 <= i < |fields| ==> TextFits(fields[i].key) && Fits(fields[i].value, height)
  }

  /** How many values a payload holds, itself included. */
  function Nodes(j: Json): nat
    decreases j, 0
  {
    match j
    case List(items) => 1 + NodesOf(items)
    case Dict(fields) => 1 + NodesIn(fields)
    case _ => 1
  }

  function NodesOf(items: seq<Json>): nat
    decreases items, 1
  {
    if items == [] then 0 else NodesOf(items[..|items| - 1]) + Nodes(items[|items| - 1])
  }

  function NodesIn(fields: seq<Field>): nat
    decreases fields, 1
  {
    if fields == [] then 0 else NodesIn(fields[..|fields| - 1]) + Nodes(fields[|fields| - 1].value)
  }

  lemma {:induction false} NodesInAfter(f: Field, rest: seq<Field>)
    ensures NodesIn([f] + rest) == Nodes(f.value) + NodesIn(rest)
    decreases |rest|
  {
    var all := [f] + rest;
    if rest == [] {
      assert all[..|all| - 1] == [];
    } else {
      assert all[..|all| - 1] == [f] + rest[..|rest| - 1];
      NodesInAfter(f, rest[..|rest| - 1]);
    }
  }

  // ---------------------------------------------------------------- numbers and markers

  lemma {:induction false} BitsBound(n: nat, limit: nat, bits: nat)
    requires n < limit && limit == Power(bits)
    ensures BitLength(n) <= bits
    decreases bits
  {
    if n > 0 {
      assert bits > 0;
      BitsBound(n / 2, limit / 2, bits - 1);
    }
  }

  function Power(bits: nat): nat { if bits == 0 then 1 else 2 * Power(bits - 1) }

  lemma {:induction false} PowerSum(a: nat, b: nat)
    ensures Power(a + b) == Power(a) * Power(b)
  {
    if a > 0 { PowerSum(a - 1, b); }
  }

  lemma SizeBits(n: Size)
    ensures BitLength(n) <= 64
  {
    assert Power(4) == 16;
    PowerSum(4, 4);
    PowerSum(8, 8);
    PowerSum(16, 16);
    PowerSum(32, 32);
    BitsBound(n, 0x1_0000_0000_0000_0000, 64);
  }

  function Tens(k: nat): nat { if k == 0 then 1 else 10 * Tens(k - 1) }

  lemma {:induction false} DigitsBound(n: nat, k: nat)
    requires k > 0 && n < Tens(k)
    ensures |Digits(n)| <= k
    decreases k
  {
    if n >= 10 { DigitsBound(n / 10, k - 1); }
  }

  lemma {:induction false} TensSum(a: nat, b: nat)
    ensures Tens(a + b) == Tens(a) * Tens(b)
  {
    if a > 0 { TensSum(a - 1, b); }
  }

  lemma SizeDigits(n: Size)
    ensures |Digits(n)| <= 20
  {
    assert Tens(5) == 100000;
    TensSum(5, 5);
    TensSum(10, 10);
    DigitsBound(n, 20);
  }

  lemma AsciiTextFits(s: Text)
    requires |s| <= MAX_STRING_BYTES && forall i :: 0 <= i < |s| ==> s[i] < 0x80
    ensures TextFits(s)
  {
    EncodeAscii(s);
  }

  lemma MarkersFit()
    ensures TextFits(REDACTED) && TextFits(MAX_DEPTH_MARKER) && TextFits(NODE_LIMIT_MARKER) && TextFits(CIRCULAR_MARKER)
    ensures TextFits(UNPRINTABLE_MARKER) && TextFits(UNREADABLE_MARKER)
  {
    hide Encode, WellFormed, Ascii;
    AsciiFits("[REDACTED]");
    AsciiFits("[MAX_DEPTH]");
    AsciiFits("[NODE_LIMIT]");
    AsciiFits("[CIRCULAR]");
    AsciiFits("[UNPRINTABLE]");
    AsciiFits("[UNREADABLE]");
  }

  lemma KeysFit()
    ensures TextFits(Ascii("_trace_key_collision")) && TextFits(Ascii("_trace_truncated")) && TextFits(Ascii("original_fields"))
    ensures TextFits(Ascii("_trace_truncated_fields")) && TextFits(Ascii("_trace_truncated_items"))
    ensures Ascii("_trace_truncated") != Ascii("original_fields")
  {
    hide Encode, WellFormed, Ascii;
    AsciiFits("_trace_key_collision");
    AsciiFits("_trace_truncated");
    AsciiFits("original_fields");
    AsciiFits("_trace_truncated_fields");
    AsciiFits("_trace_truncated_items");
    assert |Ascii("_trace_truncated")| == 16 && |Ascii("original_fields")| == 15;
  }

  lemma TooLargeFits(bits: Size)
    ensures TextFits(TooLarge(bits))
  {
    SizeDigits(bits);
    AsciiTextFits(TooLarge(bits));
  }

  lemma SummaryFits(kind: BinaryKind, count: Size)
    ensures TextFits(BinarySummary(kind, count))
  {
    SizeDigits(count);
    AsciiTextFits(BinarySummary(kind, count));
  }

  lemma LeafFits(v: Value, height: nat)
    requires !v.Ref?
    ensures Fits(Leaf(v), height) && Nodes(Leaf(v)) == 1
  {
    MarkersFit();
    hide TextFits, Bounded, TooLarge, BinarySummary, BitLength;
    match v
    case Integer(n) => TooLargeFits(BitLength(Magnitude(n)));
    case Chars(s) => BoundedFits(s);
    case Binary(kind, count) => if count.Some? { SummaryFits(kind, count.value); }
    case Foreign(rendered) => if rendered.Some? { BoundedFits(rendered.value); }
    case _ =>
  }

  lemma MarkerFits(key: string, n: Size, height: nat)
    requires height > 0 && TextFits(Ascii(key))
    ensures Fits(Marker(key, Int(n)), height) && Nodes(Marker(key, Int(n))) == 2
  {
    SizeBits(n);
    hide TextFits, Ascii, BitLength;
    var f := Field(Ascii(key), Int(n));
    NodesInAfter(f, []);
    assert [f] + [] == [f];
    assert Fits(Int(n), height - 1);
    assert FieldsFit([f], height - 1);
  }

  lemma TooManyFits(reported: Option<Size>, height: nat)
    requires height > 0
    ensures Fits(TooManyFields(reported), height) && Nodes(TooManyFields(reported)) <= 3
  {
    KeysFit();
    hide TextFits, Ascii, Fits, Nodes;
    var n := if reported.Some? then reported.value else 0;
    IntFits(n, height - 1);
    assert Fits(Bool(true), height - 1) && Nodes(Bool(true)) == 1 by { BoolFits(height - 1); }
    PairFits(Field(Ascii("_trace_truncated"), Bool(true)), Field(Ascii("original_fields"), Int(n)), height);
  }

  lemma BoolFits(height: nat)
    ensures Fits(Bool(true), height) && Nodes(Bool(true)) == 1
  {
  }

  lemma PairFits(f: Field, g: Field, height: nat)
    requires height > 0 && TextFits(f.key) && Fits(f.value, height - 1) && TextFits(g.key) && Fits(g.value, height - 1) && f.key != g.key
    requires Nodes(f.value) == Nodes(g.value) == 1
    ensures Fits(Dict([f]), height) && Nodes(Dict([f])) == 2 && Fits(Dict([f] + [g]), height) && Nodes(Dict([f] + [g])) == 3
  {
    OneField(f, height - 1);
    TwoFields(f, g, height - 1);
    assert [f] + [g] == [f, g];
    hide TextFits, FieldsFit, NodesIn;
  }

  lemma IntFits(n: Size, height: nat)
    ensures Fits(Int(n), height) && Nodes(Int(n)) == 1
  {
    SizeBits(n);
  }

  lemma OneField(f: Field, height: nat)
    requires TextFits(f.key) && Fits(f.value, height)
    ensures FieldsFit([f], height) && NodesIn([f]) == Nodes(f.value)
  {
    hide TextFits, Fits, Nodes;
    assert [f][..0] == [];
  }

  lemma TwoFields(f: Field, g: Field, height: nat)
    requires TextFits(f.key) && Fits(f.value, height) && TextFits(g.key) && Fits(g.value, height)
    ensures FieldsFit([f, g], height) && NodesIn([f, g]) == Nodes(f.value) + Nodes(g.value)
  {
    hide TextFits, Fits, Nodes;
    OneField(f, height);
    assert [f, g][..1] == [f];
  }

  lemma {:induction false} PutKeys(fields: seq<Field>, key: Text, value: Json)
    requires DistinctKeys(fields)
    ensures var r := Put(fields, key, value);
      && DistinctKeys(r)
      && forall i :: 0 <= i < |r| ==> r[i] == Field(key, value) || r[i] in fields
  {
    if fields != [] && fields[0].key != key {
      PutKeys(fields[1..], key, value);
      var rest := Put(fields[1..], key, value);
      assert forall i :: 0 <= i < |rest| ==> rest[i].key != fields[0].key;
    }
  }

  lemma {:induction false} PutNodes(fields: seq<Field>, key: Text, value: Json)
    ensures NodesIn(Put(fields, key, value)) <= NodesIn(fields) + Nodes(value)
  {
    hide Nodes, NodesIn;
    if fields == [] {
      NodesInAfter(Field(key, value), []);
      assert [Field(key, value)] + [] == [Field(key, value)];
      assert NodesIn([]) == 0 by { NoNodes(); }
    } else {
      NodesInAfter(fields[0], fields[1..]);
      assert fields == [fields[0]] + fields[1..];
      NodesInAfter(Field(key, value), fields[1..]);
      if fields[0].key != key {
        PutNodes(fields[1..], key, value);
        NodesInAfter(fields[0], Put(fields[1..], key, value));
      }
    }
  }

  lemma NoNodes()
    ensures NodesIn([]) == 0
  {
  }

  lemma PutFits(fields: seq<Field>, key: Text, value: Json, height: nat)
    requires FieldsFit(fields, height) && DistinctKeys(fields) && TextFits(key) && Fits(value, height)
    ensures var r := Put(fields, key, value);
      FieldsFit(r, height) && DistinctKeys(r) && NodesIn(r) <= NodesIn(fields) + Nodes(value)
  {
    hide TextFits, Fits, Nodes, NodesIn, Put, DistinctKeys;
    PutKeys(fields, key, value);
    PutNodes(fields, key, value);
  }

  // ---------------------------------------------------------------- every payload

  /** What a call may put out: `left` of `budget` nodes remain. */
  ghost predicate Within(j: Json, height: nat, budget: nat, left: nat) {
    left <= budget && Fits(j, height) && Nodes(j) <= 2 + 101 * (budget - left)
  }

  lemma TextWithin(s: Text, height: nat, budget: nat, left: nat)
    requires TextFits(s) && left <= budget
    ensures Within(Str(s), height, budget, left)
  {
  }

  lemma SanitizedWithin(c: Context, v: Value, depth: nat, active: set<nat>, budget: nat)
    requires depth <= MAX_DEPTH + 1 && Known(c.heap, v)
    ensures var (j, left) := Sanitized(c, v, depth, active, budget); Within(j, MAX_DEPTH + 2 - depth, budget, left)
    decreases MAX_DEPTH + 1 - depth, 3, 0
  {
    MarkersFit();
    hide TextFits, SanitizedNode, Leaf, Fits, Nodes, NodeKnown;
    var r := Sanitized(c, v, depth, active, budget);
    TextWithin(MAX_DEPTH_MARKER, MAX_DEPTH + 2 - depth, budget, r.1);
    TextWithin(NODE_LIMIT_MARKER, MAX_DEPTH + 2 - depth, budget, r.1);
    TextWithin(CIRCULAR_MARKER, MAX_DEPTH + 2 - depth, budget, r.1);
    if depth > MAX_DEPTH || budget == 0 {
    } else if !v.Ref? {
      LeafFits(v, MAX_DEPTH + 2 - depth);
    } else if v.id !in active {
      assert NodeKnown(c.heap, c.heap[v.id]);
      NodeWithin(c, c.heap[v.id], depth, active + {v.id}, budget - 1);
    }
  }

  lemma NodeWithin(c: Context, n: Node, depth: nat, active: set<nat>, budget: nat)
    requires depth <= MAX_DEPTH && NodeKnown(c.heap, n)
    ensures var (j, left) := SanitizedNode(c, n, depth, active, budget);
      left <= budget && Fits(j, MAX_DEPTH + 2 - depth) && Nodes(j) <= 103 + 101 * (budget - left)
    decreases MAX_DEPTH + 1 - depth, 2, 0
  {
    MarkersFit();
    hide TextFits, SanitizedFields, SanitizedItems, FirstKeys, WithTruncated, TruncatedFields, TooManyFields;
    hide EntriesKnown, FieldsFit, AllFit, NodesIn, NodesOf;
    if n.Mapping? {
      TooManyFits(n.reported, MAX_DEPTH + 2 - depth);
      if |n.entries| <= MAX_MAPPING_SCAN_ITEMS && !n.broken {
        assert EntriesKnown(c.heap, n.entries) by { MappingKnown(c.heap, n); }
        MappingWithin(c, n.entries, n.reported, depth, active, budget);
      }
    } else if n.length.Some? {
      assert NodeKnown(c.heap, Sequence(None, n.items));
      SequenceWithin(c, n.items, n.length.value, depth, active, budget);
      hide NodeKnown;
    }
  }

  lemma MappingKnown(h: map<nat, Node>, n: Node)
    requires NodeKnown(h, n) && n.Mapping?
    ensures EntriesKnown(h, n.entries)
  {
  }

  lemma MappingWithin(c: Context, entries: seq<Entry>, reported: Option<Size>, depth: nat, active: set<nat>, budget: nat)
    requires depth <= MAX_DEPTH && |entries| <= MAX_MAPPING_SCAN_ITEMS && EntriesKnown(c.heap, entries)
    ensures var (fields, left) := SanitizedFields(c, entries, FirstKeys(entries), depth, active, budget);
      var r := WithTruncated(fields, TruncatedFields(|entries|, reported));
      left <= budget && Fits(Dict(r), MAX_DEPTH + 2 - depth) && NodesIn(r) <= 101 + 101 * (budget - left)
    decreases MAX_DEPTH + 1 - depth, 1, MAX_MAPPING_SCAN_ITEMS + 1
  {
    hide TextFits, SanitizedFields, FirstKeys, WithTruncated, TruncatedFields, FieldsFit, DistinctKeys, EntriesKnown, NodesIn;
    FirstKeysFit(entries);
    FieldsWithin(c, entries, FirstKeys(entries), depth, active, budget);
    var (fields, left) := SanitizedFields(c, entries, FirstKeys(entries), depth, active, budget);
    TruncatedFit(fields, |entries|, reported, MAX_DEPTH + 1 - depth);
  }

  lemma SequenceWithin(c: Context, items: seq<Option<Value>>, length: Size, depth: nat, active: set<nat>, budget: nat)
    requires depth <= MAX_DEPTH && NodeKnown(c.heap, Sequence(None, items))
    ensures var (out, left) := SanitizedItems(c, items, Min(length, MAX_ARRAY_ITEMS), depth, active, budget);
      var all := if length > MAX_ARRAY_ITEMS then out + [Marker("_trace_truncated_items", Int(length - MAX_ARRAY_ITEMS))] else out;
      left <= budget && Fits(List(all), MAX_DEPTH + 2 - depth) && NodesOf(all) <= 102 + 101 * (budget - left)
    decreases MAX_DEPTH + 1 - depth, 1, MAX_MAPPING_SCAN_ITEMS + 1
  {
    hide TextFits, SanitizedItems, Marker, NodeKnown, Nodes;
    var count := Min(length, MAX_ARRAY_ITEMS);
    ItemsWithin(c, items, count, depth, active, budget);
    var (out, left) := SanitizedItems(c, items, count, depth, active, budget);
    if length > MAX_ARRAY_ITEMS {
      KeysFit();
      MarkerFits("_trace_truncated_items", length - MAX_ARRAY_ITEMS, MAX_DEPTH + 1 - depth);
      var marker := Marker("_trace_truncated_items", Int(length - MAX_ARRAY_ITEMS));
      assert (out + [marker])[..|out|] == out;
    }
  }

  /** The output keys are distinct, encodable and short. */
  lemma FirstKeysFit(entries: seq<Entry>)
    ensures var keys := FirstKeys(entries);
      (forall i, j :: 0 <= i < j < |keys| ==> keys[i] != keys[j]) && forall k :: k in keys ==> TextFits(k)
  {
    SortedKeysAre(entries);
    forall i, j | 0 <= i < j < |FirstKeys(entries)| ensures FirstKeys(entries)[i] != FirstKeys(entries)[j] {
      LessTotal(FirstKeys(entries)[i], FirstKeys(entries)[i]);
    }
    forall k | k in FirstKeys(entries) ensures TextFits(k) {
      assert k in SortedKeys(entries);
      var e := Matches(entries, k)[0];
      BoundedFits(if e.key.Word? then e.key.s else e.key.described);
    }
  }

  lemma TruncatedFit(fields: seq<Field>, observed: Size, reported: Option<Size>, height: nat)
    requires |fields| <= 50 && FieldsFit(fields, height) && DistinctKeys(fields)
    ensures var r := WithTruncated(fields, TruncatedFields(observed, reported));
      |r| <= 51 && FieldsFit(r, height) && DistinctKeys(r) && NodesIn(r) <= NodesIn(fields) + 1
  {
    hide FieldsFit, DistinctKeys, TextFits, BitLength, Put, Ascii, NodesIn;
    KeysFit();
    var truncated := TruncatedFields(observed, reported);
    if truncated.Some? {
      SizeBits(truncated.value);
      PutFits(fields, Ascii("_trace_truncated_fields"), Int(truncated.value), height);
    }
  }

  lemma FieldsWithin(c: Context, entries: seq<Entry>, keys: seq<Text>, depth: nat, active: set<nat>, budget: nat)
    requires depth <= MAX_DEPTH && EntriesKnown(c.heap, entries) && |entries| <= MAX_MAPPING_SCAN_ITEMS
    requires (forall i, j :: 0 <= i < j < |keys| ==> keys[i] != keys[j]) && forall k :: k in keys ==> TextFits(k)
    ensures var (fields, left) := SanitizedFields(c, entries, keys, depth, active, budget);
      && left <= budget && |fields| == |keys| && FieldsFit(fields, MAX_DEPTH + 1 - depth) && DistinctKeys(fields)
      && (forall i :: 0 <= i < |keys| ==> fields[i].key == keys[i])
      && NodesIn(fields) <= 2 * |keys| + 101 * (budget - left)
    decreases MAX_DEPTH + 1 - depth, 1, |keys|
  {
    hide TextFits, SanitizedField, Fits, Nodes, EntriesKnown, Matches, DistinctKeys, FieldsFit, NodesIn;
    if keys == [] {
      NoFields(MAX_DEPTH + 1 - depth);
    } else {
      var n := |keys| - 1;
      FieldsWithin(c, entries, keys[..n], depth, active, budget);
      MatchesKnown(c.heap, entries, keys[n]);
      var (fields, left) := SanitizedFields(c, entries, keys[..n], depth, active, budget);
      MatchesFew(entries, keys[n]);
      FieldWithin(c, Matches(entries, keys[n]), depth, active, left);
      var (value, rest) := SanitizedField(c, Matches(entries, keys[n]), depth, active, left);
      hide SanitizedFields;
      FieldAppended(fields, keys[..n], keys[n], value, MAX_DEPTH + 1 - depth);
      assert keys[..n] + [keys[n]] == keys;
    }
  }

  lemma NoFields(height: nat)
    ensures FieldsFit([], height) && DistinctKeys([]) && NodesIn([]) == 0
  {
  }

  lemma FieldAppended(fields: seq<Field>, keys: seq<Text>, key: Text, value: Json, height: nat)
    requires |fields| == |keys| && (forall i :: 0 <= i < |keys| ==> fields[i].key == keys[i])
    requires FieldsFit(fields, height) && DistinctKeys(fields) && key !in keys && TextFits(key) && Fits(value, height)
    ensures var r := fields + [Field(key, value)];
      && FieldsFit(r, height) && DistinctKeys(r) && NodesIn(r) == NodesIn(fields) + Nodes(value)
      && forall i :: 0 <= i < |keys + [key]| ==> r[i].key == (keys + [key])[i]
  {
    hide TextFits, Fits, Nodes;
    assert (fields + [Field(key, value)])[..|fields|] == fields;
  }

  lemma {:induction false} MatchesFew(entries: seq<Entry>, key: Text)
    ensures |Matches(entries, key)| <= |entries|
  {
    hide OutputKey;
    if entries != [] { MatchesFew(entries[..|entries| - 1], key); }
  }

  lemma FieldWithin(c: Context, matches: seq<Entry>, depth: nat, active: set<nat>, budget: nat)
    requires depth <= MAX_DEPTH && EntriesKnown(c.heap, matches) && |matches| <= MAX_MAPPING_SCAN_ITEMS
    ensures var (j, left) := SanitizedField(c, matches, depth, active, budget); Within(j, MAX_DEPTH + 1 - depth, budget, left)
    decreases MAX_DEPTH + 1 - depth, 0, 0
  {
    MarkersFit();
    KeysFit();
    hide TextFits, Sanitized, Fits, Nodes, Marker;
    MarkerFits("_trace_key_collision", |matches|, MAX_DEPTH + 1 - depth);
    TextWithin(REDACTED, MAX_DEPTH + 1 - depth, budget, budget);
    TextWithin(UNREADABLE_MARKER, MAX_DEPTH + 1 - depth, budget, budget);
    if |matches| == 1 && !IsSecret(c.secret, matches[0].key) && matches[0].value.Some? {
      SanitizedWithin(c, matches[0].value.value, depth + 1, active, budget);
    }
  }

  lemma ItemsWithin(c: Context, items: seq<Option<Value>>, n: nat, depth: nat, active: set<nat>, budget: nat)
    requires depth <= MAX_DEPTH && NodeKnown(c.heap, Sequence(None, items))
    ensures var (out, left) := SanitizedItems(c, items, n, depth, active, budget);
      left <= budget && |out| <= n && AllFit(out, MAX_DEPTH + 1 - depth) && NodesOf(out) <= 2 * |out| + 101 * (budget - left)
    decreases MAX_DEPTH + 1 - depth, 1, n
  {
    MarkersFit();
    hide TextFits, Sanitized, Fits, Nodes, NodeKnown;
    if n > 0 {
      ItemsWithin(c, items, n - 1, depth, active, budget);
      var (out, left) := SanitizedItems(c, items, n - 1, depth, active, budget);
      if !Stopped(items, n - 1) {
        var item := Item(items, n - 1);
        if item.Some? {
          assert Known(c.heap, item.value) by { ItemOfNode(c.heap, items, n - 1); }
          SanitizedWithin(c, item.value, depth + 1, active, left);
        } else {
          TextWithin(UNREADABLE_MARKER, MAX_DEPTH + 1 - depth, left, left);
        }
        var value := if item.Some? then Sanitized(c, item.value, depth + 1, active, left).0 else Str(UNREADABLE_MARKER);
        assert (out + [value])[..|out|] == out;
      }
    }
  }

  /**
   * Whatever the object graph: a payload has at most ten levels, 51 entries in a container and 51714 values in all, its
   * strings and keys have at most 4096 bytes and can be encoded, and the keys of an object are distinct.
   */
  lemma PayloadFits(c: Context, v: Value)
    requires Known(c.heap, v)
    ensures Fits(SanitizedPayload(c, v), 10) && Nodes(SanitizedPayload(c, v)) <= 51714
  {
    hide Sanitized, Fits, Nodes;
    SanitizedWithin(c, v, 0, {}, MAX_TRAVERSAL_NODES);
  }
}
