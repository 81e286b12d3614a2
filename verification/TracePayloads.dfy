// The trace sanitizer: any Python object graph becomes a bounded JSON value in
// which nothing stored under a secret key can be seen.
module TracePayloads {
  import opened Utf8
  import opened Wrappers

  const MAX_STRING_BYTES: nat := 4096
  const MAX_ARRAY_ITEMS: nat := 50
  const MAX_OBJECT_FIELDS: nat := 50
  const MAX_MAPPING_SCAN_ITEMS: nat := 64
  const MAX_DEPTH: nat := 8
  const MAX_TRAVERSAL_NODES: nat := 512
  const MAX_INT_BITS: nat := 4096

  /** What a length or a number of bits can be on a real machine. */
  type Size = n: nat | n < 0x1_0000_0000_0000_0000

  function Magnitude(n: int): nat { if n < 0 then -n else n }

  function BitLength(n: nat): nat { if n == 0 then 0 else 1 + BitLength(n / 2) }

  type PyInt = n: int | BitLength(Magnitude(n)) < 0x1_0000_0000_0000_0000

  // ---------------------------------------------------------------- objects

  datatype BinaryKind = Bytes | ByteArray | MemoryView

  /** A value: a leaf, or a container on the heap. None stands for a read that raises. */
  datatype Value =
    | Nothing
    | Flag(flag: bool)
    | Integer(n: PyInt)
    | Real(printed: Text, finite: bool)
    | Chars(s: Text)
    | Binary(kind: BinaryKind, count: Option<Size>)
    | Foreign(rendered: Option<Text>)
    | Ref(id: nat)

  /** A string key, or another key by its type and its text. */
  datatype Key = Word(s: Text) | Other(described: Text)

  datatype Entry = Entry(key: Key, value: Option<Value>)

  /** `broken`: iterating raises after the entries. `reported`, `length`: what `len` says. */
  datatype Node =
    | Mapping(entries: seq<Entry>, broken: bool, reported: Option<Size>)
    | Sequence(length: Option<Size>, items: seq<Option<Value>>)

  predicate Known(h: map<nat, Node>, v: Value) { v.Ref? ==> v.id in h }

  predicate NodeKnown(h: map<nat, Node>, n: Node) {
    match n
    case Mapping(entries, _, _) => forall i :: 0 <= i < |entries| && entries[i].value.Some? ==> Known(h, entries[i].value.value)
    case Sequence(_, items) => forall i :: 0 <= i < |items| && items[i].Some? ==> Known(h, items[i].value)
  }

  ghost predicate Closed(h: map<nat, Node>) { forall id :: id in h ==> NodeKnown(h, h[id]) }

  type Heap = h: map<nat, Node> | Closed(h) witness map[]

  // ---------------------------------------------------------------- JSON

  datatype Json =
    | Null
    | Bool(flag: bool)
    | Int(n: int)
    | Float(printed: Text)
    | Str(s: Text)
    | List(items: seq<Json>)
    | Dict(fields: seq<Field>)

  datatype Field = Field(key: Text, value: Json)

  /** `d[key] = value`, keeping the position of a key that is there. */
  function Put(fields: seq<Field>, key: Text, value: Json): (r: seq<Field>)
    ensures |fields| <= |r| <= |fields| + 1
  {
    if fields == [] then [Field(key, value)]
    else if fields[0].key == key then [Field(key, value)] + fields[1..]
    else [fields[0]] + Put(fields[1..], key, value)
  }

  function Marker(key: string, value: Json): Json { Dict([Field(Ascii(key), value)]) }

  // ---------------------------------------------------------------- leaves

  const TRUNCATION_MARKER := Ascii("...[TRUNCATED]")
  const REDACTED := Ascii("[REDACTED]")
  const MAX_DEPTH_MARKER := Ascii("[MAX_DEPTH]")
  const NODE_LIMIT_MARKER := Ascii("[NODE_LIMIT]")
  const CIRCULAR_MARKER := Ascii("[CIRCULAR]")
  const UNPRINTABLE_MARKER := Ascii("[UNPRINTABLE]")
  const UNREADABLE_MARKER := Ascii("[UNREADABLE]")

  function Min(a: nat, b: nat): nat { if a < b then a else b }

  /** `_bounded_string`. */
  function Bounded(s: Text): Text {
    var prefix := s[..Min(|s|, MAX_STRING_BYTES + 1)];
    var encoded := Encode(prefix);
    if |s| <= MAX_STRING_BYTES && |encoded| <= MAX_STRING_BYTES then
      DecodeEncode(prefix);
      Decode(encoded)
    else
      DecodeCut(prefix, MAX_STRING_BYTES - |TRUNCATION_MARKER|);
      Decode(encoded[..MAX_STRING_BYTES - |TRUNCATION_MARKER|]) + TRUNCATION_MARKER
  }

  function Digits(n: nat): (r: Text)
    ensures forall i :: 0 <= i < |r| ==> 48 <= r[i] <= 57
  {
    if n < 10 then [48 + n] else Digits(n / 10) + [48 + n % 10]
  }

  function KindName(kind: BinaryKind): string {
    match kind
    case Bytes => "bytes"
    case ByteArray => "bytearray"
    case MemoryView => "memoryview"
  }

  function TooLarge(bits: nat): Text { Ascii("[INTEGER_TOO_LARGE:") + Digits(bits) + Ascii("_BITS]") }

  function BinarySummary(kind: BinaryKind, count: nat): Text {
    Ascii("[BINARY:") + Ascii(KindName(kind)) + Ascii(":") + Digits(count) + Ascii("_BYTES]")
  }

  function Leaf(v: Value): Json
    requires !v.Ref?
  {
    match v
    case Nothing => Null
    case Flag(flag) => Bool(flag)
    case Integer(n) => if BitLength(Magnitude(n)) > MAX_INT_BITS then Str(TooLarge(BitLength(Magnitude(n)))) else Int(n)
    case Real(printed, finite) => if finite then Float(printed) else Null
    case Chars(s) => Str(Bounded(s))
    case Binary(kind, count) => Str(if count.Some? then BinarySummary(kind, count.value) else UNREADABLE_MARKER)
    case Foreign(rendered) => Str(if rendered.Some? then Bounded(rendered.value) else UNPRINTABLE_MARKER)
  }

  // ---------------------------------------------------------------- keys

  function OutputKey(key: Key): Text { Bounded(if key.Word? then key.s else key.described) }

  predicate IsSecret(secret: Text -> bool, key: Key) { key.Word? && secret(key.s) }

  /** The entries that share an output key, in order. */
  function Matches(entries: seq<Entry>, key: Text): (r: seq<Entry>)
    ensures forall i :: 0 <= i < |r| ==> r[i] in entries && OutputKey(r[i].key) == key
  {
    if entries == [] then []
    else
      var last := entries[|entries| - 1];
      Matches(entries[..|entries| - 1], key) + if OutputKey(last.key) == key then [last] else []
  }

  /** The distinct output keys in order. */
  function SortedKeys(entries: seq<Entry>): seq<Text> {
    if entries == [] then [] else Insert(OutputKey(entries[|entries| - 1].key), SortedKeys(entries[..|entries| - 1]))
  }

  /** The keys are sorted, and they are exactly the keys of some entry. */
  lemma {:induction false} SortedKeysAre(entries: seq<Entry>)
    ensures StrictlySorted(SortedKeys(entries))
    ensures forall k :: k in SortedKeys(entries) <==> Matches(entries, k) != []
  {
    if entries != [] {
      SortedKeysAre(entries[..|entries| - 1]);
      InsertKeeps(OutputKey(entries[|entries| - 1].key), SortedKeys(entries[..|entries| - 1]));
      hide Insert, OutputKey, StrictlySorted;
    }
  }

  // ---------------------------------------------------------------- containers

  /** What a sanitizer run needs to know: the objects, and which keys are secret. */
  datatype Context = Context(heap: Heap, secret: Text -> bool)

  /** `_truncated_field_count`; iteration is complete where it is called. */
  function TruncatedFields(observed: nat, reported: Option<nat>): Option<nat> {
    var count := if reported.Some? && reported.value >= observed then reported.value else observed;
    if count > MAX_OBJECT_FIELDS then Some(count - MAX_OBJECT_FIELDS) else None
  }

  function TooManyFields(reported: Option<nat>): Json {
    var marker := [Field(Ascii("_trace_truncated"), Bool(true))];
    Dict(if reported.Some? && reported.value > MAX_MAPPING_SCAN_ITEMS then marker + [Field(Ascii("original_fields"), Int(reported.value))] else marker)
  }

  function WithTruncated(fields: seq<Field>, truncated: Option<nat>): seq<Field> {
    if truncated.Some? then Put(fields, Ascii("_trace_truncated_fields"), Int(truncated.value)) else fields
  }

  function FirstKeys(entries: seq<Entry>): (r: seq<Text>)
    ensures |r| <= MAX_OBJECT_FIELDS
  {
    var keys := SortedKeys(entries);
    keys[..Min(|keys|, MAX_OBJECT_FIELDS)]
  }

  /** `_sanitize`: the output, and the budget that is left. */
  function Sanitized(c: Context, v: Value, depth: nat, active: set<nat>, budget: nat): (r: (Json, nat))
    requires depth <= MAX_DEPTH + 1 && Known(c.heap, v)
    ensures r.1 <= budget
    decreases MAX_DEPTH + 1 - depth, 3, 0
  {
    if depth > MAX_DEPTH then (Str(MAX_DEPTH_MARKER), budget)
    else if budget == 0 then (Str(NODE_LIMIT_MARKER), budget)
    else if !v.Ref? then (Leaf(v), budget - 1)
    else if v.id in active then (Str(CIRCULAR_MARKER), budget - 1)
    else SanitizedNode(c, c.heap[v.id], depth, active + {v.id}, budget - 1)
  }

  function SanitizedNode(c: Context, n: Node, depth: nat, active: set<nat>, budget: nat): (r: (Json, nat))
    requires depth <= MAX_DEPTH && NodeKnown(c.heap, n)
    ensures r.1 <= budget
    decreases MAX_DEPTH + 1 - depth, 2, 0
  {
    match n
    case Mapping(entries, broken, reported) =>
      if |entries| > MAX_MAPPING_SCAN_ITEMS then (TooManyFields(reported), budget)
      else if broken then (Str(UNPRINTABLE_MARKER), budget)
      else
        var (fields, left) := SanitizedFields(c, entries, FirstKeys(entries), depth, active, budget);
        (Dict(WithTruncated(fields, TruncatedFields(|entries|, reported))), left)
    case Sequence(length, items) =>
      if length.None? then (Str(UNPRINTABLE_MARKER), budget)
      else
        var (out, left) := SanitizedItems(c, items, Min(length.value, MAX_ARRAY_ITEMS), depth, active, budget);
        (List(if length.value > MAX_ARRAY_ITEMS then out + [Marker("_trace_truncated_items", Int(length.value - MAX_ARRAY_ITEMS))] else out), left)
  }

  /** The fields for the first keys, in order. */
  function SanitizedFields(c: Context, entries: seq<Entry>, keys: seq<Text>, depth: nat, active: set<nat>, budget: nat)
    : (r: (seq<Field>, nat))
    requires depth <= MAX_DEPTH && EntriesKnown(c.heap, entries)
    ensures r.1 <= budget && |r.0| == |keys|
    decreases MAX_DEPTH + 1 - depth, 1, |keys|
  {
    if keys == [] then ([], budget)
    else
      var key := keys[|keys| - 1];
      var (fields, left) := SanitizedFields(c, entries, keys[..|keys| - 1], depth, active, budget);
      var (value, rest) := SanitizedField(c, Matches(entries, key), depth, active, left);
      (fields + [Field(key, value)], rest)
  }

  predicate EntriesKnown(h: map<nat, Node>, entries: seq<Entry>) {
    forall i :: 0 <= i < |entries| && entries[i].value.Some? ==> Known(h, entries[i].value.value)
  }

  /** The value for the entries of one output key. */
  function SanitizedField(c: Context, matches: seq<Entry>, depth: nat, active: set<nat>, budget: nat): (r: (Json, nat))
    requires depth <= MAX_DEPTH && EntriesKnown(c.heap, matches)
    ensures r.1 <= budget
    decreases MAX_DEPTH + 1 - depth, 0, 0
  {
    if |matches| != 1 then (Marker("_trace_key_collision", Int(|matches|)), budget)
    else if IsSecret(c.secret, matches[0].key) then (Str(REDACTED), budget)
    else if matches[0].value.None? then (Str(UNREADABLE_MARKER), budget)
    else Sanitized(c, matches[0].value.value, depth + 1, active, budget)
  }

  /** Whether one of the first n items cannot be read; the loop stops there. */
  predicate Stopped(items: seq<Option<Value>>, n: nat) {
    exists i :: 0 <= i < n && Item(items, i).None?
  }

  function Item(items: seq<Option<Value>>, i: nat): Option<Value> { if i < |items| then items[i] else None }

  function SanitizedItems(c: Context, items: seq<Option<Value>>, n: nat, depth: nat, active: set<nat>, budget: nat)
    : (r: (seq<Json>, nat))
    requires depth <= MAX_DEPTH && NodeKnown(c.heap, Sequence(None, items))
    ensures r.1 <= budget && |r.0| <= n
    decreases MAX_DEPTH + 1 - depth, 1, n
  {
    if n == 0 then ([], budget)
    else
      var (out, left) := SanitizedItems(c, items, n - 1, depth, active, budget);
      if Stopped(items, n - 1) then (out, left)
      else if Item(items, n - 1).None? then (out + [Str(UNREADABLE_MARKER)], left)
      else
        var (value, rest) := Sanitized(c, Item(items, n - 1).value, depth + 1, active, left);
        (out + [value], rest)
  }

  /** `sanitize_trace_payload`. */
  function SanitizedPayload(c: Context, v: Value): Json
    requires Known(c.heap, v)
  {
    Sanitized(c, v, 0, {}, MAX_TRAVERSAL_NODES).0
  }

  lemma FirstKeysMatch(entries: seq<Entry>, key: Text)
    requires key in FirstKeys(entries)
    ensures Matches(entries, key) != []
  {
    SortedKeysAre(entries);
    assert key in SortedKeys(entries);
  }

  lemma NothingMatches(entries: seq<Entry>)
    ensures forall k :: Matches(entries[..0], k) == []
  {
  }

  lemma MatchesStep(entries: seq<Entry>, i: nat)
    requires i < |entries|
    ensures forall k :: Matches(entries[..i + 1], k) == Matches(entries[..i], k) + (if OutputKey(entries[i].key) == k then [entries[i]] else [])
  {
    hide OutputKey;
    assert entries[..i + 1][..i] == entries[..i];
  }

  lemma MatchesKnown(h: map<nat, Node>, entries: seq<Entry>, key: Text)
    requires EntriesKnown(h, entries)
    ensures EntriesKnown(h, Matches(entries, key))
  {
  }

  lemma NextField(c: Context, entries: seq<Entry>, keys: seq<Text>, i: nat, depth: nat, active: set<nat>, budget: nat,
                  fields: seq<Field>, left: nat)
    requires i < |keys| && depth <= MAX_DEPTH && EntriesKnown(c.heap, entries)
    requires (fields, left) == SanitizedFields(c, entries, keys[..i], depth, active, budget)
    ensures EntriesKnown(c.heap, Matches(entries, keys[i]))
    ensures var (value, rest) := SanitizedField(c, Matches(entries, keys[i]), depth, active, left);
      SanitizedFields(c, entries, keys[..i + 1], depth, active, budget) == (fields + [Field(keys[i], value)], rest)
  {
    MatchesKnown(c.heap, entries, keys[i]);
    assert keys[..i + 1][..i] == keys[..i];
    hide Matches, SanitizedField;
  }

  // ---------------------------------------------------------------- the sanitizer at work

  /** One run: the traversal budget and the containers on the current path. */
  class Sanitizer {
    const context: Context
    var remaining: nat
    var active: set<nat>

    constructor (context: Context)
      ensures this.context == context && remaining == MAX_TRAVERSAL_NODES && active == {}
    {
      this.context := context;
      remaining := MAX_TRAVERSAL_NODES;
      active := {};
    }

    method Consume() returns (ok: bool)
      modifies this
      ensures ok == (old(remaining) > 0) && remaining == (if ok then old(remaining) - 1 else old(remaining)) && active == old(active)
    {
      ok := remaining > 0;
      if ok { remaining := remaining - 1; }
    }

    method Sanitize(v: Value, depth: nat) returns (r: Json)
      requires depth <= MAX_DEPTH + 1 && Known(context.heap, v)
      modifies this
      ensures active == old(active)
      ensures (r, remaining) == Sanitized(context, v, depth, old(active), old(remaining))
      decreases MAX_DEPTH + 1 - depth, 1
    {
      if depth > MAX_DEPTH { return Str(MAX_DEPTH_MARKER); }
      var ok := Consume();
      if !ok { return Str(NODE_LIMIT_MARKER); }
      if !v.Ref? { return Leaf(v); }
      if v.id in active { return Str(CIRCULAR_MARKER); }
      ghost var before := active;
      active := active + {v.id};
      if context.heap[v.id].Mapping? {
        r := SanitizeMapping(context.heap[v.id], depth);
      } else {
        r := SanitizeSequence(context.heap[v.id], depth);
      }
      active := active - {v.id};
      assert active == before;
    }

    method SanitizeMapping(n: Node, depth: nat) returns (r: Json)
      requires n.Mapping? && depth <= MAX_DEPTH && NodeKnown(context.heap, n)
      modifies this
      ensures (r, remaining) == SanitizedNode(context, n, depth, old(active), old(remaining)) && active == old(active)
      decreases MAX_DEPTH + 1 - depth, 0, 1
    {
      var entries := n.entries;
      if |entries| > MAX_MAPPING_SCAN_ITEMS { return TooManyFields(n.reported); }
      if n.broken { return Str(UNPRINTABLE_MARKER); }
      var grouped := Group(entries);
      var keys := FirstKeys(entries);
      var fields: seq<Field> := [];
      var i := 0;
      ghost var budget := remaining;
      while i < |keys|
        invariant 0 <= i <= |keys| && active == old(active)
        invariant (fields, remaining) == SanitizedFields(context, entries, keys[..i], depth, active, budget)
      {
        hide *;
        assert keys[i] in grouped by { FirstKeysMatch(entries, keys[i]); }
        MatchesKnown(context.heap, entries, keys[i]);
        ghost var left := remaining;
        var value := SanitizeField(grouped[keys[i]], depth);
        NextField(context, entries, keys, i, depth, active, budget, fields, left);
        fields := fields + [Field(keys[i], value)];
        i := i + 1;
      }
      assert keys[..i] == keys;
      r := Dict(WithTruncated(fields, TruncatedFields(|entries|, n.reported)));
    }

    /** The value for the entries of one output key. */
    method SanitizeField(matches: seq<Entry>, depth: nat) returns (r: Json)
      requires depth <= MAX_DEPTH && EntriesKnown(context.heap, matches)
      modifies this
      ensures active == old(active)
      ensures (r, remaining) == SanitizedField(context, matches, depth, active, old(remaining))
      decreases MAX_DEPTH + 1 - depth, 0, 0
    {
      if |matches| != 1 { return Marker("_trace_key_collision", Int(|matches|)); }
      if IsSecret(context.secret, matches[0].key) { return Str(REDACTED); }
      if matches[0].value.None? { return Str(UNREADABLE_MARKER); }
      r := Sanitize(matches[0].value.value, depth + 1);
    }

    /** `grouped`: the entries by output key. */
    static method Group(entries: seq<Entry>) returns (grouped: map<Text, seq<Entry>>)
      ensures forall k :: k in grouped <==> Matches(entries, k) != []
      ensures forall k :: k in grouped ==> grouped[k] == Matches(entries, k)
    {
      hide OutputKey, Matches;
      grouped := map[];
      var i := 0;
      NothingMatches(entries);
      while i < |entries|
        invariant 0 <= i <= |entries|
        invariant forall k :: k in grouped <==> Matches(entries[..i], k) != []
        invariant forall k :: k in grouped ==> grouped[k] == Matches(entries[..i], k)
      {
        MatchesStep(entries, i);
        var key := OutputKey(entries[i].key);
        grouped := grouped[key := (if key in grouped then grouped[key] else []) + [entries[i]]];
        i := i + 1;
      }
      assert entries[..i] == entries;
    }

    method SanitizeSequence(n: Node, depth: nat) returns (r: Json)
      requires n.Sequence? && depth <= MAX_DEPTH && NodeKnown(context.heap, n)
      modifies this
      ensures (r, remaining) == SanitizedNode(context, n, depth, old(active), old(remaining)) && active == old(active)
      decreases MAX_DEPTH + 1 - depth, 0, 1
    {
      SequenceItems(context.heap, n);
      SequenceIs(context, n, depth, active, remaining);
      hide *;
      if n.length.None? { return Str(UNPRINTABLE_MARKER); }
      var out := SanitizeItems(n.items, Min(n.length.value, MAX_ARRAY_ITEMS), depth);
      if n.length.value > MAX_ARRAY_ITEMS {
        out := out + [Marker("_trace_truncated_items", Int(n.length.value - MAX_ARRAY_ITEMS))];
      }
      r := List(out);
    }

    /** The first items, up to one that cannot be read. */
    method SanitizeItems(items: seq<Option<Value>>, count: nat, depth: nat) returns (out: seq<Json>)
      requires depth <= MAX_DEPTH && NodeKnown(context.heap, Sequence(None, items))
      modifies this
      ensures active == old(active)
      ensures (out, remaining) == SanitizedItems(context, items, count, depth, active, old(remaining))
      decreases MAX_DEPTH + 1 - depth, 0, 0
    {
      out := [];
      var i := 0;
      var stopped := false;
      hide Stopped, Sanitized, NodeKnown;
      NothingStopped(items);
      while i < count && !stopped
        invariant 0 <= i <= count && active == old(active)
        invariant stopped == Stopped(items, i)
        invariant (out, remaining) == SanitizedItems(context, items, i, depth, active, old(remaining))
      {
        NextStopped(context, items, i, depth, active, old(remaining));
        hide SanitizedItems;
        if Item(items, i).None? {
          out := out + [Str(UNREADABLE_MARKER)];
          stopped := true;
        } else {
          ItemOfNode(context.heap, items, i);
          var value := Sanitize(Item(items, i).value, depth + 1);
          out := out + [value];
        }
        i := i + 1;
      }
      if stopped { StoppedItems(context, items, i, count, depth, active, old(remaining)); }
    }
  }

  lemma SequenceIs(c: Context, n: Node, depth: nat, active: set<nat>, budget: nat)
    requires n.Sequence? && depth <= MAX_DEPTH && NodeKnown(c.heap, n) && NodeKnown(c.heap, Sequence(None, n.items))
    ensures SanitizedNode(c, n, depth, active, budget) ==
      if n.length.None? then (Str(UNPRINTABLE_MARKER), budget)
      else
        var length := n.length.value;
        var (out, left) := SanitizedItems(c, n.items, Min(length, MAX_ARRAY_ITEMS), depth, active, budget);
        (List(if length > MAX_ARRAY_ITEMS then out + [Marker("_trace_truncated_items", Int(length - MAX_ARRAY_ITEMS))] else out), left)
  {
    hide SanitizedItems, SanitizedFields, FirstKeys, WithTruncated, TruncatedFields, TooManyFields, Marker;
  }

  lemma SequenceItems(h: map<nat, Node>, n: Node)
    requires n.Sequence? && NodeKnown(h, n)
    ensures NodeKnown(h, Sequence(None, n.items))
  {
  }

  lemma NothingStopped(items: seq<Option<Value>>)
    ensures !Stopped(items, 0)
  {
  }

  lemma ItemOfNode(h: map<nat, Node>, items: seq<Option<Value>>, i: nat)
    requires NodeKnown(h, Sequence(None, items)) && Item(items, i).Some?
    ensures Known(h, Item(items, i).value)
  {
  }

  /** What one more item adds, if all before it could be read. */
  lemma NextStopped(c: Context, items: seq<Option<Value>>, i: nat, depth: nat, active: set<nat>, budget: nat)
    requires depth <= MAX_DEPTH && NodeKnown(c.heap, Sequence(None, items)) && !Stopped(items, i)
    ensures Stopped(items, i + 1) == Item(items, i).None?
    ensures var (out, left) := SanitizedItems(c, items, i, depth, active, budget);
      SanitizedItems(c, items, i + 1, depth, active, budget) ==
      if Item(items, i).None? then (out + [Str(UNREADABLE_MARKER)], left)
      else
        var (value, rest) := Sanitized(c, Item(items, i).value, depth + 1, active, left);
        (out + [value], rest)
  {
    hide Sanitized;
  }

  /** Nothing is added after the item that cannot be read. */
  lemma {:induction false} StoppedItems(c: Context, items: seq<Option<Value>>, i: nat, n: nat, depth: nat, active: set<nat>, budget: nat)
    requires i <= n && depth <= MAX_DEPTH && NodeKnown(c.heap, Sequence(None, items)) && Stopped(items, i)
    ensures SanitizedItems(c, items, n, depth, active, budget) == SanitizedItems(c, items, i, depth, active, budget)
    decreases n
  {
    if i < n {
      StoppedItems(c, items, i, n - 1, depth, active, budget);
      assert Stopped(items, n - 1);
    }
  }
}
