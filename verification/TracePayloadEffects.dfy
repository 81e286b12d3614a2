// What the sanitizer makes of each kind of value, key by key and item by item.
module TracePayloadEffects {
  import opened Picking
  import opened TracePayloads
  import opened Utf8
  import opened Wrappers

  // ---------------------------------------------------------------- leaves

  /** The number that decimal digits stand for. */
  function ValueOf(digits: Text): int
    requires forall i :: 0 <= i < |digits| ==> 48 <= digits[i] <= 57
  {
    if digits == [] then 0 else ValueOf(digits[..|digits| - 1]) * 10 + (digits[|digits| - 1] - 48)
  }

  /** Numbers are printed in decimal, without leading zeros. */
  lemma {:induction false} DigitsAre(n: nat)
    ensures ValueOf(Digits(n)) == n && Digits(n) != [] && (n > 0 ==> Digits(n)[0] != 48)
  {
    if n >= 10 {
      DigitsAre(n / 10);
      assert Digits(n)[..|Digits(n)| - 1] == Digits(n / 10);
    } else {
      assert Digits(n)[..0] == [];
    }
  }

  function TwoTo(n: nat): nat { if n == 0 then 1 else 2 * TwoTo(n - 1) }

  /** A number has the bits that its binary form needs. */
  lemma {:induction false} BitLengthIs(n: nat)
    requires n > 0
    ensures BitLength(n) > 0 && TwoTo(BitLength(n) - 1) <= n < TwoTo(BitLength(n))
  {
    if n > 1 { BitLengthIs(n / 2); } else { assert BitLength(1) == 1 + BitLength(0); }
  }

  /** Numbers that are not finite become null; integers of more than 4096 bits and binary data become a summary. */
  lemma LeafIs(v: Value)
    requires !v.Ref?
    ensures match v
      case Nothing => Leaf(v) == Null
      case Flag(flag) => Leaf(v) == Bool(flag)
      case Integer(n) =>
        var bits := BitLength(if n < 0 then -n else n);
        Leaf(v) == if bits <= 4096 then Int(n) else Str(Ascii("[INTEGER_TOO_LARGE:") + Digits(bits) + Ascii("_BITS]"))
      case Real(printed, finite) => Leaf(v) == if finite then Float(printed) else Null
      case Chars(s) => Leaf(v) == Str(Bounded(s))
      case Binary(kind, None) => Leaf(v) == Str(Ascii("[UNREADABLE]"))
      case Binary(kind, Some(count)) =>
        Leaf(v) == Str((match kind
                        case Bytes => Ascii("[BINARY:") + Ascii("bytes")
                        case ByteArray => Ascii("[BINARY:") + Ascii("bytearray")
                        case MemoryView => Ascii("[BINARY:") + Ascii("memoryview")) + Ascii(":") + Digits(count) + Ascii("_BYTES]"))
      case Foreign(None) => Leaf(v) == Str(Ascii("[UNPRINTABLE]"))
      case Foreign(Some(rendered)) => Leaf(v) == Str(Bounded(rendered))
  {
    hide Digits, Bounded, BitLength;
  }

  /** Values below level 8, beyond the budget of 512 or on the path above them are cut off. */
  lemma CutOff(c: Context, v: Value, depth: nat, active: set<nat>, budget: nat)
    requires depth <= MAX_DEPTH + 1 && Known(c.heap, v)
    ensures MAX_DEPTH == 8 && MAX_TRAVERSAL_NODES == 512
    ensures Sanitized(c, v, depth, active, budget) ==
      if depth > 8 then (Str(Ascii("[MAX_DEPTH]")), budget)
      else if budget == 0 then (Str(Ascii("[NODE_LIMIT]")), budget)
      else if !v.Ref? then (Leaf(v), budget - 1)
      else if v.id in active then (Str(Ascii("[CIRCULAR]")), budget - 1)
      else SanitizedNode(c, c.heap[v.id], depth, active + {v.id}, budget - 1)
  {
    hide SanitizedNode, Leaf;
  }

  // ---------------------------------------------------------------- mappings

  /** The key under which an entry is put out. */
  function NameOf(e: Entry): Text { Bounded(if e.key.Word? then e.key.s else e.key.described) }

  ghost predicate Named(entries: seq<Entry>, key: Text, at: seq<nat>) { Picks(at, entries, (e: Entry) => NameOf(e) == key) }

  /**
   * One field of the output: the entries that share its key are counted, a secret is redacted, and what cannot be read is
   * marked; everything else is sanitized one level deeper, with the budget that is left.
   */
  ghost predicate FieldIs(c: Context, entries: seq<Entry>, at: seq<nat>, depth: nat, active: set<nat>, left: nat, f: Field, rest: nat)
    requires depth <= MAX_DEPTH && EntriesKnown(c.heap, entries) && Named(entries, f.key, at)
  {
    if |at| != 1 then (f.value, rest) == (Dict([Field(Ascii("_trace_key_collision"), Int(|at|))]), left)
    else
      var e := entries[at[0]];
      if e.key.Word? && c.secret(e.key.s) then (f.value, rest) == (Str(Ascii("[REDACTED]")), left)
      else if e.value.None? then (f.value, rest) == (Str(Ascii("[UNREADABLE]")), left)
      else (f.value, rest) == Sanitized(c, e.value.value, depth + 1, active, left)
  }

  lemma {:induction false} MatchesLeave(entries: seq<Entry>, key: Text, keep: Entry -> bool) returns (at: seq<nat>)
    requires forall e :: keep(e) <==> NameOf(e) == key
    ensures Leaves(Matches(entries, key), entries, keep, at)
  {
    hide Leaves, OutputKey;
    if entries == [] {
      LeavesNothing(keep);
      at := [];
    } else {
      var n := |entries| - 1;
      var before := MatchesLeave(entries[..n], key, keep);
      assert keep(entries[n]) <==> OutputKey(entries[n].key) == key by { NameIs(entries[n]); }
      at := before + if keep(entries[n]) then [n] else [];
      LeavesLast(Matches(entries[..n], key), entries, keep, before);
    }
  }

  lemma NameIs(e: Entry)
    ensures NameOf(e) == OutputKey(e.key)
  {
    hide Bounded;
  }

  lemma MatchesNamed(entries: seq<Entry>, key: Text) returns (at: seq<nat>)
    ensures Named(entries, key, at) && |Matches(entries, key)| == |at|
    ensures forall k :: 0 <= k < |at| ==> Matches(entries, key)[k] == entries[at[k]]
  {
    at := MatchesLeave(entries, key, (e: Entry) => NameOf(e) == key);
    hide Matches, NameOf, Picks;
  }

  lemma FieldSays(c: Context, entries: seq<Entry>, depth: nat, active: set<nat>, left: nat, f: Field, rest: nat) returns (at: seq<nat>)
    requires depth <= MAX_DEPTH && EntriesKnown(c.heap, entries) && EntriesKnown(c.heap, Matches(entries, f.key))
    requires (f.value, rest) == SanitizedField(c, Matches(entries, f.key), depth, active, left)
    ensures Named(entries, f.key, at) && FieldIs(c, entries, at, depth, active, left, f, rest)
  {
    at := MatchesNamed(entries, f.key);
    hide Matches, Sanitized, Named;
  }

  /** The fields of a mapping, each with the budget that the fields before it have left. */
  ghost predicate FieldsAre(c: Context, entries: seq<Entry>, depth: nat, active: set<nat>, lefts: seq<nat>, fields: seq<Field>)
    requires depth <= MAX_DEPTH && EntriesKnown(c.heap, entries) && |lefts| == |fields| + 1
  {
    forall k :: 0 <= k < |fields| ==> SomeFieldIs(c, entries, depth, active, lefts[k], fields[k], lefts[k + 1])
  }

  ghost predicate SomeFieldIs(c: Context, entries: seq<Entry>, depth: nat, active: set<nat>, left: nat, f: Field, rest: nat)
    requires depth <= MAX_DEPTH && EntriesKnown(c.heap, entries)
  {
    exists at :: Named(entries, f.key, at) && FieldIs(c, entries, at, depth, active, left, f, rest)
  }

  lemma FieldsMore(c: Context, entries: seq<Entry>, depth: nat, active: set<nat>, lefts: seq<nat>, fields: seq<Field>, f: Field, rest: nat)
    requires depth <= MAX_DEPTH && EntriesKnown(c.heap, entries) && |lefts| == |fields| + 1
    requires FieldsAre(c, entries, depth, active, lefts, fields) && SomeFieldIs(c, entries, depth, active, lefts[|fields|], f, rest)
    ensures FieldsAre(c, entries, depth, active, lefts + [rest], fields + [f])
  {
    hide SomeFieldIs, EntriesKnown;
  }

  lemma {:induction false} FieldsSay(c: Context, entries: seq<Entry>, keys: seq<Text>, depth: nat, active: set<nat>, budget: nat)
      returns (lefts: seq<nat>)
    requires depth <= MAX_DEPTH && EntriesKnown(c.heap, entries)
    ensures var (fields, left) := SanitizedFields(c, entries, keys, depth, active, budget);
      && |lefts| == |fields| + 1 && lefts[0] == budget && lefts[|fields|] == left
      && (forall k :: 0 <= k < |keys| ==> fields[k].key == keys[k])
      && FieldsAre(c, entries, depth, active, lefts, fields)
    decreases |keys|
  {
    if keys == [] {
      lefts := [budget];
      assert FieldsAre(c, entries, depth, active, lefts, []);
    } else {
      hide Matches, SanitizedField, FieldIs, Named, FieldsAre;
      var n := |keys| - 1;
      var (fields, left) := SanitizedFields(c, entries, keys[..n], depth, active, budget);
      var before := FieldsSay(c, entries, keys[..n], depth, active, budget);
      MatchesKnown(c.heap, entries, keys[n]);
      var (value, rest) := SanitizedField(c, Matches(entries, keys[n]), depth, active, left);
      var at := FieldSays(c, entries, depth, active, left, Field(keys[n], value), rest);
      lefts := before + [rest];
      FieldsMore(c, entries, depth, active, before, fields, Field(keys[n], value), rest);
      assert SanitizedFields(c, entries, keys, depth, active, budget) == (fields + [Field(keys[n], value)], rest);
    }
  }

  /** The keys that are put out: in ascending order, at most 50, and no key left out comes before one of them. */
  ghost predicate KeysAre(entries: seq<Entry>, keys: seq<Text>) {
    && |keys| <= 50
    && (forall i, j :: 0 <= i < j < |keys| ==> Less(keys[i], keys[j]))
    && (forall k :: k in keys ==> exists e :: e in entries && NameOf(e) == k)
    && forall e :: e in entries ==> NameOf(e) in keys || (|keys| == 50 && forall k :: k in keys ==> Less(k, NameOf(e)))
  }

  lemma SortedHas(entries: seq<Entry>, key: Text)
    ensures key in SortedKeys(entries) <==> exists e :: e in entries && NameOf(e) == key
  {
    SortedKeysAre(entries);
    var at := MatchesNamed(entries, key);
    hide Matches, NameOf, SortedKeys;
    if e :| e in entries && NameOf(e) == key {
      var i: nat :| i < |entries| && entries[i] == e;
      assert i in at;
    }
    if at != [] { assert entries[at[0]] in entries && NameOf(entries[at[0]]) == key; }
  }

  /** A key beyond the first 50 comes after all of them. */
  lemma KeysLeft(all: seq<Text>, keys: seq<Text>, key: Text)
    requires StrictlySorted(all) && keys == all[..Min(|all|, 50)] && key in all && key !in keys
    ensures |keys| == 50 && forall k :: k in keys ==> Less(k, key)
  {
    hide Less;
    var j: nat :| j < |all| && all[j] == key;
    forall k | k in keys ensures Less(k, key) {
      var i: nat :| i < |keys| && keys[i] == k;
      assert all[i] == k;
    }
  }

  lemma FirstKeysAre(entries: seq<Entry>)
    ensures KeysAre(entries, FirstKeys(entries))
  {
    SortedKeysAre(entries);
    var all, keys := SortedKeys(entries), FirstKeys(entries);
    forall key ensures key in all <==> exists e :: e in entries && NameOf(e) == key { SortedHas(entries, key); }
    hide SortedKeys, NameOf, Less;
    assert forall k :: k in keys ==> k in all;
    assert forall i :: 0 <= i < |keys| ==> keys[i] == all[i];
    forall e | e in entries && NameOf(e) !in keys ensures |keys| == 50 && forall k :: k in keys ==> Less(k, NameOf(e)) {
      assert NameOf(e) in all;
      KeysLeft(all, keys, NameOf(e));
    }
  }

  /** How many fields beyond 50 there are, by what is read and what the mapping reports. */
  function Beyond(observed: nat, reported: Option<nat>): int {
    (if reported.Some? && reported.value > observed then reported.value else observed) - 50
  }

  lemma TruncatedIs(fields: seq<Field>, observed: nat, reported: Option<nat>)
    ensures WithTruncated(fields, TruncatedFields(observed, reported)) ==
      if Beyond(observed, reported) > 0 then Put(fields, Ascii("_trace_truncated_fields"), Int(Beyond(observed, reported))) else fields
  {
    hide Put;
  }

  lemma TooManyIs(reported: Option<nat>)
    ensures TooManyFields(reported) ==
      Dict([Field(Ascii("_trace_truncated"), Bool(true))]
           + if reported.Some? && reported.value > 64 then [Field(Ascii("original_fields"), Int(reported.value))] else [])
  {
  }

  /** A mapping of more than 64 entries is replaced, one whose iteration fails is marked, and the others become objects. */
  lemma MappingIs(c: Context, entries: seq<Entry>, broken: bool, reported: Option<Size>, depth: nat, active: set<nat>, budget: nat)
      returns (fields: seq<Field>, lefts: seq<nat>, keys: seq<Text>)
    requires depth <= MAX_DEPTH && EntriesKnown(c.heap, entries) && NodeKnown(c.heap, Mapping(entries, broken, reported))
    ensures var r := SanitizedNode(c, Mapping(entries, broken, reported), depth, active, budget);
      if |entries| > 64 then
        r == (Dict([Field(Ascii("_trace_truncated"), Bool(true))]
                   + if reported.Some? && reported.value > 64 then [Field(Ascii("original_fields"), Int(reported.value))] else []), budget)
      else if broken then r == (Str(Ascii("[UNPRINTABLE]")), budget)
      else
        && KeysAre(entries, keys) && |fields| == |keys| && (forall k :: 0 <= k < |keys| ==> fields[k].key == keys[k])
        && |lefts| == |fields| + 1 && lefts[0] == budget && FieldsAre(c, entries, depth, active, lefts, fields)
        && r.1 == lefts[|fields|]
        && r.0 == Dict(if Beyond(|entries|, reported) > 0
                       then Put(fields, Ascii("_trace_truncated_fields"), Int(Beyond(|entries|, reported))) else fields)
  {
    hide FirstKeys, SanitizedFields, KeysAre, FieldsAre, WithTruncated, TruncatedFields, Put, NodeKnown;
    keys := FirstKeys(entries);
    TooManyIs(reported);
    FirstKeysAre(entries);
    lefts := FieldsSay(c, entries, keys, depth, active, budget);
    fields := SanitizedFields(c, entries, keys, depth, active, budget).0;
    TruncatedIs(fields, |entries|, reported);
  }

  /** A field is replaced where its key stands first, or added at the end. */
  lemma {:induction false} PutIs(fields: seq<Field>, key: Text, value: Json) returns (i: nat)
    ensures i <= |fields| && forall j :: 0 <= j < i ==> fields[j].key != key
    ensures i < |fields| ==> fields[i].key == key
    ensures Put(fields, key, value) == if i < |fields| then fields[i := Field(key, value)] else fields + [Field(key, value)]
  {
    if fields == [] || fields[0].key == key {
      i := 0;
    } else {
      var k := PutIs(fields[1..], key, value);
      i := k + 1;
      assert forall j :: 0 < j < i ==> fields[j] == fields[1..][j - 1];
    }
  }

  // ---------------------------------------------------------------- sequences

  /** How many items are put out: up to the first that cannot be read, at most 50. */
  ghost predicate Shown(items: seq<Option<Value>>, length: nat, n: nat) {
    && n <= length && n <= 50
    && (forall i :: 0 <= i < n - 1 ==> i < |items| && items[i].Some?)
    && (n < length && n < 50 ==> n > 0 && (n - 1 < |items| ==> items[n - 1].None?))
  }

  /** The items in order, each one level deeper and with the budget that the items before it have left. */
  ghost predicate ItemsAre(c: Context, items: seq<Option<Value>>, depth: nat, active: set<nat>, lefts: seq<nat>, out: seq<Json>)
    requires depth <= MAX_DEPTH && NodeKnown(c.heap, Sequence(None, items)) && |lefts| == |out| + 1
  {
    forall i :: 0 <= i < |out| ==>
      if i < |items| && items[i].Some? then (out[i], lefts[i + 1]) == Sanitized(c, items[i].value, depth + 1, active, lefts[i])
      else (out[i], lefts[i + 1]) == (Str(Ascii("[UNREADABLE]")), lefts[i])
  }

  /** One item more. */
  lemma ItemsMore(c: Context, items: seq<Option<Value>>, depth: nat, active: set<nat>, lefts: seq<nat>, out: seq<Json>, j: Json, rest: nat)
    requires depth <= MAX_DEPTH && NodeKnown(c.heap, Sequence(None, items)) && |lefts| == |out| + 1
    requires ItemsAre(c, items, depth, active, lefts, out)
    requires match Item(items, |out|)
      case None => (j, rest) == (Str(Ascii("[UNREADABLE]")), lefts[|out|])
      case Some(v) => (j, rest) == Sanitized(c, v, depth + 1, active, lefts[|out|])
    ensures ItemsAre(c, items, depth, active, lefts + [rest], out + [j])
  {
    hide Sanitized, NodeKnown;
  }

  lemma {:induction false} ItemsSay(c: Context, items: seq<Option<Value>>, n: nat, depth: nat, active: set<nat>, budget: nat)
      returns (lefts: seq<nat>)
    requires depth <= MAX_DEPTH && NodeKnown(c.heap, Sequence(None, items))
    ensures var (out, left) := SanitizedItems(c, items, n, depth, active, budget);
      && |lefts| == |out| + 1 && lefts[0] == budget && lefts[|out|] == left
      && (forall i :: 0 <= i < |out| - 1 ==> Item(items, i).Some?)
      && (if Stopped(items, n) then |out| > 0 && Item(items, |out| - 1).None? else |out| == n)
      && ItemsAre(c, items, depth, active, lefts, out)
    decreases n
  {
    if n == 0 {
      lefts := [budget];
      assert ItemsAre(c, items, depth, active, lefts, []);
    } else {
      hide Sanitized, NodeKnown, ItemsAre, Stopped;
      var (out, left) := SanitizedItems(c, items, n - 1, depth, active, budget);
      var before := ItemsSay(c, items, n - 1, depth, active, budget);
      StoppedMore(items, n);
      if Stopped(items, n - 1) {
        lefts := before;
      } else if Item(items, n - 1).None? {
        lefts := before + [left];
        ItemsMore(c, items, depth, active, before, out, Str(UNREADABLE_MARKER), left);
      } else {
        ItemKnown(c.heap, items, n - 1);
        var (value, rest) := Sanitized(c, Item(items, n - 1).value, depth + 1, active, left);
        lefts := before + [rest];
        ItemsMore(c, items, depth, active, before, out, value, rest);
      }
    }
  }

  lemma StoppedMore(items: seq<Option<Value>>, n: nat)
    requires n > 0
    ensures Stopped(items, n) <==> Stopped(items, n - 1) || Item(items, n - 1).None?
    ensures !Stopped(items, n - 1) ==> forall i :: 0 <= i < n - 1 ==> Item(items, i).Some?
  {
  }

  lemma ItemKnown(h: map<nat, Node>, items: seq<Option<Value>>, i: nat)
    requires NodeKnown(h, Sequence(None, items)) && Item(items, i).Some?
    ensures Known(h, Item(items, i).value)
  {
  }

  lemma ShownIs(items: seq<Option<Value>>, length: nat, out: seq<Json>)
    requires var n := Min(length, 50);
      && (forall i :: 0 <= i < |out| - 1 ==> Item(items, i).Some?)
      && (if Stopped(items, n) then 0 < |out| <= n && Item(items, |out| - 1).None? else |out| == n)
    ensures Shown(items, length, |out|)
  {
    forall i | 0 <= i < |out| - 1 ensures i < |items| && items[i].Some? { assert Item(items, i).Some?; }
  }

  /** A sequence that reports no length is marked; the others become lists, with the number of items beyond 50. */
  lemma SequenceIs(c: Context, length: Option<Size>, items: seq<Option<Value>>, depth: nat, active: set<nat>, budget: nat)
      returns (out: seq<Json>, lefts: seq<nat>)
    requires depth <= MAX_DEPTH && NodeKnown(c.heap, Sequence(None, items))
    ensures var r := SanitizedNode(c, Sequence(length, items), depth, active, budget);
      if length.None? then r == (Str(Ascii("[UNPRINTABLE]")), budget)
      else
        && Shown(items, length.value, |out|)
        && |lefts| == |out| + 1 && lefts[0] == budget && ItemsAre(c, items, depth, active, lefts, out) && r.1 == lefts[|out|]
        && r.0 == List(out + if length.value > 50
                             then [Dict([Field(Ascii("_trace_truncated_items"), Int(length.value - 50))])] else [])
  {
    hide SanitizedItems, ItemsAre, NodeKnown, Stopped, Shown;
    if length.Some? {
      var n := Min(length.value, 50);
      out := SanitizedItems(c, items, n, depth, active, budget).0;
      lefts := ItemsSay(c, items, n, depth, active, budget);
      ShownIs(items, length.value, out);
    } else {
      out, lefts := [], [];
    }
  }
}
