// What the sanitizer guarantees about single strings, and that what is stored
// under secret keys has no influence on its output.
module TracePayloadTheorems {
  import opened Utf8
  import opened TracePayloads
  import opened Wrappers

  // ---------------------------------------------------------------- strings

  predicate TextFits(s: Text) { |Encode(s)| <= MAX_STRING_BYTES && WellFormed(s) }

  lemma MarkerAscii()
    ensures |TRUNCATION_MARKER| == 14 && |Encode(TRUNCATION_MARKER)| == 14 && WellFormed(TRUNCATION_MARKER)
  {
    AsciiFits("...[TRUNCATED]");
  }

  lemma AsciiFits(s: string)
    requires forall i :: 0 <= i < |s| ==> s[i] < 128 as char
    ensures |Encode(Ascii(s))| == |s| && WellFormed(Ascii(s))
  {
    EncodeAscii(Ascii(s));
  }

  /** A string of up to 4096 bytes passes, its surrogates replaced. */
  lemma ShortPasses(s: Text)
    requires |Encode(s)| <= MAX_STRING_BYTES
    ensures Bounded(s) == Replaced(s)
  {
    assert s[..|s|] == s;
    DecodeEncode(s);
  }

  /** A longer one keeps the most characters that leave room for the marker. */
  lemma LongIsCut(s: Text)
    requires |Encode(s)| > MAX_STRING_BYTES
    ensures var k := Whole(s, MAX_STRING_BYTES - 14);
      && Bounded(s) == Replaced(s[..k]) + TRUNCATION_MARKER
      && |Encode(s[..k])| <= MAX_STRING_BYTES - 14 && k < |s| && |Encode(s[..k + 1])| > MAX_STRING_BYTES - 14
  {
    hide Encode, Decode, Whole, Replaced;
    MarkerAscii();
    var n := Min(|s|, MAX_STRING_BYTES + 1);
    LongPrefix(s, n);
    DecodeCut(s[..n], MAX_STRING_BYTES - 14);
    WholePrefix(s, n, MAX_STRING_BYTES - 14);
    WholeIsMost(s, MAX_STRING_BYTES - 14);
    WholeShort(s, MAX_STRING_BYTES - 14);
    assert s[..n][..Whole(s, MAX_STRING_BYTES - 14)] == s[..Whole(s, MAX_STRING_BYTES - 14)];
  }

  lemma LongPrefix(s: Text, n: nat)
    requires |Encode(s)| > MAX_STRING_BYTES && n == Min(|s|, MAX_STRING_BYTES + 1)
    ensures |Encode(s[..n])| > MAX_STRING_BYTES
  {
    if n == |s| { assert s[..n] == s; }
  }

  lemma {:induction false} WholePrefix(s: Text, m: nat, n: nat)
    requires m <= |s| && |Encode(s[..m])| > n
    ensures Whole(s[..m], n) == Whole(s, n)
  {
    if m > 0 && n >= |EncodeChar(s[0])| {
      assert s[..m][1..] == s[1..][..m - 1];
      WholePrefix(s[1..], m - 1, n - |EncodeChar(s[0])|);
    }
  }

  lemma {:induction false} WholeShort(s: Text, n: nat)
    requires |Encode(s)| > n
    ensures Whole(s, n) < |s|
  {
    if n >= |EncodeChar(s[0])| { WholeShort(s[1..], n - |EncodeChar(s[0])|); }
  }

  /** Every bounded string has at most 4096 bytes and can be encoded. */
  lemma BoundedFits(s: Text)
    ensures TextFits(Bounded(s))
  {
    hide Encode, Bounded, Whole;
    if |Encode(s)| <= MAX_STRING_BYTES {
      ShortPasses(s);
      EncodeReplaced(s);
    } else {
      LongIsCut(s);
      MarkerAscii();
      var cut := s[..Whole(s, MAX_STRING_BYTES - 14)];
      EncodeReplaced(cut);
      EncodeAppend(Replaced(cut), TRUNCATION_MARKER);
    }
  }

  // ---------------------------------------------------------------- noninterference

  /** The same leaf, or containers that correspond. */
  ghost predicate SameValue(ren: map<nat, nat>, v: Value, w: Value) {
    if v.Ref? then w.Ref? && v.id in ren && ren[v.id] == w.id else v == w
  }

  ghost predicate SameRead(ren: map<nat, nat>, a: Option<Value>, b: Option<Value>) {
    a.Some? == b.Some? && (a.Some? ==> SameValue(ren, a.value, b.value))
  }

  /** Entries that differ at most in what is stored under a secret key. */
  ghost predicate SameEntries(secret: Text -> bool, ren: map<nat, nat>, es: seq<Entry>, fs: seq<Entry>) {
    && |es| == |fs|
    && forall i :: 0 <= i < |es| ==>
      es[i].key == fs[i].key && ((es[i].key.Word? && secret(es[i].key.s)) || SameRead(ren, es[i].value, fs[i].value))
  }

  ghost predicate SameItems(ren: map<nat, nat>, a: seq<Option<Value>>, b: seq<Option<Value>>) {
    |a| == |b| && forall i :: 0 <= i < |a| ==> SameRead(ren, a[i], b[i])
  }

  ghost predicate SameNode(secret: Text -> bool, ren: map<nat, nat>, m: Node, n: Node) {
    match (m, n)
    case (Mapping(es, b1, r1), Mapping(fs, b2, r2)) => b1 == b2 && r1 == r2 && SameEntries(secret, ren, es, fs)
    case (Sequence(l1, a), Sequence(l2, b)) => l1 == l2 && SameItems(ren, a, b)
    case _ => false
  }

  /** Corresponding containers of two object graphs differ at most in what is stored under secret keys. */
  ghost predicate Agree(secret: Text -> bool, h: Heap, k: Heap, ren: map<nat, nat>) {
    && (forall a, b :: a in ren && b in ren && ren[a] == ren[b] ==> a == b)
    && (forall a :: a in ren ==> a in h && ren[a] in k && SameNode(secret, ren, h[a], k[ren[a]]))
  }

  function Image(ren: map<nat, nat>, ids: set<nat>): set<nat> { set a | a in ids && a in ren :: ren[a] }

  lemma {:induction false} MatchesSame(secret: Text -> bool, ren: map<nat, nat>, es: seq<Entry>, fs: seq<Entry>, key: Text)
    requires SameEntries(secret, ren, es, fs)
    ensures SameEntries(secret, ren, Matches(es, key), Matches(fs, key))
    decreases es
  {
    hide OutputKey, IsSecret, SameRead;
    if es != [] { MatchesSame(secret, ren, es[..|es| - 1], fs[..|fs| - 1], key); }
  }

  lemma {:induction false} KeysSame(secret: Text -> bool, ren: map<nat, nat>, es: seq<Entry>, fs: seq<Entry>)
    requires SameEntries(secret, ren, es, fs)
    ensures SortedKeys(es) == SortedKeys(fs)
    decreases es
  {
    hide OutputKey, IsSecret, SameRead, Insert;
    if es != [] { KeysSame(secret, ren, es[..|es| - 1], fs[..|fs| - 1]); }
  }

  lemma ImageAdds(secret: Text -> bool, h: Heap, k: Heap, ren: map<nat, nat>, active: set<nat>, id: nat)
    requires Agree(secret, h, k, ren) && id in ren && active <= ren.Keys
    ensures Image(ren, active + {id}) == Image(ren, active) + {ren[id]}
    ensures id in active <==> ren[id] in Image(ren, active)
  {
    hide SameNode;
  }

  lemma Corresponding(secret: Text -> bool, h: Heap, k: Heap, ren: map<nat, nat>, id: nat)
    requires Agree(secret, h, k, ren) && id in ren
    ensures id in h && ren[id] in k && SameNode(secret, ren, h[id], k[ren[id]]) && NodeKnown(h, h[id]) && NodeKnown(k, k[ren[id]])
  {
    hide SameNode, NodeKnown;
  }

  /** Sanitizing sees no difference between corresponding values. */
  lemma SameOutput(c: Context, d: Context, ren: map<nat, nat>, v: Value, w: Value, depth: nat, active: set<nat>, budget: nat)
    requires c.secret == d.secret && Agree(c.secret, c.heap, d.heap, ren)
    requires Known(c.heap, v) && Known(d.heap, w) && SameValue(ren, v, w) && active <= ren.Keys && depth <= MAX_DEPTH + 1
    ensures Sanitized(c, v, depth, active, budget) == Sanitized(d, w, depth, Image(ren, active), budget)
    decreases MAX_DEPTH + 1 - depth, 3, 0
  {
    hide Agree, Image, NodeKnown, SanitizedNode, SameNode, Leaf;
    if v.Ref? && depth <= MAX_DEPTH && budget > 0 {
      ImageAdds(c.secret, c.heap, d.heap, ren, active, v.id);
      Corresponding(c.secret, c.heap, d.heap, ren, v.id);
      if v.id !in active { SameNodeOutput(c, d, ren, c.heap[v.id], d.heap[w.id], depth, active + {v.id}, budget - 1); }
    }
  }

  lemma SameNodeOutput(c: Context, d: Context, ren: map<nat, nat>, m: Node, n: Node, depth: nat, active: set<nat>, budget: nat)
    requires c.secret == d.secret && Agree(c.secret, c.heap, d.heap, ren)
    requires NodeKnown(c.heap, m) && NodeKnown(d.heap, n) && SameNode(c.secret, ren, m, n) && active <= ren.Keys && depth <= MAX_DEPTH
    ensures SanitizedNode(c, m, depth, active, budget) == SanitizedNode(d, n, depth, Image(ren, active), budget)
    decreases MAX_DEPTH + 1 - depth, 2, 0
  {
    hide Agree, Image, SameEntries, SameItems, SanitizedFields, SanitizedItems, FirstKeys, WithTruncated, TruncatedFields, TooManyFields;
    if m.Mapping? {
      KeysSame(c.secret, ren, m.entries, n.entries);
      assert FirstKeys(m.entries) == FirstKeys(n.entries) by { FirstKeysSame(m.entries, n.entries); }
      assert |m.entries| == |n.entries| by { EntriesAlike(c.secret, ren, m.entries, n.entries); }
      SameFields(c, d, ren, m.entries, n.entries, FirstKeys(m.entries), depth, active, budget);
    } else if m.length.Some? {
      SameSequence(c, d, ren, m.items, n.items, Min(m.length.value, MAX_ARRAY_ITEMS), depth, active, budget);
    }
  }

  lemma FirstKeysSame(es: seq<Entry>, fs: seq<Entry>)
    requires SortedKeys(es) == SortedKeys(fs)
    ensures FirstKeys(es) == FirstKeys(fs)
  {
  }

  lemma EntriesAlike(secret: Text -> bool, ren: map<nat, nat>, es: seq<Entry>, fs: seq<Entry>)
    requires SameEntries(secret, ren, es, fs)
    ensures |es| == |fs|
  {
  }

  lemma SameFields(c: Context, d: Context, ren: map<nat, nat>, es: seq<Entry>, fs: seq<Entry>, keys: seq<Text>, depth: nat,
                   active: set<nat>, budget: nat)
    requires c.secret == d.secret && Agree(c.secret, c.heap, d.heap, ren) && active <= ren.Keys && depth <= MAX_DEPTH
    requires EntriesKnown(c.heap, es) && EntriesKnown(d.heap, fs) && SameEntries(c.secret, ren, es, fs)
    ensures SanitizedFields(c, es, keys, depth, active, budget) == SanitizedFields(d, fs, keys, depth, Image(ren, active), budget)
    decreases MAX_DEPTH + 1 - depth, 1, |keys|
  {
    hide Agree, Image, SameEntries, SanitizedField, EntriesKnown, Matches;
    if keys != [] {
      var key := keys[|keys| - 1];
      SameFields(c, d, ren, es, fs, keys[..|keys| - 1], depth, active, budget);
      MatchesSame(c.secret, ren, es, fs, key);
      MatchesKnown(c.heap, es, key);
      MatchesKnown(d.heap, fs, key);
      var left := SanitizedFields(c, es, keys[..|keys| - 1], depth, active, budget).1;
      SameField(c, d, ren, Matches(es, key), Matches(fs, key), depth, active, left);
    }
  }

  lemma SameField(c: Context, d: Context, ren: map<nat, nat>, ms: seq<Entry>, ns: seq<Entry>, depth: nat, active: set<nat>, budget: nat)
    requires c.secret == d.secret && Agree(c.secret, c.heap, d.heap, ren) && active <= ren.Keys && depth <= MAX_DEPTH
    requires EntriesKnown(c.heap, ms) && EntriesKnown(d.heap, ns) && SameEntries(c.secret, ren, ms, ns)
    ensures SanitizedField(c, ms, depth, active, budget) == SanitizedField(d, ns, depth, Image(ren, active), budget)
    decreases MAX_DEPTH + 1 - depth, 0, 0
  {
    hide Agree, Image, Sanitized;
    if |ms| == 1 && !IsSecret(c.secret, ms[0].key) && ms[0].value.Some? {
      SameOutput(c, d, ren, ms[0].value.value, ns[0].value.value, depth + 1, active, budget);
    }
  }

  lemma SameSequence(c: Context, d: Context, ren: map<nat, nat>, a: seq<Option<Value>>, b: seq<Option<Value>>, n: nat, depth: nat,
                     active: set<nat>, budget: nat)
    requires c.secret == d.secret && Agree(c.secret, c.heap, d.heap, ren) && active <= ren.Keys && depth <= MAX_DEPTH
    requires NodeKnown(c.heap, Sequence(None, a)) && NodeKnown(d.heap, Sequence(None, b)) && SameItems(ren, a, b)
    ensures SanitizedItems(c, a, n, depth, active, budget) == SanitizedItems(d, b, n, depth, Image(ren, active), budget)
    decreases MAX_DEPTH + 1 - depth, 1, n
  {
    hide Agree, Image, Sanitized;
    if n > 0 {
      SameSequence(c, d, ren, a, b, n - 1, depth, active, budget);
      assert forall i :: 0 <= i < n ==> Item(a, i).None? == Item(b, i).None?;
      if Item(a, n - 1).Some? {
        var left := SanitizedItems(c, a, n - 1, depth, active, budget).1;
        SameOutput(c, d, ren, Item(a, n - 1).value, Item(b, n - 1).value, depth + 1, active, left);
      }
    }
  }

  /** Two object graphs, cyclic or not, that differ only in what is stored under secret keys sanitize to the same output. */
  lemma SecretsHaveNoInfluence(c: Context, d: Context, ren: map<nat, nat>, v: Value, w: Value)
    requires c.secret == d.secret && Agree(c.secret, c.heap, d.heap, ren)
    requires Known(c.heap, v) && Known(d.heap, w) && SameValue(ren, v, w)
    ensures SanitizedPayload(c, v) == SanitizedPayload(d, w)
  {
    SameOutput(c, d, ren, v, w, 0, {}, MAX_TRAVERSAL_NODES);
    assert Image(ren, {}) == {};
  }
}
