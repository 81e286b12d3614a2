// Trace documents: sanitized payloads made to fit a number of bytes of compact
// JSON by collapsing their largest fields first.
module TraceDocument {
  import opened Utf8
  import opened TracePayloads
  import opened TracePayloadTheorems
  import opened TracePayloadBounds
  import opened Wrappers

  // ---------------------------------------------------------------- the length of compact JSON

  /** What the JSON writer puts out for a character, without escaping what is not ASCII. */
  function CharBytes(c: Char): nat {
    if c == 0x22 || c == 0x5C || c == 8 || c == 9 || c == 10 || c == 12 || c == 13 then 2
    else if c < 0x20 then 6
    else |EncodeChar(c)|
  }

  function TextBytes(s: Text): nat { if s == [] then 2 else CharBytes(s[0]) + TextBytes(s[1..]) }

  /** `len(_compact_json_bytes(j))`. */
  function Compact(j: Json): nat
    decreases j, 0
  {
    match j
    case Null => 4
    case Bool(flag) => if flag then 4 else 5
    case Int(n) => (if n < 0 then 1 else 0) + |Digits(Magnitude(n))|
    case Float(printed) => |printed|
    case Str(s) => TextBytes(s)
    case List(items) => 2 + Commas(|items|) + CompactItems(items)
    case Dict(fields) => 2 + Commas(|fields|) + CompactFields(fields)
  }

  function Commas(n: nat): nat { if n == 0 then 0 else n - 1 }

  function CompactItems(items: seq<Json>): nat
    decreases items, 1
  {
    if items == [] then 0 else Compact(items[0]) + CompactItems(items[1..])
  }

  function CompactFields(fields: seq<Field>): nat
    decreases fields, 1
  {
    if fields == [] then 0 else TextBytes(fields[0].key) + 1 + Compact(fields[0].value) + CompactFields(fields[1..])
  }

  // ---------------------------------------------------------------- candidates

  /** Larger fields first, and by key among equals. */
  predicate Before(f: Field, g: Field) {
    Compact(f.value) > Compact(g.value) || (Compact(f.value) == Compact(g.value) && Less(f.key, g.key))
  }

  function InsertCandidate(f: Field, sorted: seq<Field>): seq<Field> {
    if sorted == [] then [f]
    else if Before(f, sorted[0]) then [f] + sorted
    else [sorted[0]] + InsertCandidate(f, sorted[1..])
  }

  function Candidates(fields: seq<Field>): seq<Field> {
    if fields == [] then [] else InsertCandidate(fields[0], Candidates(fields[1..]))
  }

  ghost predicate InOrder(fields: seq<Field>) { forall i, j :: 0 <= i < j < |fields| ==> Before(fields[i], fields[j]) }

  lemma BeforeTransitive(f: Field, g: Field, h: Field)
    requires Before(f, g) && Before(g, h)
    ensures Before(f, h)
  {
    hide Compact;
    if Compact(f.value) == Compact(g.value) == Compact(h.value) { LessTransitive(f.key, g.key, h.key); }
  }

  lemma BeforeTotal(f: Field, g: Field)
    requires f.key != g.key
    ensures Before(f, g) || Before(g, f)
  {
    hide Compact;
    LessTotal(f.key, g.key);
  }

  lemma {:induction false} InsertCandidateKeeps(f: Field, sorted: seq<Field>)
    requires InOrder(sorted) && forall g :: g in sorted ==> g.key != f.key
    ensures InOrder(InsertCandidate(f, sorted)) && multiset(InsertCandidate(f, sorted)) == multiset{f} + multiset(sorted)
  {
    hide Before;
    if sorted != [] {
      assert sorted == [sorted[0]] + sorted[1..];
      if Before(f, sorted[0]) {
        forall j | 0 <= j < |sorted| ensures Before(f, sorted[j]) {
          if j > 0 { BeforeTransitive(f, sorted[0], sorted[j]); }
        }
      } else {
        BeforeTotal(f, sorted[0]);
        InsertCandidateKeeps(f, sorted[1..]);
        var rest := InsertCandidate(f, sorted[1..]);
        forall j | 0 <= j < |rest| ensures Before(sorted[0], rest[j]) {
          assert rest[j] in multiset(rest);
        }
      }
    }
  }

  /** The candidates are the fields of the document, the larger ones first. */
  lemma {:induction false} CandidatesAre(fields: seq<Field>)
    requires DistinctKeys(fields)
    ensures InOrder(Candidates(fields)) && multiset(Candidates(fields)) == multiset(fields)
  {
    if fields != [] {
      CandidatesAre(fields[1..]);
      assert fields == [fields[0]] + fields[1..];
      hide InOrder;
      forall g | g in Candidates(fields[1..]) ensures g.key != fields[0].key {
        assert g in multiset(fields[1..]);
      }
      InsertCandidateKeeps(fields[0], Candidates(fields[1..]));
    }
  }

  // ---------------------------------------------------------------- documents

  function Collapsed(bytes: nat): Json {
    Dict([Field(Ascii("_trace_truncated"), Bool(true)), Field(Ascii("original_bytes"), Int(bytes))])
  }

  /** The document with the first m candidates collapsed. */
  function Collapse(fields: seq<Field>, candidates: seq<Field>, m: nat): seq<Field>
    requires m <= |candidates|
  {
    if m == 0 then fields
    else Put(Collapse(fields, candidates, m - 1), candidates[m - 1].key, Collapsed(Compact(candidates[m - 1].value)))
  }

  /** The first of the documents with m, m + 1, ... collapsed fields that fits. */
  function FirstFit(fields: seq<Field>, candidates: seq<Field>, m: nat, maxBytes: nat): Json
    requires m <= |candidates|
    decreases |candidates| - m
  {
    if Compact(Dict(Collapse(fields, candidates, m))) <= maxBytes then Dict(Collapse(fields, candidates, m))
    else if m < |candidates| then FirstFit(fields, candidates, m + 1, maxBytes)
    else if Compact(Collapsed(Compact(Dict(fields)))) <= maxBytes then Collapsed(Compact(Dict(fields)))
    else Dict([])
  }

  function DocumentFields(sanitized: Json): seq<Field> {
    if sanitized.Dict? then sanitized.fields else [Field(Ascii("value"), sanitized)]
  }

  /** `bounded_trace_document`; None when fewer than two bytes are allowed. */
  function BoundedDocument(c: Context, v: Value, maxBytes: int): Option<Json>
    requires Known(c.heap, v)
  {
    var fields := DocumentFields(SanitizedPayload(c, v));
    if maxBytes < 2 then None else Some(FirstFit(fields, Candidates(fields), 0, maxBytes))
  }

  method BoundedTraceDocument(c: Context, v: Value, maxBytes: int) returns (r: Option<Json>)
    requires Known(c.heap, v)
    ensures r == BoundedDocument(c, v, maxBytes)
  {
    if maxBytes < 2 { return None; }
    var sanitizer := new Sanitizer(c);
    var sanitized := sanitizer.Sanitize(v, 0);
    hide Sanitized, FirstFit;
    var document := Fit(DocumentFields(sanitized), maxBytes);
    r := Some(document);
  }

  method Fit(fields: seq<Field>, maxBytes: nat) returns (r: Json)
    ensures r == FirstFit(fields, Candidates(fields), 0, maxBytes)
  {
    hide Compact, Candidates, Collapsed, Put;
    var original := Compact(Dict(fields));
    if original <= maxBytes { return Dict(fields); }
    var candidates := Candidates(fields);
    var document, m := fields, 0;
    while m < |candidates|
      invariant 0 <= m <= |candidates| && document == Collapse(fields, candidates, m) && Compact(Dict(document)) > maxBytes
      invariant FirstFit(fields, candidates, m, maxBytes) == FirstFit(fields, candidates, 0, maxBytes)
    {
      document := Put(document, candidates[m].key, Collapsed(Compact(candidates[m].value)));
      m := m + 1;
      if Compact(Dict(document)) <= maxBytes { return Dict(document); }
    }
    r := if Compact(Collapsed(original)) <= maxBytes then Collapsed(original) else Dict([]);
  }

  // ---------------------------------------------------------------- what a document is

  /** Whether a key is among those of the first m candidates. */
  predicate Among(candidates: seq<Field>, m: nat, key: Text) {
    exists i :: 0 <= i < m && i < |candidates| && candidates[i].key == key
  }

  function CollapsedValue(candidates: seq<Field>, m: nat, f: Field): Json {
    if Among(candidates, m, f.key) then Collapsed(Compact(f.value)) else f.value
  }

  /** The fields in their places, those among the first m candidates collapsed to their sizes. */
  ghost predicate CollapsedAre(fields: seq<Field>, candidates: seq<Field>, m: nat, r: seq<Field>) {
    && |r| == |fields|
    && forall i :: 0 <= i < |fields| ==> r[i] == Field(fields[i].key, CollapsedValue(candidates, m, fields[i]))
  }

  lemma {:induction false} PutAt(fields: seq<Field>, i: nat, value: Json)
    requires DistinctKeys(fields) && i < |fields|
    ensures Put(fields, fields[i].key, value) == fields[i := Field(fields[i].key, value)]
  {
    if i > 0 {
      var rest, f := fields[1..], Field(fields[i].key, value);
      assert rest[i - 1] == fields[i] && fields[0].key != fields[i].key;
      PutAt(rest, i - 1, value);
      assert Put(fields, fields[i].key, value) == [fields[0]] + rest[i - 1 := f];
      hide Put, DistinctKeys;
      assert fields[i := f] == [fields[0]] + rest[i - 1 := f];
    }
  }

  lemma {:induction false} CollapseIs(fields: seq<Field>, candidates: seq<Field>, m: nat)
    requires DistinctKeys(fields) && m <= |candidates| && multiset(candidates) == multiset(fields)
    requires forall i, j :: 0 <= i < j < |candidates| ==> candidates[i].key != candidates[j].key
    ensures CollapsedAre(fields, candidates, m, Collapse(fields, candidates, m))
  {
    hide Compact, Collapsed, Put;
    if m > 0 {
      CollapseIs(fields, candidates, m - 1);
      var f, before := candidates[m - 1], Collapse(fields, candidates, m - 1);
      assert f in multiset(candidates) && f in fields;
      var i :| 0 <= i < |fields| && fields[i] == f;
      PutAt(before, i, Collapsed(Compact(f.value)));
      NextAmong(fields, candidates, m, i);
    }
  }

  lemma NextAmong(fields: seq<Field>, candidates: seq<Field>, m: nat, i: nat)
    requires DistinctKeys(fields) && 0 < m <= |candidates| && i < |fields| && fields[i] == candidates[m - 1]
    ensures forall k :: 0 <= k < |fields| ==>
      (Among(candidates, m, fields[k].key) <==> Among(candidates, m - 1, fields[k].key) || k == i)
  {
  }

  lemma CandidateKeys(fields: seq<Field>)
    requires DistinctKeys(fields)
    ensures var cs := Candidates(fields); forall i, j :: 0 <= i < j < |cs| ==> cs[i].key != cs[j].key
  {
    CandidatesAre(fields);
    var cs := Candidates(fields);
    forall i, j | 0 <= i < j < |cs| ensures cs[i].key != cs[j].key {
      assert Before(cs[i], cs[j]) && cs[i] in multiset(fields) && cs[j] in multiset(fields);
      if cs[i].key == cs[j].key {
        assert cs[i] in fields && cs[j] in fields;
        assert cs[i] == cs[j];
        LessTotal(cs[i].key, cs[i].key);
      }
    }
  }

  ghost predicate FitsIn(fields: seq<Field>, maxBytes: nat) { Compact(Dict(fields)) <= maxBytes }

  /**
   * With `r` for the document: it is the payload with as few of its largest fields collapsed as makes it fit, or, when
   * even all of them do not, the size of the whole payload or nothing.
   */
  ghost predicate Document(fields: seq<Field>, candidates: seq<Field>, maxBytes: nat, r: Json) {
    || (exists m, out :: 0 <= m <= |candidates| && CollapsedAre(fields, candidates, m, out) && FitsIn(out, maxBytes) && r == Dict(out)
          && forall k, less :: 0 <= k < m && CollapsedAre(fields, candidates, k, less) ==> !FitsIn(less, maxBytes))
    || ((forall k, less :: 0 <= k <= |candidates| && CollapsedAre(fields, candidates, k, less) ==> !FitsIn(less, maxBytes))
        && r == (if Compact(Collapsed(Compact(Dict(fields)))) <= maxBytes then Collapsed(Compact(Dict(fields))) else Dict([])))
  }

  lemma CollapsedOnce(fields: seq<Field>, candidates: seq<Field>, k: nat, a: seq<Field>, b: seq<Field>)
    requires CollapsedAre(fields, candidates, k, a) && CollapsedAre(fields, candidates, k, b)
    ensures a == b
  {
    hide CollapsedValue;
  }

  lemma {:induction false} FirstFitIs(fields: seq<Field>, candidates: seq<Field>, m: nat, maxBytes: nat)
    requires m <= |candidates|
    requires forall k :: 0 <= k <= |candidates| ==> CollapsedAre(fields, candidates, k, Collapse(fields, candidates, k))
    requires forall k :: 0 <= k < m ==> !FitsIn(Collapse(fields, candidates, k), maxBytes)
    ensures Document(fields, candidates, maxBytes, FirstFit(fields, candidates, m, maxBytes))
    decreases |candidates| - m
  {
    hide CollapsedAre, Collapse, Compact, Collapsed;
    var out := Collapse(fields, candidates, m);
    forall k, less | 0 <= k <= |candidates| && CollapsedAre(fields, candidates, k, less) ensures less == Collapse(fields, candidates, k) {
      CollapsedOnce(fields, candidates, k, less, Collapse(fields, candidates, k));
    }
    if !FitsIn(out, maxBytes) && m < |candidates| { FirstFitIs(fields, candidates, m + 1, maxBytes); }
  }

  lemma {:induction false} FirstFitFits(fields: seq<Field>, candidates: seq<Field>, m: nat, maxBytes: nat)
    requires m <= |candidates| && maxBytes >= 2
    ensures FirstFit(fields, candidates, m, maxBytes).Dict? && Compact(FirstFit(fields, candidates, m, maxBytes)) <= maxBytes
    decreases |candidates| - m
  {
    assert Compact(Dict([])) == 2;
    hide Compact, Collapse;
    if m < |candidates| { FirstFitFits(fields, candidates, m + 1, maxBytes); }
  }

  /** Every document is an object that fits; the fields it collapses are the largest, and no more of them than needed. */
  lemma DocumentFits(c: Context, v: Value, maxBytes: int)
    requires Known(c.heap, v)
    ensures BoundedDocument(c, v, maxBytes).None? <==> maxBytes < 2
    ensures maxBytes >= 2 ==>
      var fields, r := DocumentFields(SanitizedPayload(c, v)), BoundedDocument(c, v, maxBytes).value;
      && r.Dict? && Compact(r) <= maxBytes && Document(fields, Candidates(fields), maxBytes, r)
      && InOrder(Candidates(fields)) && multiset(Candidates(fields)) == multiset(fields)
  {
    var fields := DocumentFields(SanitizedPayload(c, v));
    assert DistinctKeys(fields) by { PayloadKeys(c, v); }
    hide Compact, Collapse, CollapsedAre, Document, FirstFit, DocumentFields, Candidates;
    CandidatesAre(fields);
    CandidateKeys(fields);
    if maxBytes >= 2 {
      forall k | 0 <= k <= |Candidates(fields)| ensures CollapsedAre(fields, Candidates(fields), k, Collapse(fields, Candidates(fields), k)) {
        CollapseIs(fields, Candidates(fields), k);
      }
      FirstFitFits(fields, Candidates(fields), 0, maxBytes);
      FirstFitIs(fields, Candidates(fields), 0, maxBytes);
    }
  }

  lemma PayloadKeys(c: Context, v: Value)
    requires Known(c.heap, v)
    ensures DistinctKeys(DocumentFields(SanitizedPayload(c, v)))
  {
    PayloadFits(c, v);
    hide FieldsFit, AllFit, Sanitized;
  }

  /** Documents of graphs that differ only under secret keys are the same. */
  lemma SecretsStayOut(c: Context, d: Context, ren: map<nat, nat>, v: Value, w: Value, maxBytes: int)
    requires c.secret == d.secret && Agree(c.secret, c.heap, d.heap, ren)
    requires Known(c.heap, v) && Known(d.heap, w) && SameValue(ren, v, w)
    ensures BoundedDocument(c, v, maxBytes) == BoundedDocument(d, w, maxBytes)
  {
    SecretsHaveNoInfluence(c, d, ren, v, w);
    hide SanitizedPayload, FirstFit, Candidates, DocumentFields;
  }
}
