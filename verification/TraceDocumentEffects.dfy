// Trace documents against the JSON that is written: how many bytes there are, and
// which fields are collapsed first.
module TraceDocumentEffects {
  import opened TraceDocument
  import opened TracePayloadBounds
  import opened TracePayloads
  import opened Utf8
  import opened Wrappers

  // ---------------------------------------------------------------- compact JSON

  function HexDigit(n: nat): Char
    requires n < 16
  {
    if n < 10 then 48 + n else 87 + n
  }

  /** A character within a JSON string: quotes, backslashes and control characters are escaped. */
  function Escaped(c: Char): Text {
    match c
    case 0x22 => Ascii("\\") + [c]
    case 0x5C => Ascii("\\") + [c]
    case 8 => Ascii("\\b")
    case 9 => Ascii("\\t")
    case 10 => Ascii("\\n")
    case 12 => Ascii("\\f")
    case 13 => Ascii("\\r")
    case _ => if c < 0x20 then Ascii("\\u00") + [HexDigit(c / 16), HexDigit(c % 16)] else [c]
  }

  function EscapedText(s: Text): Text { if s == [] then [] else Escaped(s[0]) + EscapedText(s[1..]) }

  const QUOTE: Text := [0x22]

  function Quoted(s: Text): Text { QUOTE + EscapedText(s) + QUOTE }

  /** `json.dumps` without blanks, characters that are not ASCII left as they are. */
  function Written(j: Json): Text
    decreases j, 0
  {
    match j
    case Null => Ascii("null")
    case Bool(flag) => if flag then Ascii("true") else Ascii("false")
    case Int(n) => if n < 0 then Ascii("-") + Digits(-n) else Digits(n)
    case Float(printed) => printed
    case Str(s) => Quoted(s)
    case List(items) => Ascii("[") + WrittenItems(items) + Ascii("]")
    case Dict(fields) => Ascii("{") + WrittenFields(fields) + Ascii("}")
  }

  function WrittenItems(items: seq<Json>): Text
    decreases items, 1
  {
    if items == [] then []
    else if |items| == 1 then Written(items[0])
    else Written(items[0]) + Ascii(",") + WrittenItems(items[1..])
  }

  function WrittenField(f: Field): Text
    decreases f, 1
  {
    Quoted(f.key) + Ascii(":") + Written(f.value)
  }

  function WrittenFields(fields: seq<Field>): Text
    decreases fields, 1
  {
    if fields == [] then []
    else if |fields| == 1 then WrittenField(fields[0])
    else WrittenField(fields[0]) + Ascii(",") + WrittenFields(fields[1..])
  }

  /** Numbers are printed in ASCII. */
  ghost predicate PlainFloats(j: Json) {
    match j
    case Float(printed) => forall i :: 0 <= i < |printed| ==> printed[i] < 0x80
    case List(items) => forall i :: 0 <= i < |items| ==> PlainFloats(items[i])
    case Dict(fields) => forall i :: 0 <= i < |fields| ==> PlainFloats(fields[i].value)
    case _ => true
  }

  lemma EncodeOne(c: Char)
    ensures Encode([c]) == EncodeChar(c)
  {
    assert [c][1..] == [];
  }

  lemma AsciiBytes(s: Text)
    requires forall i :: 0 <= i < |s| ==> s[i] < 0x80
    ensures |Encode(s)| == |s|
  {
    EncodeAscii(s);
  }

  lemma EscapedBytes(c: Char)
    ensures |Encode(Escaped(c))| == CharBytes(c)
  {
    hide Encode, EncodeChar;
    if c >= 0x20 && c != 0x22 && c != 0x5C { EncodeOne(c); } else { AsciiBytes(Escaped(c)); }
  }

  lemma {:induction false} TextWritten(s: Text)
    ensures |Encode(EscapedText(s))| + 2 == TextBytes(s)
  {
    if s != [] {
      TextWritten(s[1..]);
      EscapedBytes(s[0]);
      EncodeAppend(Escaped(s[0]), EscapedText(s[1..]));
    }
  }

  lemma QuotedBytes(s: Text)
    ensures |Encode(Quoted(s))| == TextBytes(s)
  {
    hide Encode, TextBytes, EscapedText;
    TextWritten(s);
    AsciiBytes(QUOTE);
    EncodeAppend(QUOTE, EscapedText(s));
    EncodeAppend(QUOTE + EscapedText(s), QUOTE);
  }

  lemma IntWritten(n: int)
    ensures |Encode(Written(Int(n)))| == Compact(Int(n))
  {
    hide Encode, Digits;
    AsciiBytes(Written(Int(n)));
  }

  /** The size of compact JSON is the number of bytes that are written. */
  lemma {:induction false} BytesWritten(j: Json)
    requires PlainFloats(j)
    ensures |Encode(Written(j))| == Compact(j)
    decreases j, 0
  {
    hide Encode, TextBytes, Digits, Quoted;
    match j
    case Null => AsciiBytes(Ascii("null"));
    case Bool(flag) =>
      AsciiBytes(Ascii("true"));
      AsciiBytes(Ascii("false"));
    case Int(n) => IntWritten(n);
    case Float(printed) => AsciiBytes(printed);
    case Str(s) => QuotedBytes(s);
    case List(items) =>
      ItemsWritten(items);
      Between(Ascii("["), WrittenItems(items), Ascii("]"));
    case Dict(fields) =>
      FieldsWritten(fields);
      Between(Ascii("{"), WrittenFields(fields), Ascii("}"));
  }

  lemma Between(a: Text, b: Text, c: Text)
    requires |a| == 1 && |c| == 1 && a[0] < 0x80 && c[0] < 0x80
    ensures |Encode(a + b + c)| == |Encode(b)| + 2
  {
    hide Encode;
    AsciiBytes(a);
    AsciiBytes(c);
    EncodeAppend(a, b);
    EncodeAppend(a + b, c);
  }

  lemma Joined(a: Text, comma: Text, b: Text)
    requires |comma| == 1 && comma[0] < 0x80
    ensures |Encode(a + comma + b)| == |Encode(a)| + 1 + |Encode(b)|
  {
    hide Encode;
    AsciiBytes(comma);
    EncodeAppend(a, comma);
    EncodeAppend(a + comma, b);
  }

  lemma {:induction false} ItemsWritten(items: seq<Json>)
    requires forall i :: 0 <= i < |items| ==> PlainFloats(items[i])
    ensures |Encode(WrittenItems(items))| == Commas(|items|) + CompactItems(items)
    decreases items, 1
  {
    hide Written, Compact;
    if items == [] {
      AsciiBytes([]);
    } else {
      BytesWritten(items[0]);
      hide Encode;
      if |items| > 1 {
        ItemsWritten(items[1..]);
        Joined(Written(items[0]), Ascii(","), WrittenItems(items[1..]));
      }
    }
  }

  lemma FieldWritten(f: Field)
    requires PlainFloats(f.value)
    ensures |Encode(WrittenField(f))| == TextBytes(f.key) + 1 + Compact(f.value)
    decreases f, 1
  {
    hide Encode, Written, Compact, Quoted, TextBytes;
    QuotedBytes(f.key);
    BytesWritten(f.value);
    Joined(Quoted(f.key), Ascii(":"), Written(f.value));
  }

  lemma {:induction false} FieldsWritten(fields: seq<Field>)
    requires forall i :: 0 <= i < |fields| ==> PlainFloats(fields[i].value)
    ensures |Encode(WrittenFields(fields))| == Commas(|fields|) + CompactFields(fields)
    decreases fields, 1
  {
    hide WrittenField, Compact, TextBytes;
    if fields == [] {
      AsciiBytes([]);
    } else {
      FieldWritten(fields[0]);
      hide Encode;
      if |fields| > 1 {
        FieldsWritten(fields[1..]);
        Joined(WrittenField(fields[0]), Ascii(","), WrittenFields(fields[1..]));
      }
    }
  }

  // ---------------------------------------------------------------- documents

  /** The document has the fields of the payload, the first `m` of `candidates` replaced by what they measured. */
  ghost predicate Replaces(fields: seq<Field>, candidates: seq<Field>, m: nat, out: seq<Field>) {
    && |out| == |fields|
    && forall i :: 0 <= i < |fields| ==>
         && out[i].key == fields[i].key
         && out[i].value ==
           if exists k :: 0 <= k < m && k < |candidates| && candidates[k].key == fields[i].key then
             Dict([Field(Ascii("_trace_truncated"), Bool(true)), Field(Ascii("original_bytes"), Int(Compact(fields[i].value)))])
           else fields[i].value
  }

  /** The fields of the payload, the largest first, and by key among equals. */
  ghost predicate LargestFirst(candidates: seq<Field>, fields: seq<Field>) {
    && multiset(candidates) == multiset(fields)
    && forall i, j :: 0 <= i < j < |candidates| ==>
         || Compact(candidates[i].value) > Compact(candidates[j].value)
         || (Compact(candidates[i].value) == Compact(candidates[j].value) && Less(candidates[i].key, candidates[j].key))
  }

  ghost predicate FitsWith(fields: seq<Field>, candidates: seq<Field>, m: nat, out: seq<Field>, maxBytes: nat) {
    Replaces(fields, candidates, m, out) && Compact(Dict(out)) <= maxBytes
  }

  lemma ReplacesIff(fields: seq<Field>, candidates: seq<Field>, m: nat, out: seq<Field>)
    ensures Replaces(fields, candidates, m, out) <==> CollapsedAre(fields, candidates, m, out)
  {
    hide Compact;
    forall i | 0 <= i < |fields|
      ensures Among(candidates, m, fields[i].key) <==> exists k :: 0 <= k < m && k < |candidates| && candidates[k].key == fields[i].key
    {
    }
  }

  /** A payload that is no object is put under the key "value". */
  lemma FieldsOf(sanitized: Json)
    ensures DocumentFields(sanitized) == match sanitized { case Dict(fields) => fields case _ => [Field(Ascii("value"), sanitized)] }
  {
  }

  /**
   * A document collapses the largest fields of the payload, as few as makes it fit; when even all of them do not, it is
   * the size of the payload, or an empty object if that is too long as well.
   */
  lemma DocumentIs(c: Context, v: Value, maxBytes: int) returns (candidates: seq<Field>)
    requires Known(c.heap, v) && maxBytes >= 2
    ensures BoundedDocument(c, v, maxBytes).Some?
    ensures var fields, r := DocumentFields(SanitizedPayload(c, v)), BoundedDocument(c, v, maxBytes).value;
      && LargestFirst(candidates, fields)
      && (|| (exists m: nat, out :: m <= |candidates| && FitsWith(fields, candidates, m, out, maxBytes) && r == Dict(out)
                && forall k: nat, less :: k < m ==> !FitsWith(fields, candidates, k, less, maxBytes))
          || ((forall k: nat, less :: k <= |candidates| ==> !FitsWith(fields, candidates, k, less, maxBytes))
              && var size := Dict([Field(Ascii("_trace_truncated"), Bool(true)), Field(Ascii("original_bytes"), Int(Compact(Dict(fields))))]);
                 r == if Compact(size) <= maxBytes then size else Dict([])))
  {
    hide Compact, Candidates, SanitizedPayload, DocumentFields, BoundedDocument, CollapsedAre, Replaces;
    var fields := DocumentFields(SanitizedPayload(c, v));
    candidates := Candidates(fields);
    DocumentFits(c, v, maxBytes);
    forall m: nat, out ensures FitsWith(fields, candidates, m, out, maxBytes) <==> CollapsedAre(fields, candidates, m, out) && FitsIn(out, maxBytes) {
      ReplacesIff(fields, candidates, m, out);
    }
  }
}
