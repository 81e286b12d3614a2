// The signed cursor of the memory scan: a token that carries a keyset position,
// in unpadded URL-safe base64 (section 5 of RFC 4648) over canonical JSON.  JSON,
// ISO dates, the digest and the MAC are parameters with the laws stated below.
module ScanCursor {
  import opened Wrappers

  const MAX_LENGTH := 4096  // _CURSOR_MAX_LENGTH

  // ---------------------------------------------------------------- base64

  type Byte = n: int | 0 <= n < 256
  type Sextet = n: int | 0 <= n < 64

  function Digit(n: Sextet): char {
    if n < 26 then 'A' + n as char
    else if n < 52 then 'a' + (n - 26) as char
    else if n < 62 then '0' + (n - 52) as char
    else if n == 62 then '-' else '_'
  }

  /** Decoding takes both alphabets: "-" and "_" are translated to "+" and "/" first. */
  function Value(c: char): Option<Sextet> {
    if 'A' <= c <= 'Z' then Some(c as int - 'A' as int)
    else if 'a' <= c <= 'z' then Some(c as int - 'a' as int + 26)
    else if '0' <= c <= '9' then Some(c as int - '0' as int + 52)
    else if c == '-' || c == '+' then Some(62)
    else if c == '_' || c == '/' then Some(63)
    else None
  }

  lemma DigitValue(n: Sextet)
    ensures Value(Digit(n)) == Some(n) && Digit(n) != '='
  {
  }

  /** The digits of up to three bytes. */
  function Group(raw: seq<Byte>): string {
    match |raw|
    case 0 => ""
    case 1 => [Digit(raw[0] / 4), Digit(raw[0] % 4 * 16)]
    case 2 => [Digit(raw[0] / 4), Digit(raw[0] % 4 * 16 + raw[1] / 16), Digit(raw[1] % 16 * 4)]
    case _ =>
      [Digit(raw[0] / 4), Digit(raw[0] % 4 * 16 + raw[1] / 16), Digit(raw[1] % 16 * 4 + raw[2] / 64), Digit(raw[2] % 64)]
  }

  /** `urlsafe_b64encode(raw).rstrip(b"=")`. */
  function Encode64(raw: seq<Byte>): string {
    if |raw| < 3 then Group(raw) else Group(raw) + Encode64(raw[3..])
  }

  function Pad(n: nat): string { seq(n, _ => '=') }

  /** The "=" characters that `decode_cursor` appends: -len(token) % 4 of them. */
  function Padded(token: string): string { token + Pad((4 - |token| % 4) % 4) }

  /** `b64decode(padded, altchars=b"-_", validate=True)`. */
  function Decode64(padded: string): Option<seq<Byte>> {
    if |padded| == 0 then Some([])
    else if |padded| < 4 then None
    else
      var a, b, c, d := Value(padded[0]), Value(padded[1]), Value(padded[2]), Value(padded[3]);
      if a.None? || b.None? then None
      else
        var first := a.value * 4 + b.value / 16;
        if |padded| == 4 && padded[2] == '=' && padded[3] == '=' then Some([first])
        else if c.None? then None
        else
          var second := b.value % 16 * 16 + c.value / 4;
          if |padded| == 4 && padded[3] == '=' then Some([first, second])
          else if d.None? then None
          else
            match Decode64(padded[4..])
            case None => None
            case Some(rest) => Some([first, second, c.value % 4 * 64 + d.value] + rest)
  }

  lemma FirstByte(x: Byte)
    ensures x / 4 < 64 && x % 4 * 16 < 64 && x / 4 * 4 + x % 4 * 16 / 16 == x
  {
  }

  lemma TwoBytes(x: Byte, y: Byte)
    ensures var b, c := x % 4 * 16 + y / 16, y % 16 * 4;
      0 <= b < 64 && 0 <= c < 64 && x / 4 * 4 + b / 16 == x && b % 16 * 16 + c / 4 == y
  {
  }

  lemma ThreeBytes(x: Byte, y: Byte, z: Byte)
    ensures var b, c, d := x % 4 * 16 + y / 16, y % 16 * 4 + z / 64, z % 64;
      && 0 <= b < 64 && 0 <= c < 64 && 0 <= d < 64
      && x / 4 * 4 + b / 16 == x && b % 16 * 16 + c / 4 == y && c % 4 * 64 + d == z
  {
  }

  lemma GroupOne(raw: seq<Byte>)
    requires |raw| == 1
    ensures Decode64(Padded(Group(raw))) == Some(raw)
  {
    FirstByte(raw[0]);
    DigitValue(raw[0] / 4);
    DigitValue(raw[0] % 4 * 16);
    assert Padded(Group(raw)) == [Digit(raw[0] / 4), Digit(raw[0] % 4 * 16), '=', '='];
    assert raw == [raw[0]];
    hide Digit, Value;
  }

  lemma GroupTwo(raw: seq<Byte>)
    requires |raw| == 2
    ensures Decode64(Padded(Group(raw))) == Some(raw)
  {
    TwoBytes(raw[0], raw[1]);
    var a, b, c := raw[0] / 4, raw[0] % 4 * 16 + raw[1] / 16, raw[1] % 16 * 4;
    DigitValue(a);
    DigitValue(b);
    DigitValue(c);
    assert Padded(Group(raw)) == [Digit(a), Digit(b), Digit(c), '='];
    assert raw == [raw[0], raw[1]];
    hide Digit, Value;
  }

  lemma GroupThree(raw: seq<Byte>, padded: string, rest: seq<Byte>)
    requires |raw| == 3 && Decode64(padded) == Some(rest)
    ensures Decode64(Group(raw) + padded) == Some(raw + rest)
  {
    ThreeBytes(raw[0], raw[1], raw[2]);
    var a, b, c, d := raw[0] / 4, raw[0] % 4 * 16 + raw[1] / 16, raw[1] % 16 * 4 + raw[2] / 64, raw[2] % 64;
    DigitValue(a);
    DigitValue(b);
    DigitValue(c);
    DigitValue(d);
    var all := Group(raw) + padded;
    assert all[0] == Digit(a) && all[1] == Digit(b) && all[2] == Digit(c) && all[3] == Digit(d) && all[4..] == padded;
    assert raw == [raw[0], raw[1], raw[2]];
    hide Digit, Value;
    assert Decode64(all) == Some([raw[0], raw[1], raw[2]] + rest);
  }

  lemma PaddedAfter(group: string, token: string)
    requires |group| == 4
    ensures Padded(group + token) == group + Padded(token)
  {
    assert |group + token| % 4 == |token| % 4;
  }

  lemma GroupSize(raw: seq<Byte>)
    requires |raw| >= 3
    ensures Group(raw) == Group(raw[..3]) && |Group(raw)| == 4
  {
    hide Digit;
  }

  /** The round trip of RFC 4648, with the padding taken off and put back. */
  lemma {:induction false} Base64RoundTrip(raw: seq<Byte>)
    ensures Decode64(Padded(Encode64(raw))) == Some(raw)
    ensures raw != [] ==> Encode64(raw) != ""
    decreases |raw|
  {
    if |raw| == 0 {
      assert Padded("") == "";
      DecodeNothing();
    } else if |raw| == 1 {
      GroupOne(raw);
    } else if |raw| == 2 {
      GroupTwo(raw);
    } else {
      hide Decode64, Group, Padded;
      Base64RoundTrip(raw[3..]);
      GroupSize(raw);
      GroupThree(raw[..3], Padded(Encode64(raw[3..])), raw[3..]);
      PaddedAfter(Group(raw), Encode64(raw[3..]));
      assert raw[..3] + raw[3..] == raw;
    }
  }

  lemma DecodeNothing()
    ensures Decode64("") == Some([])
  {
  }

  // ---------------------------------------------------------------- payloads

  datatype Json =
    | Text(text: string)
    | Number(number: int)
    | Flag(flag: bool)
    | Null
    | List(items: seq<Json>)
    | Object(fields: map<string, Json>)

  /** What the cursor code takes from its libraries. */
  datatype Library = Library(
    dumps: Json -> seq<Byte>,               // json.dumps(…, sort_keys=True, separators=(",", ":")).encode()
    loads: seq<Byte> -> Option<Json>,       // json.loads(….decode("utf-8"))
    iso: int -> string,                     // datetime.isoformat of a UTC time
    fromIso: string -> Option<int>,         // datetime.fromisoformat, converted to UTC; None when naive or malformed
    digest: seq<Byte> -> string,            // sha256(…).hexdigest()
    hmac: seq<Byte> -> string)              // hmac.new(secret, …, sha256).hexdigest()

  predicate Hex(c: char) { '0' <= c <= '9' || 'a' <= c <= 'f' || 'A' <= c <= 'F' }

  /** The laws: printing can be parsed back, UTC times print without "Z", and a MAC is 64 hexadecimal digits. */
  ghost predicate Lawful(lib: Library) {
    && (forall v :: lib.loads(lib.dumps(v)) == Some(v) && lib.dumps(v) != [])
    && (forall t :: lib.fromIso(lib.iso(t)) == Some(t) && 'Z' !in lib.iso(t))
    && (forall b :: |lib.hmac(b)| == 64 && forall c :: c in lib.hmac(b) ==> Hex(c))
  }

  datatype Key = Key(at: int, id: string)

  datatype Scope = Scope(
    project: string, app: Option<string>, projectWide: bool, user: Option<string>, agent: Option<string>,
    run: Option<string>, kind: Option<string>, includeExpired: bool)

  datatype State = State(snapshotAt: int, upper: Key, after: Key, total: nat)

  datatype Decoded = Ok(state: State) | Invalid | ScopeMismatch

  function Optional(s: Option<string>): Json {
    match s
    case None => Null
    case Some(text) => Text(text)
  }

  function ScopePayload(scope: Scope): Json {
    Object(map[
      "project_id" := Text(scope.project),
      "app_id" := Optional(scope.app),
      "project_wide" := Flag(scope.projectWide),
      "filters" := Object(map[
        "user_id" := Optional(scope.user), "agent_id" := Optional(scope.agent),
        "run_id" := Optional(scope.run), "type" := Optional(scope.kind)]),
      "include_expired" := Flag(scope.includeExpired)])
  }

  function ScopeDigest(lib: Library, scope: Scope): string { lib.digest(lib.dumps(ScopePayload(scope))) }

  function Mac(lib: Library, payload: map<string, Json>, scope: Scope): string {
    lib.hmac(lib.dumps(Object(map["cursor" := Object(payload), "scope" := ScopePayload(scope)])))
  }

  function KeyPayload(lib: Library, k: Key): Json { List([Text(lib.iso(k.at)), Text(k.id)]) }

  function Payload(lib: Library, state: State, scope: Scope): map<string, Json> {
    map["v" := Number(1),
        "snapshot_at" := Text(lib.iso(state.snapshotAt)),
        "upper" := KeyPayload(lib, state.upper),
        "after" := KeyPayload(lib, state.after),
        "total" := Number(state.total),
        "digest" := Text(ScopeDigest(lib, scope))]
  }

  /** The encoded object: the payload and its MAC. */
  function Signed(lib: Library, state: State, scope: Scope): map<string, Json> {
    var payload := Payload(lib, state, scope);
    payload["mac" := Text(Mac(lib, payload, scope))]
  }

  function EncodeCursor(lib: Library, state: State, scope: Scope): string {
    Encode64(lib.dumps(Object(Signed(lib, state, scope))))
  }

  // ---------------------------------------------------------------- decoding

  /** `value.replace("Z", "+00:00")`. */
  function ReplaceZ(s: string): string {
    if s == [] then [] else (if s[0] == 'Z' then "+00:00" else [s[0]]) + ReplaceZ(s[1..])
  }

  function ParseTime(lib: Library, v: Json): Option<int> {
    if v.Text? then lib.fromIso(ReplaceZ(v.text)) else None
  }

  function ParseKey(lib: Library, v: Json): Option<Key> {
    if v.List? && |v.items| == 2 && v.items[1].Text? && v.items[1].text != "" then
      match ParseTime(lib, v.items[0])
      case Some(at) => Some(Key(at, v.items[1].text))
      case None => None
    else None
  }

  const FIELDS := {"v", "snapshot_at", "upper", "after", "total", "digest", "mac"}

  predicate WellFormedMac(v: Json) { v.Text? && |v.text| == 64 && forall c :: c in v.text ==> Hex(c) }

  /** The part of `decode_cursor` after the MAC has been found right. */
  function ParseState(lib: Library, payload: map<string, Json>): Decoded
    requires FIELDS - {"mac"} <= payload.Keys
  {
    var snapshotAt, upper, after :=
      ParseTime(lib, payload["snapshot_at"]), ParseKey(lib, payload["upper"]), ParseKey(lib, payload["after"]);
    if payload["v"] != Number(1) || !payload["total"].Number? || payload["total"].number < 0 || !payload["digest"].Text? then Invalid
    else if snapshotAt.None? || upper.None? || after.None? then Invalid
    else Ok(State(snapshotAt.value, upper.value, after.value, payload["total"].number))
  }

  function DecodeCursor(lib: Library, token: string, scope: Scope): Decoded {
    if token == "" || |token| > MAX_LENGTH then Invalid
    else
      match Decode64(Padded(token))
      case None => Invalid
      case Some(raw) =>
        match lib.loads(raw)
        case Some(Object(fields)) =>
          if fields.Keys != FIELDS || !WellFormedMac(fields["mac"]) then Invalid
          else
            var payload := fields - {"mac"};
            if fields["mac"].text != Mac(lib, payload, scope) then
              if payload["digest"] != Text(ScopeDigest(lib, scope)) then ScopeMismatch else Invalid
            else ParseState(lib, payload)
        case _ => Invalid
  }

  lemma {:induction false} NoZ(s: string)
    requires 'Z' !in s
    ensures ReplaceZ(s) == s
  {
    if s != [] {
      assert s[0] != 'Z' && s == [s[0]] + s[1..];
      NoZ(s[1..]);
    }
  }

  lemma TimeRoundTrip(lib: Library, t: int)
    requires Lawful(lib)
    ensures ParseTime(lib, Text(lib.iso(t))) == Some(t)
  {
    NoZ(lib.iso(t));
  }

  lemma KeyRoundTrip(lib: Library, k: Key)
    requires Lawful(lib) && k.id != ""
    ensures ParseKey(lib, KeyPayload(lib, k)) == Some(k)
  {
    TimeRoundTrip(lib, k.at);
  }

  ghost predicate WellFormed(state: State) { state.upper.id != "" && state.after.id != "" }

  lemma FieldNames(payload: map<string, Json>, mac: Json)
    requires payload.Keys == FIELDS - {"mac"}
    ensures payload["mac" := mac].Keys == FIELDS && payload["mac" := mac]["mac"] == mac && payload["mac" := mac] - {"mac"} == payload
  {
    assert "mac" in FIELDS;
  }

  /** What decoding sees of an encoded cursor before it looks at the scope. */
  lemma Unwrap(lib: Library, state: State, scope: Scope)
    requires Lawful(lib)
    ensures var fields := Signed(lib, state, scope);
      && EncodeCursor(lib, state, scope) != ""
      && Decode64(Padded(EncodeCursor(lib, state, scope))) == Some(lib.dumps(Object(fields)))
      && lib.loads(lib.dumps(Object(fields))) == Some(Object(fields))
      && fields.Keys == FIELDS && WellFormedMac(fields["mac"]) && fields - {"mac"} == Payload(lib, state, scope)
      && fields["mac"] == Text(Mac(lib, Payload(lib, state, scope), scope))
  {
    var payload := Payload(lib, state, scope);
    Base64RoundTrip(lib.dumps(Object(Signed(lib, state, scope))));
    assert payload.Keys == FIELDS - {"mac"};
    hide Payload, Encode64, Decode64, ScopePayload;
    FieldNames(payload, Text(Mac(lib, payload, scope)));
  }

  /** A cursor decodes to the state it was made from exactly if its token is not too long. */
  lemma CursorRoundTrip(lib: Library, state: State, scope: Scope)
    requires Lawful(lib) && WellFormed(state)
    ensures DecodeCursor(lib, EncodeCursor(lib, state, scope), scope) == Ok(state)
      <==> |EncodeCursor(lib, state, scope)| <= MAX_LENGTH
  {
    Unwrap(lib, state, scope);
    TimeRoundTrip(lib, state.snapshotAt);
    KeyRoundTrip(lib, state.upper);
    KeyRoundTrip(lib, state.after);
    hide Lawful, Encode64, Decode64, Mac, ScopeDigest, ParseTime, ParseKey;
  }

  /** If digests and MACs of different scopes differ, a cursor is refused for every scope but its own. */
  lemma OtherScopeRefused(lib: Library, state: State, scope: Scope, other: Scope)
    requires Lawful(lib) && |EncodeCursor(lib, state, scope)| <= MAX_LENGTH
    requires ScopeDigest(lib, scope) != ScopeDigest(lib, other)
    requires Mac(lib, Payload(lib, state, scope), scope) != Mac(lib, Payload(lib, state, scope), other)
    ensures DecodeCursor(lib, EncodeCursor(lib, state, scope), other) == ScopeMismatch
  {
    Unwrap(lib, state, scope);
    hide Lawful, Encode64, Decode64, Mac, ScopeDigest;
  }

  /** Different scopes have different payloads, so only a collision of the digest or the MAC could confuse them. */
  lemma ScopePayloadInjective(a: Scope, b: Scope)
    requires ScopePayload(a) == ScopePayload(b)
    ensures a == b
  {
    var x, y := ScopePayload(a).fields, ScopePayload(b).fields;
    assert x["project_id"] == y["project_id"] && x["app_id"] == y["app_id"] && x["project_wide"] == y["project_wide"]
        && x["include_expired"] == y["include_expired"];
    var f, g := x["filters"].fields, y["filters"].fields;
    assert f["user_id"] == g["user_id"] && f["agent_id"] == g["agent_id"] && f["run_id"] == g["run_id"] && f["type"] == g["type"];
  }
}
