// Text as Python keeps it, and UTF-8 (RFC 3629) as far as the trace sanitizer
// uses it: encoding with replacement, cutting the bytes, decoding what is whole.
module Utf8 {

  /** A code point; a string may hold lone surrogates. */
  type Char = c: int | 0 <= c <= 0x10FFFF
  type Text = seq<Char>

  function Ascii(s: string): (r: Text)
    ensures |r| == |s|
  {
    seq(|s|, i requires 0 <= i < |s| => s[i] as int)
  }

  predicate Surrogate(c: Char) { 0xD800 <= c <= 0xDFFF }

  predicate WellFormed(s: Text) { forall i :: 0 <= i < |s| ==> !Surrogate(s[i]) }

  /** `str.encode(c, "utf-8", "replace")`: a surrogate becomes a question mark. */
  function EncodeChar(c: Char): (r: seq<int>)
    ensures 1 <= |r| <= 4
  {
    if Surrogate(c) then [0x3F]
    else if c < 0x80 then [c]
    else if c < 0x800 then [0xC0 + c / 64, 0x80 + c % 64]
    else if c < 0x10000 then [0xE0 + c / 4096, 0x80 + c / 64 % 64, 0x80 + c % 64]
    else [0xF0 + c / 262144, 0x80 + c / 4096 % 64, 0x80 + c / 64 % 64, 0x80 + c % 64]
  }

  function Encode(s: Text): (r: seq<int>)
    ensures |s| <= |r| <= 4 * |s|
  {
    if s == [] then [] else EncodeChar(s[0]) + Encode(s[1..])
  }

  /** How many bytes the character has that starts with this byte. */
  function Width(lead: int): nat {
    if lead < 0x80 then 1 else if lead < 0xE0 then 2 else if lead < 0xF0 then 3 else 4
  }

  function CharOf(b: seq<int>): int
    requires |b| > 0 && |b| == Width(b[0])
  {
    match |b|
    case 1 => b[0]
    case 2 => (b[0] - 0xC0) * 64 + (b[1] - 0x80)
    case 3 => (b[0] - 0xE0) * 4096 + (b[1] - 0x80) * 64 + (b[2] - 0x80)
    case _ => (b[0] - 0xF0) * 262144 + (b[1] - 0x80) * 4096 + (b[2] - 0x80) * 64 + (b[3] - 0x80)
  }

  /** `bytes.decode(b, "utf-8", "ignore")` on a cut of an encoding: a character that is not whole is dropped. */
  function Decode(b: seq<int>): seq<int> {
    if b == [] || |b| < Width(b[0]) then [] else [CharOf(b[..Width(b[0])])] + Decode(b[Width(b[0])..])
  }

  /** The text with each surrogate replaced by a question mark. */
  function Replaced(s: Text): (r: Text)
    ensures |r| == |s| && WellFormed(r)
  {
    seq(|s|, i requires 0 <= i < |s| => if Surrogate(s[i]) then 0x3F else s[i])
  }

  lemma EncodeCharDecodes(c: Char)
    ensures var b := EncodeChar(c); Width(b[0]) == |b| && CharOf(b) == if Surrogate(c) then 0x3F else c
  {
    var d, e := c / 64, c / 4096;
    assert c == d * 64 + c % 64;
    assert d == e * 64 + d % 64 && c / 262144 == e / 64 && e == e / 64 * 64 + e % 64 by { SplitDigits(c); }
    if Surrogate(c) || c < 0x800 {
    } else if c < 0x10000 {
      ThreeBytes(c);
    } else {
      FourBytes(c);
    }
  }

  lemma SplitDigits(c: int)
    ensures c / 64 / 64 == c / 4096 && c / 64 == c / 4096 * 64 + c / 64 % 64 && c / 4096 / 64 == c / 262144
  {
  }

  lemma ThreeBytes(c: Char)
    requires !Surrogate(c) && 0x800 <= c < 0x10000
    ensures var b := EncodeChar(c); Width(b[0]) == |b| && CharOf(b) == c
  {
    SplitDigits(c);
  }

  lemma FourBytes(c: Char)
    requires 0x10000 <= c
    ensures var b := EncodeChar(c); Width(b[0]) == |b| && CharOf(b) == c
  {
    SplitDigits(c);
  }

  /** The characters of `s` whose encodings fit whole into `n` bytes. */
  function Whole(s: Text, n: nat): (k: nat)
    ensures k <= |s|
  {
    if s == [] || n < |EncodeChar(s[0])| then 0 else 1 + Whole(s[1..], n - |EncodeChar(s[0])|)
  }

  lemma {:induction false} WholeIsMost(s: Text, n: nat)
    ensures |Encode(s[..Whole(s, n)])| <= n
    ensures Whole(s, n) < |s| ==> |Encode(s[..Whole(s, n) + 1])| > n
  {
    if s != [] && n >= |EncodeChar(s[0])| {
      var k := Whole(s, n);
      WholeIsMost(s[1..], n - |EncodeChar(s[0])|);
      assert s[..k][1..] == s[1..][..k - 1];
      if k < |s| { assert s[..k + 1][1..] == s[1..][..k]; }
    } else if s != [] {
      assert s[..1][1..] == [];
    }
  }

  lemma ReplacedFirst(s: Text, k: nat)
    requires 1 <= k <= |s|
    ensures Replaced(s[..k]) == [if Surrogate(s[0]) then 0x3F else s[0]] + Replaced(s[1..][..k - 1])
  {
  }

  /** Decoding a cut of the encoding gives the whole characters before the cut. */
  lemma {:induction false} DecodeCut(s: Text, n: nat)
    requires n <= |Encode(s)|
    ensures Decode(Encode(s)[..n]) == Replaced(s[..Whole(s, n)])
  {
    if s != [] {
      var c, rest := EncodeChar(s[0]), Encode(s[1..]);
      EncodeCharDecodes(s[0]);
      var b := Encode(s)[..n];
      hide EncodeChar, CharOf, Width;
      if n >= |c| {
        DecodeCut(s[1..], n - |c|);
        assert b[..|c|] == c && b[|c|..] == rest[..n - |c|] && b[0] == c[0];
        hide Encode;
        assert Decode(b) == [CharOf(c)] + Decode(rest[..n - |c|]);
        hide Decode;
        ReplacedFirst(s, Whole(s, n));
      } else if n > 0 {
        assert b[0] == c[0] && |b| < Width(b[0]);
      }
    }
  }

  lemma {:induction false} WholeAll(s: Text)
    ensures Whole(s, |Encode(s)|) == |s|
  {
    if s != [] { WholeAll(s[1..]); }
  }

  /** Decoding inverts encoding, up to the replaced surrogates. */
  lemma DecodeEncode(s: Text)
    ensures Decode(Encode(s)) == Replaced(s)
  {
    DecodeCut(s, |Encode(s)|);
    WholeAll(s);
    assert Encode(s)[..|Encode(s)|] == Encode(s) && s[..|s|] == s;
  }

  lemma {:induction false} EncodeAppend(s: Text, t: Text)
    ensures Encode(s + t) == Encode(s) + Encode(t)
  {
    if s == [] {
      assert s + t == t;
    } else {
      assert (s + t)[1..] == s[1..] + t;
      EncodeAppend(s[1..], t);
    }
  }

  /** Replacing surrogates does not change the bytes. */
  lemma {:induction false} EncodeReplaced(s: Text)
    ensures Encode(Replaced(s)) == Encode(s)
  {
    if s != [] {
      EncodeReplaced(s[1..]);
      assert Replaced(s)[1..] == Replaced(s[1..]);
    }
  }

  lemma {:induction false} EncodeAscii(s: Text)
    requires forall i :: 0 <= i < |s| ==> s[i] < 0x80
    ensures |Encode(s)| == |s|
  {
    if s != [] { EncodeAscii(s[1..]); }
  }

  /** Lexicographic order by code points, as Python compares strings. */
  predicate Less(a: Text, b: Text) {
    if b == [] then false else if a == [] then true else if a[0] != b[0] then a[0] < b[0] else Less(a[1..], b[1..])
  }

  lemma {:induction false} LessTransitive(a: Text, b: Text, c: Text)
    requires Less(a, b) && Less(b, c)
    ensures Less(a, c)
  {
    if a != [] && a[0] == b[0] == c[0] { LessTransitive(a[1..], b[1..], c[1..]); }
  }

  lemma {:induction false} LessTotal(a: Text, b: Text)
    ensures Less(a, b) || a == b || Less(b, a)
    ensures !(Less(a, b) && Less(b, a)) && !Less(a, a)
  {
    if a != [] && b != [] {
      if a[0] == b[0] {
        LessTotal(a[1..], b[1..]);
        assert a == [a[0]] + a[1..] && b == [b[0]] + b[1..];
      }
      LessTotal(a[1..], a[1..]);
    } else if a != [] {
      LessTotal(a[1..], a[1..]);
    }
  }

  /** The texts agree up to position `k`, where `a` ends or has the smaller code point. */
  predicate FirstDiffers(a: Text, b: Text, k: nat) {
    k <= |a| && k < |b| && a[..k] == b[..k] && (k == |a| || a[k] < b[k])
  }

  lemma {:induction false} LessIff(a: Text, b: Text)
    ensures Less(a, b) <==> exists k: nat :: FirstDiffers(a, b, k)
  {
    if a != [] && b != [] && a[0] == b[0] {
      LessIff(a[1..], b[1..]);
      if k: nat :| FirstDiffers(a[1..], b[1..], k) {
        assert a[..k + 1] == [a[0]] + a[1..][..k] && b[..k + 1] == [b[0]] + b[1..][..k];
        assert FirstDiffers(a, b, k + 1);
      } else if k: nat :| FirstDiffers(a, b, k) {
        assert a[1..][..k - 1] == a[..k][1..] && b[1..][..k - 1] == b[..k][1..];
        assert FirstDiffers(a[1..], b[1..], k - 1);
      }
    } else if b != [] {
      if a == [] || a[0] < b[0] { assert FirstDiffers(a, b, 0); }
    }
  }

  // ---------------------------------------------------------------- sorted texts

  /** Puts a key in its place, unless it is there. */
  function Insert(key: Text, sorted: seq<Text>): seq<Text> {
    if sorted == [] then [key]
    else if sorted[0] == key then sorted
    else if Less(key, sorted[0]) then [key] + sorted
    else [sorted[0]] + Insert(key, sorted[1..])
  }

  ghost predicate StrictlySorted(keys: seq<Text>) { forall i, j :: 0 <= i < j < |keys| ==> Less(keys[i], keys[j]) }

  lemma {:induction false} InsertKeeps(key: Text, sorted: seq<Text>)
    requires StrictlySorted(sorted)
    ensures StrictlySorted(Insert(key, sorted))
    ensures forall k :: k in Insert(key, sorted) <==> k == key || k in sorted
  {
    if sorted != [] && sorted[0] != key {
      LessTotal(key, sorted[0]);
      if Less(key, sorted[0]) {
        forall j | 0 <= j < |sorted| ensures Less(key, sorted[j]) {
          if j > 0 { LessTransitive(key, sorted[0], sorted[j]); }
        }
      } else {
        InsertKeeps(key, sorted[1..]);
        var rest := Insert(key, sorted[1..]);
        forall j | 0 <= j < |rest| ensures Less(sorted[0], rest[j]) {
          assert rest[j] in rest;
          if rest[j] != key { assert rest[j] in sorted[1..]; }
        }
      }
    }
  }

  lemma {:induction false} SortedUnique(a: seq<Text>, b: seq<Text>)
    requires StrictlySorted(a) && StrictlySorted(b) && forall k :: k in a <==> k in b
    ensures a == b
  {
    if a != [] && b != [] {
      assert a[0] in b && b[0] in a;
      LessTotal(a[0], b[0]);
      FirstIsLeast(a, b[0]);
      FirstIsLeast(b, a[0]);
      forall k ensures k in a[1..] <==> k in b[1..] {
        LessTotal(a[0], a[0]);
        assert k in a[1..] <==> k in a && k != a[0];
        assert k in b[1..] <==> k in b && k != b[0];
      }
      SortedUnique(a[1..], b[1..]);
    } else {
      SameEmpty(a, b);
    }
  }

  lemma FirstIsLeast(a: seq<Text>, k: Text)
    requires StrictlySorted(a) && k in a
    ensures k == a[0] || Less(a[0], k)
  {
  }

  lemma SameEmpty(a: seq<Text>, b: seq<Text>)
    requires forall k :: k in a <==> k in b
    ensures a == [] <==> b == []
  {
    if a != [] { assert a[0] in b; }
    if b != [] { assert b[0] in a; }
  }
}
