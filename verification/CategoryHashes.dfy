// The snapshot of category name hashes that an add intent keeps: sorted hashes in
// chunks of 32, with their number and a fingerprint.
module CategoryHashes {
  import opened Utf8

  /** A stored value, as far as the decoder tells values apart; Else stands for all other types. */
  datatype Value = TextValue(s: Text) | IntValue(n: int) | ListValue(items: seq<Value>) | Else

  /** A stored snapshot: not a dict, or a dict with its keys and the values of the three expected ones. */
  datatype Stored = NotDict | Stored(keys: set<string>, chunks: Value, count: Value, fingerprint: Value)

  datatype Decoded = Hashes(hashes: seq<Text>) | Malformed | Incomplete

  const CHUNK_SIZE: nat := 32
  const SNAPSHOT_KEYS := {"chunks", "count", "fingerprint"}

  // ---------------------------------------------------------------- encoding

  predicate HexDigit(c: Char) { 48 <= c <= 57 || 97 <= c <= 102 }

  predicate IsHash(s: Text) { |s| == 64 && forall i :: 0 <= i < 64 ==> HexDigit(s[i]) }

  /** `sorted({hash(name) for name in names})`. */
  function SortedHashes(hash: Text -> Text, names: seq<Text>): seq<Text> {
    if names == [] then [] else Insert(hash(names[0]), SortedHashes(hash, names[1..]))
  }

  function Texts(hashes: seq<Text>): (r: seq<Value>)
    ensures |r| == |hashes| && forall i :: 0 <= i < |r| ==> r[i] == TextValue(hashes[i])
  {
    seq(|hashes|, i requires 0 <= i < |hashes| => TextValue(hashes[i]))
  }

  function Chunks(hashes: seq<Text>): seq<Value> {
    if hashes == [] then []
    else if |hashes| <= CHUNK_SIZE then [ListValue(Texts(hashes))]
    else [ListValue(Texts(hashes[..CHUNK_SIZE]))] + Chunks(hashes[CHUNK_SIZE..])
  }

  function Encode(fingerprint: seq<Text> -> Text, hashes: seq<Text>): Stored {
    Stored(SNAPSHOT_KEYS, ListValue(Chunks(hashes)), IntValue(|hashes|), TextValue(fingerprint(hashes)))
  }

  /** `_projection_category_hash_snapshot`. */
  function Snapshot(hash: Text -> Text, fingerprint: seq<Text> -> Text, names: seq<Text>): Stored {
    Encode(fingerprint, SortedHashes(hash, names))
  }

  // ---------------------------------------------------------------- decoding

  predicate AllHashes(items: seq<Value>) { forall i :: 0 <= i < |items| ==> items[i].TextValue? && IsHash(items[i].s) }

  function TextsOf(items: seq<Value>): (r: seq<Text>)
    requires AllHashes(items)
    ensures |r| == |items| && forall i :: 0 <= i < |r| ==> r[i] == items[i].s
  {
    seq(|items|, i requires 0 <= i < |items| => items[i].s)
  }

  /** What the loop has found after n chunks. */
  function Scanned(chunks: seq<Value>, n: nat): Decoded
    requires n <= |chunks|
  {
    if n == 0 then Hashes([])
    else
      match Scanned(chunks, n - 1)
      case Hashes(before) =>
        var chunk := chunks[n - 1];
        if !chunk.ListValue? || !(1 <= |chunk.items| <= CHUNK_SIZE) then Malformed
        else if n < |chunks| && |chunk.items| != CHUNK_SIZE then Incomplete
        else if !AllHashes(chunk.items) then Malformed
        else Hashes(before + TextsOf(chunk.items))
      case error => error
  }

  /** `hashes == sorted(set(hashes))`. */
  predicate SortedSet(hashes: seq<Text>) { forall i :: 0 <= i < |hashes| - 1 ==> Less(hashes[i], hashes[i + 1]) }

  predicate Shaped(s: Stored) {
    s.Stored? && s.keys == SNAPSHOT_KEYS && s.chunks.ListValue? && s.count.IntValue? && s.count.n >= 0 && s.fingerprint.TextValue?
  }

  function Decode(fingerprint: seq<Text> -> Text, s: Stored): Decoded {
    if !Shaped(s) then Malformed
    else
      match Scanned(s.chunks.items, |s.chunks.items|)
      case Hashes(hashes) =>
        if s.count.n != |hashes| || !SortedSet(hashes) || s.fingerprint.s != fingerprint(hashes) then Incomplete else Hashes(hashes)
      case error => error
  }

  /** `_projection_category_hashes`. */
  method ProjectionCategoryHashes(fingerprint: seq<Text> -> Text, s: Stored) returns (r: Decoded)
    ensures r == Decode(fingerprint, s)
  {
    if !Shaped(s) { return Malformed; }
    var chunks, hashes, i := s.chunks.items, [], 0;
    while i < |chunks|
      invariant 0 <= i <= |chunks| && Scanned(chunks, i) == Hashes(hashes)
    {
      hide IsHash, SortedSet;
      var chunk := chunks[i];
      i := i + 1;
      if !chunk.ListValue? || !(1 <= |chunk.items| <= CHUNK_SIZE) { StaysWrong(chunks, i); return Malformed; }
      if i < |chunks| && |chunk.items| != CHUNK_SIZE { StaysWrong(chunks, i); return Incomplete; }
      if !AllHashes(chunk.items) { StaysWrong(chunks, i); return Malformed; }
      hashes := hashes + TextsOf(chunk.items);
    }
    if s.count.n != |hashes| || !SortedSet(hashes) || s.fingerprint.s != fingerprint(hashes) { return Incomplete; }
    return Hashes(hashes);
  }

  lemma {:induction false} StaysWrong(chunks: seq<Value>, n: nat)
    requires n <= |chunks| && !Scanned(chunks, n).Hashes?
    ensures Scanned(chunks, |chunks|) == Scanned(chunks, n)
    decreases |chunks| - n
  {
    if n < |chunks| { StaysWrong(chunks, n + 1); }
  }

  // ---------------------------------------------------------------- theorems

  ghost predicate ValidHashes(hashes: seq<Text>) { StrictlySorted(hashes) && forall i :: 0 <= i < |hashes| ==> IsHash(hashes[i]) }

  lemma {:induction false} SortedSetIff(hashes: seq<Text>)
    ensures SortedSet(hashes) <==> StrictlySorted(hashes)
  {
    if SortedSet(hashes) && hashes != [] {
      var init := hashes[..|hashes| - 1];
      SortedSetIff(init);
      forall i | 0 <= i < |init| ensures Less(hashes[i], hashes[|hashes| - 1]) {
        if i < |init| - 1 { LessTransitive(init[i], init[|init| - 1], hashes[|hashes| - 1]); }
      }
      hide Less;
      assert forall i, j :: 0 <= i < j < |hashes| - 1 ==> init[i] == hashes[i] && init[j] == hashes[j];
    }
  }

  /** A chunk list that the loop accepts, from chunk n on, is the chunking of the hashes from there. */
  ghost predicate Full(chunks: seq<Value>) {
    && (forall i :: 0 <= i < |chunks| ==> chunks[i].ListValue? && 1 <= |chunks[i].items| <= CHUNK_SIZE && AllHashes(chunks[i].items))
    && forall i :: 0 <= i < |chunks| - 1 ==> |chunks[i].items| == CHUNK_SIZE
  }

  function Joined(chunks: seq<Value>): seq<Text>
    requires Full(chunks)
  {
    if chunks == [] then [] else TextsOf(chunks[0].items) + Joined(chunks[1..])
  }

  lemma {:induction false} JoinedLast(chunks: seq<Value>)
    requires Full(chunks) && chunks != [] && Full(chunks[..|chunks| - 1])
    ensures Joined(chunks) == Joined(chunks[..|chunks| - 1]) + TextsOf(chunks[|chunks| - 1].items)
  {
    hide AllHashes;
    if |chunks| > 1 {
      assert chunks[1..][..|chunks| - 2] == chunks[..|chunks| - 1][1..];
      JoinedLast(chunks[1..]);
    }
  }

  lemma FullPrefix(chunks: seq<Value>, n: nat)
    requires n <= |chunks| && Full(chunks)
    ensures Full(chunks[..n])
  {
  }

  lemma {:induction false} ScannedJoined(chunks: seq<Value>, n: nat)
    requires n <= |chunks| && Full(chunks)
    ensures Full(chunks[..n]) && Scanned(chunks, n) == Hashes(Joined(chunks[..n]))
  {
    FullPrefix(chunks, n);
    if n > 0 {
      ScannedJoined(chunks, n - 1);
      assert chunks[..n][..n - 1] == chunks[..n - 1];
      JoinedLast(chunks[..n]);
      hide AllHashes, Joined;
    } else {
      assert chunks[..n] == [];
    }
  }

  lemma {:induction false} ScannedFull(chunks: seq<Value>, n: nat)
    requires n <= |chunks| && Scanned(chunks, n).Hashes?
    ensures forall i :: 0 <= i < n ==> chunks[i].ListValue? && 1 <= |chunks[i].items| <= CHUNK_SIZE && AllHashes(chunks[i].items)
    ensures forall i :: 0 <= i < n && i < |chunks| - 1 ==> |chunks[i].items| == CHUNK_SIZE
  {
    hide AllHashes;
    if n > 0 { ScannedFull(chunks, n - 1); }
  }

  /** There is one way to chunk a list. */
  lemma {:induction false} OneChunking(chunks: seq<Value>)
    requires Full(chunks)
    ensures Chunks(Joined(chunks)) == chunks
  {
    if chunks != [] {
      var first, rest := TextsOf(chunks[0].items), chunks[1..];
      OneChunking(rest);
      assert chunks[0].items == Texts(first);
      if rest == [] {
        assert Joined(chunks) == first;
      } else {
        assert Joined(rest) != [] by { assert |TextsOf(rest[0].items)| >= 1; }
        assert (first + Joined(rest))[..CHUNK_SIZE] == first && (first + Joined(rest))[CHUNK_SIZE..] == Joined(rest);
      }
      assert chunks == [chunks[0]] + rest;
    }
  }

  lemma {:induction false} ChunksFull(hashes: seq<Text>)
    requires forall i :: 0 <= i < |hashes| ==> IsHash(hashes[i])
    ensures Full(Chunks(hashes)) && Joined(Chunks(hashes)) == hashes && (Chunks(hashes) == [] <==> hashes == [])
  {
    hide IsHash;
    if |hashes| > CHUNK_SIZE {
      var first, rest := hashes[..CHUNK_SIZE], hashes[CHUNK_SIZE..];
      ChunksFull(rest);
      var all := [ListValue(Texts(first))] + Chunks(rest);
      assert forall i :: 0 <= i < |all| - 1 ==> all[i + 1] == Chunks(rest)[i];
      assert all[1..] == Chunks(rest);
      assert TextsOf(Texts(first)) == first;
      assert hashes == first + rest;
    } else if hashes != [] {
      var all := [ListValue(Texts(hashes))];
      assert TextsOf(Texts(hashes)) == hashes && all[1..] == [];
    }
  }

  /** A snapshot is accepted exactly if it is the snapshot of a strictly sorted list of hashes, which it then gives. */
  lemma DecodeIff(fingerprint: seq<Text> -> Text, s: Stored, hashes: seq<Text>)
    ensures Decode(fingerprint, s) == Hashes(hashes) <==> ValidHashes(hashes) && s == Encode(fingerprint, hashes)
  {
    hide IsHash, StrictlySorted, SortedSet, Chunks;
    SortedSetIff(hashes);
    if Decode(fingerprint, s) == Hashes(hashes) {
      var chunks := s.chunks.items;
      ScannedFull(chunks, |chunks|);
      assert Full(chunks);
      ScannedJoined(chunks, |chunks|);
      assert chunks[..|chunks|] == chunks;
      OneChunking(chunks);
      JoinedHashes(chunks);
    }
    if ValidHashes(hashes) && s == Encode(fingerprint, hashes) {
      ChunksFull(hashes);
      var chunks := Chunks(hashes);
      ScannedJoined(chunks, |chunks|);
      assert chunks[..|chunks|] == chunks;
    }
  }

  lemma {:induction false} JoinedHashes(chunks: seq<Value>)
    requires Full(chunks)
    ensures forall i :: 0 <= i < |Joined(chunks)| ==> IsHash(Joined(chunks)[i])
  {
    hide IsHash;
    if chunks != [] { JoinedHashes(chunks[1..]); }
  }

  /** The hashes of names, whatever their order and repetitions: sorted, and exactly those. */
  lemma {:induction false} SortedHashesAre(hash: Text -> Text, names: seq<Text>)
    requires forall name :: IsHash(hash(name))
    ensures ValidHashes(SortedHashes(hash, names))
    ensures forall h :: h in SortedHashes(hash, names) <==> exists i :: 0 <= i < |names| && hash(names[i]) == h
  {
    hide IsHash;
    if names != [] {
      SortedHashesAre(hash, names[1..]);
      InsertKeeps(hash(names[0]), SortedHashes(hash, names[1..]));
      hide StrictlySorted, Insert;
      forall h ensures h in SortedHashes(hash, names) <==> exists i :: 0 <= i < |names| && hash(names[i]) == h {
        if h in SortedHashes(hash, names[1..]) {
          var i :| 0 <= i < |names| - 1 && hash(names[1..][i]) == h;
          assert hash(names[i + 1]) == h;
        }
        if i :| 0 <= i < |names| && hash(names[i]) == h && i > 0 {
          assert hash(names[1..][i - 1]) == h;
        }
      }
      forall i | 0 <= i < |SortedHashes(hash, names)| ensures IsHash(SortedHashes(hash, names)[i]) {
        var h := SortedHashes(hash, names)[i];
        assert h in SortedHashes(hash, names);
        var k :| 0 <= k < |names| && hash(names[k]) == h;
      }
    }
  }

  /** Decoding a snapshot of names gives the sorted hashes back. */
  lemma SnapshotDecodes(hash: Text -> Text, fingerprint: seq<Text> -> Text, names: seq<Text>)
    requires forall name :: IsHash(hash(name))
    ensures Decode(fingerprint, Snapshot(hash, fingerprint, names)) == Hashes(SortedHashes(hash, names))
  {
    SortedHashesAre(hash, names);
    hide Decode, Encode, ValidHashes, SortedHashes, IsHash;
    DecodeIff(fingerprint, Snapshot(hash, fingerprint, names), SortedHashes(hash, names));
  }

  /** Where a chunk ends: after 32 hashes, or with the last. */
  function EndOf(n: nat, k: nat): nat { if 32 * k + 32 < n then 32 * k + 32 else n }

  lemma {:induction false} ChunkCount(hashes: seq<Text>)
    ensures 32 * |Chunks(hashes)| < |hashes| + 32 <= 32 * |Chunks(hashes)| + 32
  {
    if |hashes| > 32 { ChunkCount(hashes[32..]); }
  }

  lemma Slice(hashes: seq<Text>, a: nat, b: nat)
    requires 32 <= a <= b <= |hashes|
    ensures hashes[32..][a - 32..b - 32] == hashes[a..b]
  {
  }

  /** Every chunk holds the next 32 hashes, and the last one those that are left. */
  lemma {:induction false} ChunkAt(hashes: seq<Text>, k: nat)
    requires k < |Chunks(hashes)|
    ensures 32 * k < |hashes| && Chunks(hashes)[k] == ListValue(Texts(hashes[32 * k..EndOf(|hashes|, k)]))
    decreases k
  {
    ChunkCount(hashes);
    if k > 0 {
      ChunkAt(hashes[32..], k - 1);
      assert EndOf(|hashes| - 32, k - 1) == EndOf(|hashes|, k) - 32;
      Slice(hashes, 32 * k, EndOf(|hashes|, k));
    } else {
      assert hashes[0..|hashes|] == hashes;
    }
  }

  /** A text of 64 hexadecimal digits in lower case. */
  predicate HashText(v: Value) {
    v.TextValue? && |v.s| == 64 && forall c :: c in v.s ==> '0' as int <= c <= '9' as int || 'a' as int <= c <= 'f' as int
  }

  predicate ChunkFine(chunks: seq<Value>, k: nat)
    requires k < |chunks|
  {
    && chunks[k].ListValue? && 1 <= |chunks[k].items| <= 32 && (k + 1 < |chunks| ==> |chunks[k].items| == 32)
    && forall i :: 0 <= i < |chunks[k].items| ==> HashText(chunks[k].items[i])
  }

  /** The first chunk that is not fine is too short although others follow. */
  predicate ShortAt(chunks: seq<Value>, k: nat) {
    && k + 1 < |chunks| && chunks[k].ListValue? && 1 <= |chunks[k].items| < 32
    && forall j :: 0 <= j < k ==> ChunkFine(chunks, j)
  }

  lemma {:induction false} ScannedIs(chunks: seq<Value>, n: nat)
    requires n <= |chunks|
    ensures Scanned(chunks, n).Hashes? <==> forall k :: 0 <= k < n ==> ChunkFine(chunks, k)
    ensures Scanned(chunks, n).Incomplete? <==> exists k: nat :: k < n && ShortAt(chunks, k)
  {
    if n > 0 {
      ScannedIs(chunks, n - 1);
      var chunk := chunks[n - 1];
      if chunk.ListValue? { HashTextsIff(chunk.items); }
      hide AllHashes, HashText;
      if Scanned(chunks, n - 1).Hashes? {
        assert forall k: nat :: k < n - 1 ==> !ShortAt(chunks, k);
        assert ChunkFine(chunks, n - 1) <==> Scanned(chunks, n).Hashes?;
        assert ShortAt(chunks, n - 1) <==> Scanned(chunks, n).Incomplete?;
      } else {
        var j: nat :| j < n - 1 && !ChunkFine(chunks, j);
        assert !ShortAt(chunks, n - 1);
        assert j < n;
      }
    }
  }

  lemma HashTextsIff(items: seq<Value>)
    ensures AllHashes(items) <==> forall i :: 0 <= i < |items| ==> HashText(items[i])
  {
    forall i | 0 <= i < |items| ensures items[i].TextValue? && IsHash(items[i].s) <==> HashText(items[i]) {
      if HashText(items[i]) {
        assert forall k :: 0 <= k < 64 ==> items[i].s[k] in items[i].s;
      }
    }
  }

  predicate Disagrees(fingerprint: seq<Text> -> Text, s: Stored, hashes: seq<Text>)
    requires Shaped(s)
  {
    s.count.n != |hashes| || s.fingerprint.s != fingerprint(hashes) || exists i :: 0 <= i < |hashes| - 1 && !Less(hashes[i], hashes[i + 1])
  }

  /**
   * A stored snapshot is incomplete exactly if it has the right form and a chunk before the last is too short, or all
   * chunks are fine and number, order or fingerprint are wrong; every other refusal calls it malformed.
   */
  lemma IncompleteIff(fingerprint: seq<Text> -> Text, s: Stored)
    ensures Decode(fingerprint, s).Incomplete? <==>
      && s.Stored? && s.keys == {"chunks", "count", "fingerprint"} && s.chunks.ListValue? && s.count.IntValue? && s.count.n >= 0
      && s.fingerprint.TextValue?
      && var chunks := s.chunks.items;
        || (exists k: nat :: k < |chunks| && ShortAt(chunks, k))
        || exists hashes :: Scanned(chunks, |chunks|) == Hashes(hashes) && Disagrees(fingerprint, s, hashes)
  {
    if Shaped(s) {
      ScannedIs(s.chunks.items, |s.chunks.items|);
      hide Scanned, ChunkFine, ShortAt, Less;
    }
  }
}
