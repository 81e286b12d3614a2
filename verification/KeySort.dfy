// Sorting by a key that is a tuple of strings, compared as Python compares tuples.
module KeySort {
  import opened Utf8

  type Key = seq<Text>

  predicate KeyLess(a: Key, b: Key) {
    if b == [] then false else if a == [] then true else if a[0] != b[0] then Less(a[0], b[0]) else KeyLess(a[1..], b[1..])
  }

  /** The keys agree up to position `k`, where `a` ends or has the smaller text. */
  predicate KeyFirstDiffers(a: Key, b: Key, k: nat) {
    k <= |a| && k < |b| && a[..k] == b[..k] && (k == |a| || Less(a[k], b[k]))
  }

  lemma DiffersLater(a: Key, b: Key, k: nat)
    requires a != [] && b != [] && a[0] == b[0]
    ensures KeyFirstDiffers(a[1..], b[1..], k) <==> KeyFirstDiffers(a, b, k + 1)
    ensures !KeyFirstDiffers(a, b, 0)
  {
    LessTotal(a[0], b[0]);
    hide Less;
    if k <= |a[1..]| && k <= |b[1..]| {
      assert a[..k + 1] == [a[0]] + a[1..][..k] && b[..k + 1] == [b[0]] + b[1..][..k];
      assert a[1..][..k] == a[..k + 1][1..] && b[1..][..k] == b[..k + 1][1..];
    }
  }

  lemma DiffersFirst(a: Key, b: Key, k: nat)
    requires k > 0 && b != [] && (a == [] || a[0] != b[0])
    ensures !KeyFirstDiffers(a, b, k)
  {
    hide Less;
    if k <= |a| && k < |b| { assert a[..k][0] == a[0] && b[..k][0] == b[0]; }
  }

  /** Keys come in the order of their first differing texts, and a key that is cut short comes first. */
  lemma {:induction false} KeyLessIff(a: Key, b: Key)
    ensures KeyLess(a, b) <==> exists k: nat :: KeyFirstDiffers(a, b, k)
  {
    if a != [] && b != [] && a[0] == b[0] {
      hide KeyFirstDiffers, Less;
      KeyLessIff(a[1..], b[1..]);
      if k: nat :| KeyFirstDiffers(a[1..], b[1..], k) {
        DiffersLater(a, b, k);
      } else if k: nat :| KeyFirstDiffers(a, b, k) {
        DiffersLater(a, b, if k == 0 then 0 else k - 1);
      }
    } else if b != [] {
      hide Less;
      assert KeyLess(a, b) <==> KeyFirstDiffers(a, b, 0);
      forall k: nat | k > 0 ensures !KeyFirstDiffers(a, b, k) { DiffersFirst(a, b, k); }
    }
  }

  lemma {:induction false} KeyLessTransitive(a: Key, b: Key, c: Key)
    requires KeyLess(a, b) && KeyLess(b, c)
    ensures KeyLess(a, c)
  {
    if a != [] {
      if a[0] == b[0] == c[0] {
        KeyLessTransitive(a[1..], b[1..], c[1..]);
      } else if a[0] != b[0] && b[0] != c[0] {
        LessTransitive(a[0], b[0], c[0]);
        LessTotal(a[0], b[0]);
        LessTotal(b[0], c[0]);
        LessTotal(a[0], c[0]);
      }
    }
  }

  lemma {:induction false} KeyLessTotal(a: Key, b: Key)
    ensures KeyLess(a, b) || a == b || KeyLess(b, a)
    ensures !(KeyLess(a, b) && KeyLess(b, a))
  {
    if a != [] && b != [] {
      LessTotal(a[0], b[0]);
      KeyLessTotal(a[1..], b[1..]);
      assert a == [a[0]] + a[1..] && b == [b[0]] + b[1..];
    }
  }

  lemma KeyLessNotSelf(a: Key)
    ensures !KeyLess(a, a)
  {
    KeyLessTotal(a, a);
  }

  function InsertBy<T>(key: T -> Key, x: T, sorted: seq<T>): seq<T> {
    if sorted == [] then [x]
    else if KeyLess(key(sorted[0]), key(x)) then [sorted[0]] + InsertBy(key, x, sorted[1..])
    else [x] + sorted
  }

  function SortBy<T>(key: T -> Key, xs: seq<T>): seq<T> {
    if xs == [] then [] else InsertBy(key, xs[0], SortBy(key, xs[1..]))
  }

  lemma {:induction false} InsertByElements<T>(key: T -> Key, x: T, sorted: seq<T>)
    ensures multiset(InsertBy(key, x, sorted)) == multiset{x} + multiset(sorted)
  {
    if sorted != [] {
      assert sorted == [sorted[0]] + sorted[1..];
      InsertByElements(key, x, sorted[1..]);
    }
  }

  lemma {:induction false} SortByElements<T>(key: T -> Key, xs: seq<T>)
    ensures multiset(SortBy(key, xs)) == multiset(xs)
  {
    if xs != [] {
      assert xs == [xs[0]] + xs[1..];
      SortByElements(key, xs[1..]);
      InsertByElements(key, xs[0], SortBy(key, xs[1..]));
    }
  }

  ghost predicate KeysAscend<T(!new)>(key: T -> Key, xs: seq<T>) { forall i, j :: 0 <= i < j < |xs| ==> KeyLess(key(xs[i]), key(xs[j])) }

  ghost predicate KeysDiffer<T(!new)>(key: T -> Key, xs: seq<T>) { forall i, j :: 0 <= i < j < |xs| ==> key(xs[i]) != key(xs[j]) }

  lemma {:induction false} InsertByKeeps<T(!new)>(key: T -> Key, x: T, sorted: seq<T>)
    requires KeysAscend(key, sorted) && forall y :: y in sorted ==> key(y) != key(x)
    ensures KeysAscend(key, InsertBy(key, x, sorted)) && multiset(InsertBy(key, x, sorted)) == multiset{x} + multiset(sorted)
  {
    if sorted != [] {
      assert sorted == [sorted[0]] + sorted[1..];
      if KeyLess(key(sorted[0]), key(x)) {
        InsertByKeeps(key, x, sorted[1..]);
        var rest := InsertBy(key, x, sorted[1..]);
        hide KeyLess, InsertBy;
        forall j | 0 <= j < |rest| ensures KeyLess(key(sorted[0]), key(rest[j])) { assert rest[j] in multiset(rest); }
      } else {
        KeyLessTotal(key(x), key(sorted[0]));
        hide KeyLess, InsertBy;
        forall j | 0 <= j < |sorted| ensures KeyLess(key(x), key(sorted[j])) {
          if j > 0 { KeyLessTransitive(key(x), key(sorted[0]), key(sorted[j])); }
        }
      }
    }
  }

  /** Sorting puts the same elements in ascending order, if their keys differ. */
  lemma {:induction false} SortByIs<T(!new)>(key: T -> Key, xs: seq<T>)
    requires KeysDiffer(key, xs)
    ensures KeysAscend(key, SortBy(key, xs)) && multiset(SortBy(key, xs)) == multiset(xs)
  {
    if xs != [] {
      SortByIs(key, xs[1..]);
      assert xs == [xs[0]] + xs[1..];
      var rest := SortBy(key, xs[1..]);
      forall y | y in rest ensures key(y) != key(xs[0]) {
        assert y in multiset(rest) && y in xs[1..];
      }
      hide KeysAscend, InsertBy;
      InsertByKeeps(key, xs[0], rest);
    }
  }

  lemma SameFirst<T(!new)>(key: T -> Key, a: seq<T>, b: seq<T>)
    requires KeysAscend(key, a) && KeysAscend(key, b) && multiset(a) == multiset(b) && a != [] && b != []
    ensures a[0] == b[0]
  {
    hide KeyLess;
    assert a[0] in multiset(b) && b[0] in multiset(a);
    KeyLessTotal(key(a[0]), key(b[0]));
  }

  /** Ascending sequences of the same elements are equal. */
  lemma {:induction false} AscendingUnique<T(!new)>(key: T -> Key, a: seq<T>, b: seq<T>)
    requires KeysAscend(key, a) && KeysAscend(key, b) && multiset(a) == multiset(b)
    ensures a == b
  {
    hide KeyLess;
    assert |multiset(a)| == |a| && |multiset(b)| == |b|;
    if a != [] {
      SameFirst(key, a, b);
      assert a == [a[0]] + a[1..] && b == [b[0]] + b[1..];
      assert multiset(a[1..]) == multiset(a) - multiset{a[0]} && multiset(b[1..]) == multiset(b) - multiset{b[0]};
      AscendingUnique(key, a[1..], b[1..]);
    }
  }

  lemma AscendDiffer<T(!new)>(key: T -> Key, xs: seq<T>)
    requires KeysAscend(key, xs)
    ensures KeysDiffer(key, xs)
  {
    hide KeyLess;
    forall i, j | 0 <= i < j < |xs| ensures key(xs[i]) != key(xs[j]) { KeyLessNotSelf(key(xs[i])); }
  }

  lemma {:induction false} DifferSameMultiset<T(!new)>(key: T -> Key, a: seq<T>, b: seq<T>)
    requires KeysDiffer(key, a) && multiset(a) == multiset(b)
    ensures KeysDiffer(key, b)
  {
    forall i, j | 0 <= i < j < |b| ensures key(b[i]) != key(b[j]) {
      if key(b[i]) == key(b[j]) {
        assert b[i] in multiset(a) && b[j] in multiset(a);
        assert b[i] == b[j];
        TwiceIn(b, i, j);
        OnceIn(key, a, b[i]);
      }
    }
  }

  lemma TwiceIn<T>(xs: seq<T>, i: nat, j: nat)
    requires i < j < |xs| && xs[i] == xs[j]
    ensures multiset(xs)[xs[i]] >= 2
  {
    assert xs == xs[..j] + [xs[j]] + xs[j + 1..];
    assert xs[i] in xs[..j];
  }

  lemma {:induction false} OnceIn<T(!new)>(key: T -> Key, xs: seq<T>, x: T)
    requires KeysDiffer(key, xs)
    ensures multiset(xs)[x] <= 1
  {
    if xs != [] {
      assert xs == [xs[0]] + xs[1..];
      OnceIn(key, xs[1..], x);
      if xs[0] == x { assert x !in xs[1..]; }
    }
  }
}
