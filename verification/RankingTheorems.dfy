// What ranking may change: a score by at most a quarter of itself, and the order
// only as the adjusted scores say.
module RankingTheorems {
  import opened Ranking
  import opened Wrappers

  // ---------------------------------------------------------------- scores

  lemma ProductBounds(w: real, f: real)
    requires 0.0 <= w <= 0.25 && 0.0 <= f <= 1.0
    ensures 0.0 <= w * f <= 0.25
  {
    ScaleGrows(w, f, 1.0);
    ScaleGrows(w, 0.0, f);
    assert w * f <= w;
  }

  lemma DecayBounds(half: real -> real, s: Settings, m: Memory, created: Option<int>, now: int)
    requires s.Valid() && Halving(half)
    ensures 0.0 <= Decay(half, s, m, created, now) <= 0.25
  {
    var x := AgeDays(created, now) / s.halfLifeDays as real;
    assert x >= 0.0;
    ProductBounds(s.recencyWeight, 1.0 - half(x));
  }

  lemma FractionGrows(a: nat, b: nat)
    requires a <= b
    ensures 0.0 <= a as real / (a + 10) as real <= b as real / (b + 10) as real < 1.0
  {
    var p, q := a as real, b as real;
    assert (a + 10) as real == p + 10.0 && (b + 10) as real == q + 10.0;
    Complement(p);
    Complement(q);
    InverseShrinks(p + 10.0, q + 10.0);
  }

  lemma Complement(p: real)
    requires p >= 0.0
    ensures p / (p + 10.0) == 1.0 - 10.0 / (p + 10.0) && p / (p + 10.0) >= 0.0 && 10.0 / (p + 10.0) > 0.0
  {
  }

  lemma InverseShrinks(u: real, v: real)
    requires 0.0 < u <= v
    ensures 10.0 / v <= 10.0 / u
  {
    var r, t := 10.0 / u, 10.0 / v;
    assert r * u == 10.0 && t * v == 10.0 && r > 0.0;
    ScaleGrows(r, u, v);
    assert (r - t) * v == r * v - t * v;
    FactorSign(r - t, v);
  }

  lemma FactorSign(x: real, v: real)
    requires x * v >= 0.0 && v > 0.0
    ensures x >= 0.0
  {
  }

  lemma AccessBounds(s: Settings, count: nat)
    requires s.Valid()
    ensures 0.0 <= AccessBonus(s, count) <= 0.25
  {
    FractionGrows(count, count);
    ProductBounds(s.accessWeight, count as real / (count + 10) as real);
  }

  lemma ProductWithin(a: real, d: real, c: real)
    requires 0.0 <= a && -c <= d <= c
    ensures Abs(a * d) <= a * c
  {
    ScaleGrows(a, d, c);
    ScaleGrows(a, -c, d);
    assert a * -c == -(a * c);
  }

  lemma ShiftBounds(score: real, access: real, decay: real)
    requires 0.0 <= access <= 0.25 && 0.0 <= decay <= 0.25
    ensures Abs(RankScore(score, access, decay) - score) <= Abs(score) * 0.25
    ensures (score > 0.0 ==> RankScore(score, access, decay) > 0.0) && (score < 0.0 ==> RankScore(score, access, decay) < 0.0)
    ensures score == 0.0 ==> RankScore(score, access, decay) == 0.0
  {
    var a, d := Abs(score), access - decay;
    assert RankScore(score, access, decay) - score == a * d;
    ProductWithin(a, d, 0.25);
  }

  /** The rank score of an adjusted row. */
  function RankOf(half: real -> real, s: Settings, m: Memory, score: real, created: Option<int>, now: int): real
    requires s.halfLifeDays >= 1
  {
    RankScore(score, AccessBonus(s, m.accessCount), Decay(half, s, m, created, now))
  }

  /** The adjustment is at most a quarter of the score and keeps its sign. */
  lemma RankNearScore(half: real -> real, s: Settings, m: Memory, score: real, created: Option<int>, now: int)
    requires s.Valid() && Halving(half)
    ensures var r := RankOf(half, s, m, score, created, now);
      && Abs(r - score) <= Abs(score) * 0.25
      && (score > 0.0 ==> r > 0.0) && (score < 0.0 ==> r < 0.0) && (score == 0.0 ==> r == 0.0)
  {
    hide Decay, AccessBonus, RankScore;
    DecayBounds(half, s, m, created, now);
    AccessBounds(s, m.accessCount);
    ShiftBounds(score, AccessBonus(s, m.accessCount), Decay(half, s, m, created, now));
  }

  lemma DivideGrows(x: real, y: real, d: real)
    requires x <= y && d > 0.0
    ensures x / d <= y / d
  {
  }

  lemma AgeShrinks(older: int, newer: int, now: int)
    requires older <= newer
    ensures AgeDays(Some(newer), now) <= AgeDays(Some(older), now)
  {
    DivideGrows((now - newer) as real, (now - older) as real, SECONDS_PER_DAY as real);
  }

  lemma ScaleGrows(w: real, x: real, y: real)
    requires 0.0 <= w && x <= y
    ensures w * x <= w * y
  {
  }

  lemma DecayShrinks(half: real -> real, s: Settings, m: Memory, older: int, newer: int, now: int)
    requires s.Valid() && Halving(half) && older <= newer
    ensures Decay(half, s, m, Some(newer), now) <= Decay(half, s, m, Some(older), now)
  {
    var life := s.halfLifeDays as real;
    AgeShrinks(older, newer, now);
    DivideGrows(AgeDays(Some(newer), now), AgeDays(Some(older), now), life);
    DivideGrows(0.0, AgeDays(Some(newer), now), life);
    var x, y := AgeDays(Some(newer), now) / life, AgeDays(Some(older), now) / life;
    assert 0.0 <= x <= y;
    hide AgeDays;
    ScaleGrows(s.recencyWeight, 1.0 - half(x), 1.0 - half(y));
  }

  lemma AccessGrows(s: Settings, count: nat, uses: nat)
    requires s.Valid() && count <= uses
    ensures AccessBonus(s, count) <= AccessBonus(s, uses)
  {
    FractionGrows(count, uses);
    var x, y := count as real / (count + 10) as real, uses as real / (uses + 10) as real;
    ScaleGrows(s.accessWeight, x, y);
    assert AccessBonus(s, count) == s.accessWeight * x && AccessBonus(s, uses) == s.accessWeight * y;
  }

  /** A newer memory, or one used more, is ranked no lower at the same score. */
  lemma RankMonotone(half: real -> real, s: Settings, m: Memory, uses: nat, score: real, older: int, newer: int, now: int)
    requires s.Valid() && Halving(half) && older <= newer && m.accessCount <= uses
    ensures RankOf(half, s, m, score, Some(older), now) <= RankOf(half, s, m, score, Some(newer), now)
    ensures RankOf(half, s, m, score, Some(older), now) <= RankOf(half, s, m.(accessCount := uses), score, Some(older), now)
  {
    DecayShrinks(half, s, m, older, newer, now);
    AccessGrows(s, m.accessCount, uses);
    var a, b := AccessBonus(s, m.accessCount), AccessBonus(s, uses);
    var d, d2 := Decay(half, s, m, Some(older), now), Decay(half, s, m, Some(newer), now);
    assert Decay(half, s, m.(accessCount := uses), Some(older), now) == d;
    hide Decay, AccessBonus, Halving, RankScore;
    ShiftGrows(score, a, d, a, d2);
    ShiftGrows(score, a, d, b, d);
  }

  lemma ShiftGrows(score: real, a: real, d: real, b: real, e: real)
    requires a - d <= b - e
    ensures RankScore(score, a, d) <= RankScore(score, b, e)
  {
    ScaleGrows(Abs(score), a - d, b - e);
  }

  // ---------------------------------------------------------------- order

  ghost predicate Descending(rows: seq<Row>) { forall i, j :: 0 <= i < j < |rows| ==> AtLeast(rows[i], rows[j]) }

  predicate Tied(a: Row, b: Row) { AtLeast(a, b) && AtLeast(b, a) }

  /** The rows tied with one, in order. */
  function TiedWith(rows: seq<Row>, row: Row): seq<Row> {
    if rows == [] then [] else (if Tied(rows[0], row) then [rows[0]] else []) + TiedWith(rows[1..], row)
  }

  /** In descending order, with ties in their original order and nothing added or lost. */
  ghost predicate StableSort(rows: seq<Row>, sorted: seq<Row>) {
    Descending(sorted) && multiset(sorted) == multiset(rows) && forall row :: TiedWith(sorted, row) == TiedWith(rows, row)
  }

  lemma {:induction false} InsertKeeps(row: Row, sorted: seq<Row>)
    requires Descending(sorted)
    ensures Descending(Insert(row, sorted)) && multiset(Insert(row, sorted)) == multiset{row} + multiset(sorted)
    ensures forall other :: TiedWith(Insert(row, sorted), other) == TiedWith([row] + sorted, other)
  {
    if sorted == [] {
      assert [row] + sorted == [row];
    } else {
      assert sorted == [sorted[0]] + sorted[1..];
      if !AtLeast(row, sorted[0]) {
        InsertKeeps(row, sorted[1..]);
        var rest := Insert(row, sorted[1..]);
        forall j | 0 <= j < |rest| ensures AtLeast(sorted[0], rest[j]) {
          assert rest[j] in multiset(rest);
        }
        InsertTies(row, sorted);
      }
    }
  }

  lemma InsertTies(row: Row, sorted: seq<Row>)
    requires sorted != [] && !AtLeast(row, sorted[0])
    requires forall other :: TiedWith(Insert(row, sorted[1..]), other) == TiedWith([row] + sorted[1..], other)
    ensures forall other :: TiedWith(Insert(row, sorted), other) == TiedWith([row] + sorted, other)
  {
    var rest := Insert(row, sorted[1..]);
    assert Insert(row, sorted) == [sorted[0]] + rest;
    hide AtLeast, Insert, TiedWith, Tied;
    forall other ensures TiedWith([sorted[0]] + rest, other) == TiedWith([row] + sorted, other) {
      SwapTies(row, sorted[0], sorted[1..], rest, other);
      assert sorted == [sorted[0]] + sorted[1..];
    }
  }

  lemma SwapTies(row: Row, first: Row, tail: seq<Row>, rest: seq<Row>, other: Row)
    requires !AtLeast(row, first) && TiedWith(rest, other) == TiedWith([row] + tail, other)
    ensures TiedWith([first] + rest, other) == TiedWith([row] + ([first] + tail), other)
  {
    hide TiedWith, Tied;
    NotBothTied(row, first, other);
    TiedAfter(first, rest, other);
    TiedAfter(row, tail, other);
    TiedAfter(row, [first] + tail, other);
    TiedAfter(first, tail, other);
  }

  lemma NotBothTied(a: Row, b: Row, c: Row)
    requires !AtLeast(a, b)
    ensures !(Tied(a, c) && Tied(b, c))
  {
  }

  lemma TiedAfter(row: Row, rest: seq<Row>, other: Row)
    ensures TiedWith([row] + rest, other) == (if Tied(row, other) then [row] else []) + TiedWith(rest, other)
  {
    assert ([row] + rest)[1..] == rest;
  }

  /** The sort is stable and descending. */
  lemma {:induction false} SortedIs(rows: seq<Row>)
    ensures StableSort(rows, Sorted(rows))
  {
    if rows != [] {
      SortedIs(rows[1..]);
      InsertKeeps(rows[0], Sorted(rows[1..]));
      hide Descending, Insert, Tied;
      assert rows == [rows[0]] + rows[1..];
      forall other ensures TiedWith(Sorted(rows), other) == TiedWith(rows, other) {
        TiedAfter(rows[0], Sorted(rows[1..]), other);
      }
    }
  }

  /** No other sequence is. */
  lemma {:induction false} StableSortUnique(a: seq<Row>, b: seq<Row>)
    requires Descending(a) && Descending(b) && multiset(a) == multiset(b) && forall row :: TiedWith(a, row) == TiedWith(b, row)
    ensures a == b
    decreases |a|
  {
    assert |multiset(a)| == |a| == |multiset(b)| == |b|;
    if a != [] {
      FirstTied(a, b);
      assert a == [a[0]] + a[1..] && b == [b[0]] + b[1..];
      hide Tied, AtLeast, TiedWith;
      forall row ensures TiedWith(a[1..], row) == TiedWith(b[1..], row) { RestTied(a[0], a[1..], b[1..], row); }
      assert multiset(a[1..]) == multiset(a) - multiset{a[0]} && multiset(b[1..]) == multiset(b) - multiset{b[0]};
      StableSortUnique(a[1..], b[1..]);
    }
  }

  lemma FirstTied(a: seq<Row>, b: seq<Row>)
    requires Descending(a) && Descending(b) && multiset(a) == multiset(b) && forall row :: TiedWith(a, row) == TiedWith(b, row)
    requires a != [] && b != []
    ensures a[0] == b[0]
  {
    assert a[0] in multiset(b) && b[0] in multiset(a);
    assert Tied(a[0], b[0]);
    assert TiedWith(a, a[0])[0] == a[0] && TiedWith(b, a[0])[0] == b[0];
  }

  lemma RestTied(first: Row, a: seq<Row>, b: seq<Row>, row: Row)
    requires TiedWith([first] + a, row) == TiedWith([first] + b, row)
    ensures TiedWith(a, row) == TiedWith(b, row)
  {
    hide Tied, TiedWith;
    TiedAfter(first, a, row);
    TiedAfter(first, b, row);
    var start := if Tied(first, row) then [first] else [];
    assert TiedWith(a, row) == (start + TiedWith(a, row))[|start|..];
    assert TiedWith(b, row) == (start + TiedWith(b, row))[|start|..];
  }

  // ---------------------------------------------------------------- results

  /** A result row: an eligible candidate, with a rank score near its own score if it has one. */
  ghost predicate ResultRow(table: map<string, Memory>, controls: Controls, s: Settings, items: seq<Item>, row: Row) {
    && row.item in items && Eligible(table, controls, row.item)
    && (row.details.Some? <==> s.enabled && CountingScore(row.item).Some? && CountingScore(row.item).value.Number?)
    && (row.details.Some? ==>
          var score, rank := CountingScore(row.item).value.value, row.details.value.rankScore;
          Abs(rank - score) <= Abs(score) * 0.25 && (score > 0.0 ==> rank > 0.0) && (score < 0.0 ==> rank < 0.0))
  }

  lemma AdjustedIs(half: real -> real, table: map<string, Memory>, controls: Controls, s: Settings, items: seq<Item>, item: Item, now: int)
    requires s.Valid() && Halving(half) && item in items && Eligible(table, controls, item)
    ensures item.id in table && ResultRow(table, controls, s, items, Adjusted(half, s, table[item.id], item, now))
  {
    hide Visible, InDates, Decay, AccessBonus, RankScore, Halving;
    if CountingScore(item).Some? && CountingScore(item).value.Number? {
      RankNearScore(half, s, table[item.id], CountingScore(item).value.value, item.created, now);
    }
  }

  lemma {:induction false} SelectedAre(half: real -> real, table: map<string, Memory>, controls: Controls, s: Settings, items: seq<Item>, now: int)
    requires s.Valid() && Halving(half)
    ensures forall row :: row in Selected(half, table, controls, s, items, now) ==> ResultRow(table, controls, s, items, row)
    ensures forall item :: item in items && Eligible(table, controls, item) ==>
      exists row :: row in Selected(half, table, controls, s, items, now) && row.item == item
  {
    hide ResultRow, Eligible, Halving;
    if items != [] {
      var init, last := items[..|items| - 1], items[|items| - 1];
      SelectedAre(half, table, controls, s, init, now);
      forall row | row in Selected(half, table, controls, s, init, now) ensures ResultRow(table, controls, s, items, row) {
        MoreItems(table, controls, s, init, last, row);
        assert items == init + [last];
      }
      if Eligible(table, controls, last) { AdjustedIs(half, table, controls, s, items, last, now); }
    }
  }

  lemma MoreItems(table: map<string, Memory>, controls: Controls, s: Settings, items: seq<Item>, item: Item, row: Row)
    requires ResultRow(table, controls, s, items, row)
    ensures ResultRow(table, controls, s, items + [item], row)
  {
    hide Eligible, CountingScore;
  }

  /** What is cut off a descending sequence ranks no higher than what stays. */
  lemma CutIsTop(rows: seq<Row>, sorted: seq<Row>, limit: nat)
    requires StableSort(rows, sorted)
    ensures forall a, b :: a in Cut(sorted, limit) && b in sorted[|Cut(sorted, limit)|..] ==> AtLeast(a, b)
    ensures Cut(sorted, limit) <= sorted && |Cut(sorted, limit)| == if |rows| <= limit then |rows| else limit
  {
    assert |multiset(sorted)| == |sorted| && |multiset(rows)| == |rows|;
  }

  /**
   * Results are eligible candidates with rank scores near their own scores.  With a weight in force they are the top of
   * the stable descending sort; otherwise the first of the candidates in their order.
   */
  lemma RankedIs(half: real -> real, table: map<string, Memory>, controls: Controls, s: Settings, items: seq<Item>, now: int, limit: nat)
    requires s.Valid() && Halving(half)
    ensures var rows, r := Selected(half, table, controls, s, items, now), Ranked(half, table, controls, s, items, now, limit);
      && |r| == (if |rows| <= limit then |rows| else limit)
      && (forall row :: row in rows ==> ResultRow(table, controls, s, items, row))
      && (forall item :: item in items && Eligible(table, controls, item) ==> exists row :: row in rows && row.item == item)
      && if InForce(s) then
        && StableSort(rows, Sorted(rows)) && r <= Sorted(rows)
        && (forall a, b :: a in r && b in Sorted(rows)[|r|..] ==> AtLeast(a, b))
      else r <= rows
  {
    hide ResultRow, Sorted, AtLeast, Halving, Selected, Eligible;
    SelectedAre(half, table, controls, s, items, now);
    var rows := Selected(half, table, controls, s, items, now);
    SortedIs(rows);
    CutIsTop(rows, Sorted(rows), limit);
    hide StableSort;
  }

  // ---------------------------------------------------------------- rows without a score

  /** No row with a score of its own comes after one without. */
  ghost predicate UnscoredLast(rows: seq<Row>) { forall i, j :: 0 <= i < j < |rows| && rows[i].details.None? ==> rows[j].details.None? }

  /** An unscored row that sorting puts before a scored one: by its key, or as the earlier of two that are tied. */
  ghost predicate Overtakes(rows: seq<Row>, i: nat, k: nat) {
    && i < |rows| && k < |rows| && rows[i].details.None? && rows[k].details.Some?
    && AtLeast(rows[i], rows[k]) && (AtLeast(rows[k], rows[i]) ==> i < k)
  }

  /** Where a row comes to stand when others are sorted: behind those that are greater, or equal and earlier. */
  lemma {:induction false} InsertPlace(row: Row, sorted: seq<Row>)
    requires Descending(sorted)
    ensures exists p: nat :: InsertedAt(row, sorted, p, Insert(row, sorted))
  {
    if sorted == [] || AtLeast(row, sorted[0]) {
      assert InsertedAt(row, sorted, 0, Insert(row, sorted));
    } else {
      InsertPlace(row, sorted[1..]);
      var p: nat :| InsertedAt(row, sorted[1..], p, Insert(row, sorted[1..]));
      assert InsertedAt(row, sorted, p + 1, Insert(row, sorted)) by {
        hide AtLeast;
        assert sorted[..p + 1] == [sorted[0]] + sorted[1..][..p] && sorted[p + 1..] == sorted[1..][p..];
      }
    }
  }

  ghost predicate InsertedAt(row: Row, sorted: seq<Row>, p: nat, r: seq<Row>) {
    && p <= |sorted| && r == sorted[..p] + [row] + sorted[p..]
    && (forall k :: 0 <= k < p ==> !AtLeast(row, sorted[k])) && (p < |sorted| ==> AtLeast(row, sorted[p]))
  }

  /** What may not be between two rows, the first of which is sorted in: one may not overtake the other. */
  predicate InOrder(row: Row, x: Row) {
    && (row.details.None? && x.details.Some? ==> !AtLeast(row, x))
    && (row.details.Some? && x.details.None? ==> AtLeast(row, x))
  }

  /** Rows before the place are greater; rows from there on are not. */
  lemma PlaceDecides(row: Row, sorted: seq<Row>, p: nat, r: seq<Row>)
    requires Descending(sorted) && InsertedAt(row, sorted, p, r)
    ensures |r| == |sorted| + 1 && r[p] == row
    ensures forall k :: 0 <= k < p ==> r[k] == sorted[k] && !AtLeast(row, sorted[k])
    ensures forall k :: p <= k < |sorted| ==> r[k + 1] == sorted[k] && AtLeast(row, sorted[k])
  {
    forall k | p <= k < |sorted| ensures AtLeast(row, sorted[k]) {
      if k > p { assert AtLeast(sorted[p], sorted[k]); }
    }
  }

  lemma UnscoredSplit(row: Row, sorted: seq<Row>, p: nat, r: seq<Row>)
    requires p <= |sorted| && |r| == |sorted| + 1 && r[p] == row
    requires (forall k :: 0 <= k < p ==> r[k] == sorted[k]) && forall k :: p <= k < |sorted| ==> r[k + 1] == sorted[k]
    ensures UnscoredLast(r) <==>
      && UnscoredLast(sorted)
      && (row.details.Some? ==> forall k :: 0 <= k < p ==> sorted[k].details.Some?)
      && (row.details.None? ==> forall k :: p <= k < |sorted| ==> sorted[k].details.None?)
  {
    if UnscoredLast(r) {
      forall i, j | 0 <= i < j < |sorted| && sorted[i].details.None? ensures sorted[j].details.None? {
        assert r[if i < p then i else i + 1] == sorted[i] && r[if j < p then j else j + 1] == sorted[j];
      }
      forall k | 0 <= k < p && row.details.Some? ensures sorted[k].details.Some? { assert r[k] == sorted[k]; }
      forall k | p <= k < |sorted| && row.details.None? ensures sorted[k].details.None? { assert r[k + 1] == sorted[k]; }
    } else {
      var i, j :| 0 <= i < j < |r| && r[i].details.None? && r[j].details.Some?;
      if i == p {
        assert r[j] == sorted[j - 1];
      } else if j == p {
        assert r[i] == sorted[i];
      } else {
        assert r[i] == sorted[if i < p then i else i - 1] && r[j] == sorted[if j < p then j else j - 1];
      }
    }
  }

  /** One more row in front keeps unscored rows last exactly if it neither overtakes nor is overtaken. */
  lemma InsertUnscored(row: Row, sorted: seq<Row>)
    requires Descending(sorted)
    ensures UnscoredLast(Insert(row, sorted)) <==> UnscoredLast(sorted) && forall x :: x in sorted ==> InOrder(row, x)
  {
    InsertPlace(row, sorted);
    hide *;
    var p: nat :| InsertedAt(row, sorted, p, Insert(row, sorted));
    var r := Insert(row, sorted);
    assert p <= |sorted| by { InsertedWithin(row, sorted, p, r); }
    PlaceDecides(row, sorted, p, r);
    UnscoredSplit(row, sorted, p, r);
    PlaceOrders(row, sorted, p);
  }

  lemma InsertedWithin(row: Row, sorted: seq<Row>, p: nat, r: seq<Row>)
    requires InsertedAt(row, sorted, p, r)
    ensures p <= |sorted|
  {
  }

  lemma PlaceOrders(row: Row, sorted: seq<Row>, p: nat)
    requires p <= |sorted| && (forall k :: 0 <= k < p ==> !AtLeast(row, sorted[k])) && forall k :: p <= k < |sorted| ==> AtLeast(row, sorted[k])
    ensures (forall x :: x in sorted ==> InOrder(row, x)) <==>
      && (row.details.Some? ==> forall k :: 0 <= k < p ==> sorted[k].details.Some?)
      && (row.details.None? ==> forall k :: p <= k < |sorted| ==> sorted[k].details.None?)
  {
    hide AtLeast;
    if forall x :: x in sorted ==> InOrder(row, x) {
      forall k | 0 <= k < |sorted| ensures InOrder(row, sorted[k]) { assert sorted[k] in sorted; }
    }
  }

  /** Sorting puts unscored rows last exactly if none of them overtakes a scored one. */
  lemma {:induction false} UnscoredLastIff(rows: seq<Row>)
    ensures UnscoredLast(Sorted(rows)) <==> forall i, k :: !Overtakes(rows, i, k)
  {
    hide AtLeast;
    if rows != [] {
      var row, rest := rows[0], rows[1..];
      SortedIs(rest);
      InsertUnscored(row, Sorted(rest));
      UnscoredLastIff(rest);
      forall x ensures x in Sorted(rest) <==> x in rest { assert x in multiset(Sorted(rest)) <==> x in multiset(rest); }
      hide Insert, Sorted, UnscoredLast, StableSort;
      OvertakesRest(rows);
    }
  }

  lemma OvertakesRest(rows: seq<Row>)
    requires rows != []
    ensures (forall i, k :: !Overtakes(rows, i, k)) <==>
      && (forall i, k :: !Overtakes(rows[1..], i, k))
      && forall x :: x in rows[1..] ==> InOrder(rows[0], x)
  {
    var rest := rows[1..];
    forall i: nat, k: nat ensures Overtakes(rest, i, k) <==> i < |rest| && k < |rest| && Overtakes(rows, i + 1, k + 1) {
      if i < |rest| && k < |rest| { assert rest[i] == rows[i + 1] && rest[k] == rows[k + 1]; }
    }
    forall k: nat | k < |rest|
      ensures Overtakes(rows, 0, k + 1) <==> rows[0].details.None? && rest[k].details.Some? && AtLeast(rows[0], rest[k])
      ensures Overtakes(rows, k + 1, 0) <==> rows[0].details.Some? && rest[k].details.None? && !AtLeast(rows[0], rest[k])
    {
      assert AtLeast(rows[0], rest[k]) || AtLeast(rest[k], rows[0]);
    }
    hide AtLeast;
    if forall i, k :: !Overtakes(rows, i, k) {
      forall x | x in rest ensures InOrder(rows[0], x) {
        var k: nat :| k < |rest| && rest[k] == x;
        assert !Overtakes(rows, 0, k + 1) && !Overtakes(rows, k + 1, 0);
      }
    } else {
      var i: nat, k: nat :| Overtakes(rows, i, k);
      assert i != k;
      if i > 0 && k > 0 {
        assert Overtakes(rest, i - 1, k - 1);
      } else if i == 0 {
        assert rest[k - 1] in rest;
      } else {
        assert rest[i - 1] in rest;
      }
    }
  }

  /** Unless an unscored candidate brings a rank score along, unscored rows come last, for every order and limit. */
  lemma UnrankedLast(half: real -> real, table: map<string, Memory>, controls: Controls, s: Settings, items: seq<Item>, now: int, limit: nat)
    requires s.Valid() && Halving(half) && InForce(s)
    requires forall item :: item in items && Eligible(table, controls, item) && item.givenRank.Some? ==>
      CountingScore(item).Some? && CountingScore(item).value.Number?
    ensures UnscoredLast(Ranked(half, table, controls, s, items, now, limit))
  {
    var rows := Selected(half, table, controls, s, items, now);
    SelectedAre(half, table, controls, s, items, now);
    hide Selected, Sorted, Eligible, Halving;
    forall row | row in rows && row.details.None? ensures SortKey(row).None? {
      assert ResultRow(table, controls, s, items, row);
    }
    assert forall i: nat, k: nat :: !Overtakes(rows, i, k);
    UnscoredLastIff(rows);
  }

  /** A memory whose rank score is the score itself. */
  const EVERGREEN := Memory(false, true, None, true, false, false, 0, None)

  predicate Unscored(u: Item) { CountingScore(u).None? || !CountingScore(u).value.Number? }

  /** Two candidates, both visible, of which only the second has a score. */
  ghost predicate Pair(table: map<string, Memory>, u: Item, v: Item) {
    && Eligible(table, Controls(true, None, None), u) && Eligible(table, Controls(true, None, None), v)
    && Unscored(u) && CountingScore(v).Some? && CountingScore(v).value.Number?
  }

  lemma SelectedPair(half: real -> real, table: map<string, Memory>, s: Settings, u: Item, v: Item, now: int)
    requires s.halfLifeDays >= 1 && s.enabled && Pair(table, u, v)
    ensures var rows := Selected(half, table, Controls(true, None, None), s, [u, v], now);
      |rows| == 2 && rows[0] == Row(u, None) && rows[1] == Adjusted(half, s, table[v.id], v, now) && rows[1].details.Some?
  {
    var c := Controls(true, None, None);
    assert [u, v][..1] == [u] && [u][..0] == [];
    assert Selected(half, table, c, s, [u], now) == [Row(u, None)];
    hide Decay, AccessBonus, RankScore, InDates, Visible;
  }

  /** Whether an unscored candidate comes behind every scored one, whatever that one and its memory are. */
  ghost predicate AlwaysBehind(half: real -> real, s: Settings, u: Item)
    requires s.halfLifeDays >= 1
  {
    forall table, v, now | Pair(table, u, v) :: UnscoredLast(Ranked(half, table, Controls(true, None, None), s, [u, v], now, 2))
  }

  /**
   * An unscored candidate comes behind every scored one exactly if it brings no rank score along: one with rank score 9
   * goes before any candidate of a memory that is evergreen and never used, and whose score is 8.
   */
  lemma BehindIff(half: real -> real, s: Settings, u: Item)
    requires s.Valid() && Halving(half) && InForce(s) && Unscored(u)
    requires u.givenRank.Some? ==> u.givenRank.value.Comparable?
    ensures AlwaysBehind(half, s, u) <==> u.givenRank.None?
  {
    if u.givenRank.None? {
      forall table, v, now | Pair(table, u, v) ensures UnscoredLast(Ranked(half, table, Controls(true, None, None), s, [u, v], now, 2)) {
        UnrankedLast(half, table, Controls(true, None, None), s, [u, v], now, 2);
      }
    } else {
      var g := u.givenRank.value.value;
      var v := Item(u.id + "'", None, Some(Number(g - 1.0)), None, None, "");
      var table := map[u.id := EVERGREEN, v.id := EVERGREEN];
      assert Pair(table, u, v);
      SelectedPair(half, table, s, u, v, 0);
      EvergreenRank(half, s, v, g - 1.0, 0);
      var rows := Selected(half, table, Controls(true, None, None), s, [u, v], 0);
      assert Overtakes(rows, 0, 1);
      UnscoredLastIff(rows);
      CutPair(rows);
      assert Ranked(half, table, Controls(true, None, None), s, [u, v], 0, 2) == Sorted(rows);
    }
  }

  lemma CutPair(rows: seq<Row>)
    requires |rows| == 2
    ensures Cut(Sorted(rows), 2) == Sorted(rows)
  {
    SortedIs(rows);
    assert |multiset(Sorted(rows))| == |Sorted(rows)| && |multiset(rows)| == 2;
  }

  lemma EvergreenRank(half: real -> real, s: Settings, v: Item, score: real, now: int)
    requires s.halfLifeDays >= 1 && s.enabled && CountingScore(v) == Some(Number(score))
    ensures Adjusted(half, s, EVERGREEN, v, now).details.Some? && Adjusted(half, s, EVERGREEN, v, now).details.value.rankScore == score
  {
    assert AccessBonus(s, 0) == 0.0;
  }
}
