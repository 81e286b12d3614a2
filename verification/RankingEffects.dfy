// What ranking does to a candidate, said of its fields: who is eligible, how age
// and use move a score, strictly, and what is counted as a use.
module RankingEffects {
  import opened Ranking
  import opened RankingTheorems
  import opened Wrappers

  // ---------------------------------------------------------------- eligibility

  /** The memory is known and not deleted, active if asked for, and has its date within the bounds if there are any. */
  lemma EligibleIff(table: map<string, Memory>, controls: Controls, item: Item)
    ensures Eligible(table, controls, item) <==>
      && item.id in table && !table[item.id].deleted && (controls.currentOnly ==> table[item.id].active)
      && var date := table[item.id].eventDate;
        && (controls.eventFrom.Some? ==> date.Some? && controls.eventFrom.value <= date.value)
        && (controls.eventTo.Some? ==> date.Some? && date.value <= controls.eventTo.value)
  {
  }

  /** A score counts if it is a number; a rerank score that is there goes before the other, whatever it holds. */
  function Counts(item: Item): Option<real> {
    var score := if item.rerankScore.Some? then item.rerankScore else item.score;
    if score.Some? && score.value.Number? then Some(score.value.value) else None
  }

  // ---------------------------------------------------------------- use

  lemma FractionStrict(a: nat, b: nat)
    requires a < b
    ensures a as real / (a + 10) as real < b as real / (b + 10) as real
  {
    var p, q := a as real, b as real;
    assert (a + 10) as real == p + 10.0 && (b + 10) as real == q + 10.0;
    Complement(p);
    Complement(q);
    InverseStrict(p + 10.0, q + 10.0);
  }

  lemma InverseStrict(u: real, v: real)
    requires 0.0 < u < v
    ensures 10.0 / v < 10.0 / u
  {
    var r, t := 10.0 / u, 10.0 / v;
    assert r * u == 10.0 && t * v == 10.0 && t > 0.0;
    if r <= t {
      ScaleStrict(t, u, v);
      ScaleGrowsRight(u, r, t);
    }
  }

  lemma ScaleStrict(w: real, x: real, y: real)
    requires 0.0 < w && x < y
    ensures w * x < w * y
  {
  }

  lemma ScaleGrowsRight(u: real, r: real, t: real)
    requires 0.0 < u && r <= t
    ensures r * u <= t * u
  {
  }

  /** The bonus is nothing for a memory never used, grows with every use if it has a weight, and stays below the weight. */
  lemma BonusGrows(s: Settings, a: nat, b: nat)
    requires s.Valid() && a < b
    ensures AccessBonus(s, 0) == 0.0
    ensures s.accessWeight > 0.0 ==> AccessBonus(s, a) < AccessBonus(s, b) < s.accessWeight
    ensures s.accessWeight == 0.0 ==> AccessBonus(s, b) == 0.0
  {
    FractionStrict(a, b);
    FractionGrows(b, b);
    var x, y := a as real / (a + 10) as real, b as real / (b + 10) as real;
    if s.accessWeight > 0.0 {
      ScaleStrict(s.accessWeight, x, y);
      ScaleStrict(s.accessWeight, y, 1.0);
    }
    assert AccessBonus(s, a) == s.accessWeight * x && AccessBonus(s, b) == s.accessWeight * y;
  }

  /** Half of the bonus is reached with ten uses. */
  lemma HalfwayAtTen(s: Settings)
    ensures AccessBonus(s, 10) == s.accessWeight * 0.5
  {
  }

  // ---------------------------------------------------------------- age

  /** What two to the power of minus x satisfies besides: it is one at zero, a half at one, and falls strictly. */
  ghost predicate StrictlyHalving(half: real -> real) {
    Halving(half) && half(0.0) == 1.0 && half(1.0) == 0.5 && forall x, y :: 0.0 <= x < y ==> half(y) < half(x)
  }

  lemma DivideStrict(x: real, y: real, d: real)
    requires x < y && d > 0.0
    ensures x / d < y / d
  {
  }

  /** The age in half-lives. */
  function Lives(s: Settings, created: int, now: int): real
    requires s.halfLifeDays >= 1
  {
    AgeDays(Some(created), now) / s.halfLifeDays as real
  }

  lemma AgesApart(s: Settings, older: int, newer: int, now: int)
    requires s.Valid() && older < newer <= now
    ensures 0.0 <= Lives(s, newer, now) < Lives(s, older, now)
  {
    var life := s.halfLifeDays as real;
    DivideStrict((now - newer) as real, (now - older) as real, SECONDS_PER_DAY as real);
    var a, b := AgeDays(Some(newer), now), AgeDays(Some(older), now);
    assert 0.0 <= a < b;
    DivideStrict(a, b, life);
    DivideGrows(0.0, a, life);
  }

  function Penalty(w: real, h: real): real { w * (1.0 - h) }

  lemma PenaltyAt(w: real, g: real, h: real)
    requires w > 0.0 && 0.0 < h < g
    ensures Penalty(w, g) < Penalty(w, h) < w
  {
    ScaleStrict(w, 1.0 - g, 1.0 - h);
    ScaleStrict(w, 1.0 - h, 1.0);
  }

  lemma HalvesApart(half: real -> real, x: real, y: real)
    requires StrictlyHalving(half) && 0.0 <= x < y
    ensures 0.0 < half(y) < half(x)
  {
  }

  lemma NoAge(half: real -> real, s: Settings, m: Memory, now: int)
    requires s.Valid() && StrictlyHalving(half)
    ensures Decay(half, s, m, Some(now), now) == 0.0 && Decay(half, s, m, None, now) == 0.0
  {
    assert 0.0 / s.halfLifeDays as real == 0.0;
  }

  /** The penalty is nothing for a pinned or evergreen memory and one from now or later; otherwise it grows with age. */
  lemma PenaltyGrows(half: real -> real, s: Settings, m: Memory, older: int, newer: int, now: int)
    requires s.Valid() && StrictlyHalving(half) && older < newer <= now
    ensures m.pinned || m.evergreenFlag || m.evergreenType ==> Decay(half, s, m, Some(older), now) == 0.0
    ensures Decay(half, s, m, Some(now), now) == 0.0 && Decay(half, s, m, None, now) == 0.0
    ensures !(m.pinned || m.evergreenFlag || m.evergreenType) && s.recencyWeight > 0.0 ==>
      Decay(half, s, m, Some(newer), now) < Decay(half, s, m, Some(older), now) < s.recencyWeight
  {
    hide Decay, StrictlyHalving, AgeDays, Penalty, Lives;
    NoAge(half, s, m, now);
    if m.pinned || m.evergreenFlag || m.evergreenType {
      EvergreenFree(half, s, m, older, now);
    } else if s.recencyWeight > 0.0 {
      AgesApart(s, older, newer, now);
      var x, y := Lives(s, newer, now), Lives(s, older, now);
      HalvesApart(half, x, y);
      PenaltyAt(s.recencyWeight, half(x), half(y));
      PenaltyIs(half, s, m, newer, now);
      PenaltyIs(half, s, m, older, now);
    }
  }

  lemma EvergreenFree(half: real -> real, s: Settings, m: Memory, created: int, now: int)
    requires s.halfLifeDays >= 1 && (m.pinned || m.evergreenFlag || m.evergreenType)
    ensures Decay(half, s, m, Some(created), now) == 0.0
  {
  }

  lemma PenaltyIs(half: real -> real, s: Settings, m: Memory, created: int, now: int)
    requires s.halfLifeDays >= 1 && !(m.pinned || m.evergreenFlag || m.evergreenType)
    ensures Decay(half, s, m, Some(created), now) == Penalty(s.recencyWeight, half(Lives(s, created, now)))
  {
  }

  /** Half of the penalty is reached after a half-life. */
  lemma HalfwayAtHalfLife(half: real -> real, s: Settings, m: Memory, now: int)
    requires s.Valid() && StrictlyHalving(half) && !(m.pinned || m.evergreenFlag || m.evergreenType)
    ensures Decay(half, s, m, Some(now - s.halfLifeDays * 24 * 60 * 60), now) == s.recencyWeight * 0.5
  {
    var created := now - s.halfLifeDays * SECONDS_PER_DAY;
    var life := s.halfLifeDays as real;
    assert (now - created) as real == life * SECONDS_PER_DAY as real;
    assert AgeDays(Some(created), now) == life;
    assert life / life == 1.0;
  }

  // ---------------------------------------------------------------- the score

  /**
   * An adjusted score is the score, moved by its own size times bonus minus penalty: more used and newer is better, for
   * scores of either sign.  Without a score that counts, or with ranking off, the row is left as it is.
   */
  lemma AdjustedBy(half: real -> real, s: Settings, m: Memory, item: Item, now: int)
    requires s.Valid()
    ensures var row := Adjusted(half, s, m, item, now);
      && row.item == item && (row.details.Some? <==> s.enabled && Counts(item).Some?)
      && (row.details.Some? ==>
            var d, score := row.details.value, Counts(item).value;
            && d.accessBonus == AccessBonus(s, m.accessCount) && d.recencyPenalty == Decay(half, s, m, item.created, now)
            && d.evergreen == (m.pinned || m.evergreenFlag || m.evergreenType)
            && d.rankScore == score + (if score < 0.0 then -score else score) * (d.accessBonus - d.recencyPenalty))
  {
    hide Decay, AccessBonus;
  }

  lemma ShiftStrict(score: real, a: real, d: real, b: real, e: real)
    requires a - d < b - e && score != 0.0
    ensures RankScore(score, a, d) < RankScore(score, b, e)
  {
    ScaleStrict(Abs(score), a - d, b - e);
  }

  /** Of two memories with the same score, not zero, the one used more ranks higher. */
  lemma UseHelps(half: real -> real, s: Settings, m: Memory, uses: nat, score: real, created: Option<int>, now: int)
    requires s.Valid() && s.accessWeight > 0.0 && m.accessCount < uses && score != 0.0
    ensures RankOf(half, s, m, score, created, now) < RankOf(half, s, m.(accessCount := uses), score, created, now)
  {
    BonusGrows(s, m.accessCount, uses);
    var a, b, d := AccessBonus(s, m.accessCount), AccessBonus(s, uses), Decay(half, s, m, created, now);
    assert Decay(half, s, m.(accessCount := uses), created, now) == d;
    hide Decay, AccessBonus, RankScore;
    ShiftStrict(score, a, d, b, d);
  }

  /** And the newer one, unless they are evergreen. */
  lemma NewerHelps(half: real -> real, s: Settings, m: Memory, score: real, older: int, newer: int, now: int)
    requires s.Valid() && StrictlyHalving(half) && s.recencyWeight > 0.0 && score != 0.0 && older < newer <= now
    requires !(m.pinned || m.evergreenFlag || m.evergreenType)
    ensures RankOf(half, s, m, score, Some(older), now) < RankOf(half, s, m, score, Some(newer), now)
  {
    PenaltyGrows(half, s, m, older, newer, now);
    var a, d, e := AccessBonus(s, m.accessCount), Decay(half, s, m, Some(older), now), Decay(half, s, m, Some(newer), now);
    hide Decay, AccessBonus, Halving, RankScore;
    ShiftStrict(score, a, d, a, e);
  }

  // ---------------------------------------------------------------- counting uses

  /** Exactly the returned memories that are not deleted are counted, once each and up to a limit, and used now. */
  lemma CountedIs(table: map<string, Memory>, rows: seq<Row>, now: int, id: string)
    requires id in table
    ensures var after, m := Counted(table, rows, now), table[id];
      && after.Keys == table.Keys
      && after[id] == if !m.deleted && (exists row :: row in rows && row.item.id == id)
                      then m.(accessCount := if m.accessCount < 1_000_000_000 then m.accessCount + 1 else m.accessCount, lastAccessed := Some(now))
                      else m
  {
    if row :| row in rows && row.item.id == id {
      var k :| 0 <= k < |rows| && rows[k] == row;
    }
  }

  /** Rows are sorted only if ranking is on and has a weight. */
  lemma InForceIff(s: Settings)
    requires s.Valid()
    ensures InForce(s) <==> s.enabled && (s.recencyWeight > 0.0 || s.accessWeight > 0.0)
  {
  }

  /** What a row is sorted by: its adjusted score, or a number it brought along; below all numbers without either. */
  lemma SortsBy(a: Row, b: Row)
    ensures AtLeast(a, b) <==>
      || (b.details.None? && (b.item.givenRank.None? || b.item.givenRank.value.Incomparable?))
      || (var x := if b.details.Some? then b.details.value.rankScore else b.item.givenRank.value.value;
          || (a.details.Some? && a.details.value.rankScore >= x)
          || (a.details.None? && a.item.givenRank.Some? && a.item.givenRank.value.Comparable? && a.item.givenRank.value.value >= x))
  {
  }
}
