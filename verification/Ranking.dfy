// Ranking of search results: upstream scores are adjusted a little for age and
// for use, sorted, cut, and the use of what is returned is counted.
module Ranking {
  import opened Wrappers

  /** A score as it comes: a finite number, or anything else. */
  datatype Score = Number(value: real) | NoNumber

  /** A rank score that a candidate brings along: a number, or a value such as None that cannot be compared. */
  datatype GivenRank = Comparable(value: real) | Incomparable

  /** A candidate; None where the field is missing. `created` is in seconds, None if it cannot be read. */
  datatype Item = Item(
    id: string, rerankScore: Option<Score>, score: Option<Score>, givenRank: Option<GivenRank>, created: Option<int>, rest: string)

  /** The projection of a memory. `eventDate` is a day number, None if the metadata holds no valid date. */
  datatype Memory = Memory(
    deleted: bool, active: bool, eventDate: Option<int>, pinned: bool, evergreenFlag: bool, evergreenType: bool,
    accessCount: nat, lastAccessed: Option<int>)

  datatype Controls = Controls(currentOnly: bool, eventFrom: Option<int>, eventTo: Option<int>)

  datatype Settings = Settings(enabled: bool, recencyWeight: real, accessWeight: real, halfLifeDays: int) {
    ghost predicate Valid() {
      0.0 <= recencyWeight <= 0.25 && 0.0 <= accessWeight <= 0.25 && 1 <= halfLifeDays <= 3650
    }
  }

  /** What two to the power of minus x satisfies. */
  ghost predicate Halving(half: real -> real) {
    && (forall x :: 0.0 <= x ==> 0.0 < half(x) <= 1.0)
    && (forall x, y :: 0.0 <= x <= y ==> half(y) <= half(x))
  }

  const SECONDS_PER_DAY := 86400
  const ACCESS_LIMIT: nat := 1_000_000_000
  const MAX_CANDIDATES: nat := 200

  // ---------------------------------------------------------------- the adjusted score

  function AgeDays(created: Option<int>, now: int): (r: real)
    ensures r >= 0.0
  {
    if created.Some? && created.value < now then (now - created.value) as real / SECONDS_PER_DAY as real else 0.0
  }

  predicate Evergreen(m: Memory) { m.pinned || m.evergreenFlag || m.evergreenType }

  function Decay(half: real -> real, s: Settings, m: Memory, created: Option<int>, now: int): real
    requires s.halfLifeDays >= 1
  {
    if Evergreen(m) then 0.0 else s.recencyWeight * (1.0 - half(AgeDays(created, now) / s.halfLifeDays as real))
  }

  function AccessBonus(s: Settings, accessCount: nat): real { s.accessWeight * (accessCount as real / (accessCount + 10) as real) }

  function Abs(x: real): real { if x < 0.0 then -x else x }

  function RankScore(score: real, access: real, decay: real): real { score + Abs(score) * (access - decay) }

  datatype Details = Details(rankScore: real, recencyPenalty: real, accessBonus: real, evergreen: bool)

  datatype Row = Row(item: Item, details: Option<Details>)

  /** The score that counts: the rerank score if the field is there, whatever it holds. */
  function CountingScore(item: Item): Option<Score> { if item.rerankScore.Some? then item.rerankScore else item.score }

  function Adjusted(half: real -> real, s: Settings, m: Memory, item: Item, now: int): Row
    requires s.halfLifeDays >= 1
  {
    match CountingScore(item)
    case Some(Number(score)) =>
      if s.enabled then
        var decay, access := Decay(half, s, m, item.created, now), AccessBonus(s, m.accessCount);
        Row(item, Some(Details(RankScore(score, access, decay), decay, access, Evergreen(m))))
      else Row(item, None)
    case _ => Row(item, None)
  }

  // ---------------------------------------------------------------- selection

  predicate Visible(m: Memory, controls: Controls) { !m.deleted && (controls.currentOnly ==> m.active) }

  predicate InDates(m: Memory, controls: Controls) {
    || (controls.eventFrom.None? && controls.eventTo.None?)
    || (&& m.eventDate.Some?
        && (controls.eventFrom.Some? ==> controls.eventFrom.value <= m.eventDate.value)
        && (controls.eventTo.Some? ==> m.eventDate.value <= controls.eventTo.value))
  }

  predicate Eligible(table: map<string, Memory>, controls: Controls, item: Item) {
    item.id in table && Visible(table[item.id], controls) && InDates(table[item.id], controls)
  }

  function Selected(half: real -> real, table: map<string, Memory>, controls: Controls, s: Settings, items: seq<Item>, now: int): seq<Row>
    requires s.halfLifeDays >= 1
  {
    if items == [] then []
    else
      var last := items[|items| - 1];
      Selected(half, table, controls, s, items[..|items| - 1], now)
      + if Eligible(table, controls, last) then [Adjusted(half, s, table[last.id], last, now)] else []
  }

  // ---------------------------------------------------------------- sorting

  /** What a row is sorted by: its rank score, or the one it brought along; None for minus infinity. */
  function SortKey(row: Row): Option<real> {
    if row.details.Some? then Some(row.details.value.rankScore)
    else if row.item.givenRank.Some? && row.item.givenRank.value.Comparable? then Some(row.item.givenRank.value.value)
    else None
  }

  /** Whether the key of a row can be compared with others. */
  predicate Sortable(row: Row) { row.details.Some? || row.item.givenRank.None? || row.item.givenRank.value.Comparable? }

  predicate AtLeast(a: Row, b: Row) { SortKey(b).None? || (SortKey(a).Some? && SortKey(a).value >= SortKey(b).value) }

  function Insert(row: Row, sorted: seq<Row>): seq<Row> {
    if sorted == [] then [row] else if AtLeast(row, sorted[0]) then [row] + sorted else [sorted[0]] + Insert(row, sorted[1..])
  }

  /** The stable sort by rank score, in descending order. */
  function Sorted(rows: seq<Row>): seq<Row> { if rows == [] then [] else Insert(rows[0], Sorted(rows[1..])) }

  function Cut(rows: seq<Row>, limit: nat): seq<Row> { if |rows| <= limit then rows else rows[..limit] }

  predicate InForce(s: Settings) { s.enabled && (s.recencyWeight != 0.0 || s.accessWeight != 0.0) }

  /** Sorting compares every row with another, if there is one. */
  predicate SortRaises(s: Settings, rows: seq<Row>) {
    InForce(s) && |rows| > 1 && exists k :: 0 <= k < |rows| && !Sortable(rows[k])
  }

  function Ranked(half: real -> real, table: map<string, Memory>, controls: Controls, s: Settings, items: seq<Item>, now: int, limit: nat)
    : seq<Row>
    requires s.halfLifeDays >= 1
  {
    var rows := Selected(half, table, controls, s, items, now);
    Cut(if InForce(s) then Sorted(rows) else rows, limit)
  }

  // ---------------------------------------------------------------- counting uses

  function Used(m: Memory, now: int): Memory {
    m.(accessCount := if m.accessCount < ACCESS_LIMIT then m.accessCount + 1 else m.accessCount, lastAccessed := Some(now))
  }

  function Counted(table: map<string, Memory>, rows: seq<Row>, now: int): map<string, Memory> {
    map id | id in table :: if !table[id].deleted && exists k :: 0 <= k < |rows| && rows[k].item.id == id then Used(table[id], now) else table[id]
  }

  datatype Reply = Results(rows: seq<Row>) | TooMany | TypeError

  /** The memories of one project and app. */
  class Ranker {
    var table: map<string, Memory>

    /** `rank_results`. */
    method RankResults(half: real -> real, items: seq<Item>, controls: Controls, s: Settings, limit: nat, now: int) returns (r: Reply)
      requires s.Valid()
      modifies this
      ensures r.TooMany? <==> |items| > MAX_CANDIDATES
      ensures r.TypeError? <==> |items| <= MAX_CANDIDATES && SortRaises(s, Selected(half, old(table), controls, s, items, now))
      ensures r.Results? ==> r.rows == Ranked(half, old(table), controls, s, items, now, limit)
      ensures table == if r.Results? && s.enabled then Counted(old(table), r.rows, now) else old(table)
    {
      if |items| > MAX_CANDIDATES { return TooMany; }
      var selected := Select(half, items, controls, s, now);
      if SortRaises(s, selected) { return TypeError; }
      if InForce(s) { selected := Sorted(selected); }
      selected := Cut(selected, limit);
      if s.enabled && selected != [] {
        table := Counted(table, selected, now);
      } else {
        assert selected == [] ==> Counted(table, selected, now) == table;
      }
      return Results(selected);
    }

    /** The loop over the candidates. */
    method Select(half: real -> real, items: seq<Item>, controls: Controls, s: Settings, now: int) returns (selected: seq<Row>)
      requires s.Valid()
      ensures selected == Selected(half, table, controls, s, items, now)
    {
      selected := [];
      for i := 0 to |items|
        invariant selected == Selected(half, table, controls, s, items[..i], now)
      {
        assert items[..i + 1][..i] == items[..i];
        hide Adjusted, Eligible;
        var item := items[i];
        if Eligible(table, controls, item) {
          assert item.id in table by { EligibleKnown(table, controls, item); }
          selected := selected + [Adjusted(half, s, table[item.id], item, now)];
        }
      }
      assert items[..|items|] == items;
    }
  }

  lemma EligibleKnown(table: map<string, Memory>, controls: Controls, item: Item)
    requires Eligible(table, controls, item)
    ensures item.id in table
  {
  }
}
