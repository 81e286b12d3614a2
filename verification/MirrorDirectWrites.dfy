// Mirroring the upstream memories into the projection: index what belongs to the
// project, in batches, and mark what a complete listing no longer has.
module MirrorDirectWrites {
  import opened ScanCursor
  import opened MemoryScan
  import opened SetSizes
  import opened Wrappers

  const BATCH := 200
  const SCAN_LIMIT := 5000  // _RECONCILE_SCAN_LIMIT

  /** The fields of a projection that an upstream record determines. */
  datatype Content = Content(app: string, user: string, agent: string, run: string, digest: string)

  datatype Projected = Projected(createdAt: int, content: Content, live: bool, updatedAt: int)

  type Table = map<string, Projected>

  /** How a listed record is classified: it belongs to this project, to another one, or names no valid scope. */
  datatype Verdict = Accepted(content: Content) | Foreign | Invalid

  datatype Item = Item(id: string, verdict: Verdict)

  datatype Effect = Created | Updated | Unchanged

  // ---------------------------------------------------------------- indexing one record after the other

  /** A row touched since the listing, or equal to the record, is left alone. */
  function EffectOf(rows: Table, id: string, content: Content, cutoff: int): Effect {
    if id !in rows then Created
    else if rows[id].updatedAt > cutoff || (rows[id].live && rows[id].content == content) then Unchanged
    else Updated
  }

  function IndexOne(rows: Table, id: string, content: Content, cutoff: int, now: int): Table {
    match EffectOf(rows, id, content, cutoff)
    case Unchanged => rows
    case Created => rows[id := Projected(now, content, true, now)]
    case Updated => rows[id := Projected(rows[id].createdAt, content, true, now)]
  }

  function AcceptedItems(items: seq<Item>): (r: seq<Item>)
    ensures |r| <= |items| && forall x :: x in r <==> x in items && x.verdict.Accepted?
  {
    if items == [] then [] else
    (if items[0].verdict.Accepted? then [items[0]] else []) + AcceptedItems(items[1..])
  }

  /** The table after the records of `items`, all accepted, were indexed in order. */
  function IndexAll(rows: Table, items: seq<Item>, cutoff: int, now: int): Table
    requires forall x :: x in items ==> x.verdict.Accepted?
    decreases |items|
  {
    if items == [] then rows
    else IndexAll(IndexOne(rows, items[0].id, items[0].verdict.content, cutoff, now), items[1..], cutoff, now)
  }

  function Effects(rows: Table, items: seq<Item>, cutoff: int, now: int): (r: seq<Effect>)
    requires forall x :: x in items ==> x.verdict.Accepted?
    ensures |r| == |items|
    decreases |items|
  {
    if items == [] then [] else
    [EffectOf(rows, items[0].id, items[0].verdict.content, cutoff)]
    + Effects(IndexOne(rows, items[0].id, items[0].verdict.content, cutoff, now), items[1..], cutoff, now)
  }

  function Count(xs: seq<Effect>, x: Effect): (n: nat)
    ensures n <= |xs|
  {
    if xs == [] then 0 else
    (if xs[0] == x then 1 else 0) + Count(xs[1..], x)
  }

  lemma {:induction false} CountSum(a: seq<Effect>, b: seq<Effect>, x: Effect)
    ensures Count(a + b, x) == Count(a, x) + Count(b, x)
  {
    if a == [] {
      assert a + b == b;
    } else {
      assert (a + b)[1..] == a[1..] + b;
      CountSum(a[1..], b, x);
    }
  }

  lemma {:induction false} EffectsCount(xs: seq<Effect>)
    ensures Count(xs, Created) + Count(xs, Updated) + Count(xs, Unchanged) == |xs|
  {
    if xs != [] { EffectsCount(xs[1..]); }
  }

  lemma {:induction false} IndexMore(rows: Table, items: seq<Item>, x: Item, cutoff: int, now: int)
    requires x.verdict.Accepted? && forall y :: y in items ==> y.verdict.Accepted?
    ensures var before := IndexAll(rows, items, cutoff, now);
      && IndexAll(rows, items + [x], cutoff, now) == IndexOne(before, x.id, x.verdict.content, cutoff, now)
      && Effects(rows, items + [x], cutoff, now)
         == Effects(rows, items, cutoff, now) + [EffectOf(before, x.id, x.verdict.content, cutoff)]
    decreases |items|
  {
    if items == [] {
      assert (items + [x])[1..] == [];
    } else {
      assert (items + [x])[1..] == items[1..] + [x];
      IndexMore(IndexOne(rows, items[0].id, items[0].verdict.content, cutoff, now), items[1..], x, cutoff, now);
    }
  }

  // ---------------------------------------------------------------- marking what is gone

  /** The ids that keep a row from being marked: accepted ones, and ones the mirror could not classify. */
  function KeptIds(items: seq<Item>): set<string> { set x | x in items && !x.verdict.Foreign? :: x.id }

  function StaleIds(rows: Table, kept: set<string>, cutoff: int): set<string> {
    set id | id in rows && rows[id].live && rows[id].updatedAt <= cutoff && id !in kept
  }

  function MarkStale(rows: Table, gone: set<string>): Table {
    map id | id in rows :: if id in gone then rows[id].(live := false) else rows[id]
  }

  function KeyOf(rows: Table, id: string): Key
    requires id in rows
  {
    Key(rows[id].createdAt, id)
  }

  /** The rows `list_reconcile_stale_candidates` ranges over. */
  function Eligible(rows: Table, cutoff: int, after: Option<Key>): set<string> {
    set id | id in rows && rows[id].live && rows[id].updatedAt <= cutoff && (after.Some? ==> Before(after.value, KeyOf(rows, id)))
  }

  lemma {:induction false} StringTotal(s: string, t: string)
    ensures s == t || StringBefore(s, t) || StringBefore(t, s)
    decreases |s|
  {
    if s != [] && t != [] && s[0] == t[0] {
      StringTotal(s[1..], t[1..]);
      assert s == [s[0]] + s[1..] && t == [t[0]] + t[1..];
    }
  }

  lemma KeysTotal(a: Key, b: Key)
    ensures a == b || Before(a, b) || Before(b, a)
  {
    StringTotal(a.id, b.id);
  }

  lemma KeysTrans(a: Key, b: Key, c: Key)
    requires Before(a, b) && Before(b, c)
    ensures Before(a, c)
  {
    if a.at == b.at == c.at { StringBeforeTrans(a.id, b.id, c.id); }
  }

  /** `m` comes first of `ids` in key order. */
  ghost predicate First(rows: Table, ids: set<string>, m: string)
    requires forall id :: id in ids ==> id in rows
  {
    m in ids && forall id :: id in ids && id != m ==> Before(KeyOf(rows, m), KeyOf(rows, id))
  }

  method FindFirst(rows: Table, ids: set<string>) returns (m: string)
    requires ids != {} && forall id :: id in ids ==> id in rows
    ensures First(rows, ids, m)
  {
    m :| m in ids;
    var rest := ids - {m};
    while rest != {}
      invariant rest <= ids && m in ids - rest
      invariant forall id :: id in ids - rest && id != m ==> Before(KeyOf(rows, m), KeyOf(rows, id))
      decreases rest
    {
      var id :| id in rest;
      KeysTotal(KeyOf(rows, m), KeyOf(rows, id));
      if Before(KeyOf(rows, id), KeyOf(rows, m)) {
        forall x | x in ids - rest && x != m ensures Before(KeyOf(rows, id), KeyOf(rows, x)) {
          KeysTrans(KeyOf(rows, id), KeyOf(rows, m), KeyOf(rows, x));
        }
        m := id;
      }
      rest := rest - {id};
    }
  }

  lemma EligibleRest(rows: Table, cutoff: int, after: Option<Key>, m: string)
    requires First(rows, Eligible(rows, cutoff, after), m)
    ensures Eligible(rows, cutoff, Some(KeyOf(rows, m))) == Eligible(rows, cutoff, after) - {m}
  {
    StringBeforeIrreflexive(m);
    forall id | id in rows && Before(KeyOf(rows, m), KeyOf(rows, id)) && after.Some? ensures Before(after.value, KeyOf(rows, id)) {
      KeysTrans(after.value, KeyOf(rows, m), KeyOf(rows, id));
    }
  }

  datatype Outcome =
    | Report(scanned: nat, indexed: nat, created: nat, updated: nat, asBefore: nat, skippedForeign: nat, skippedInvalid: nat,
             staleMarked: nat, truncated: bool)
    | Refused  // a limit or the listing is invalid

  /** When the listing cannot be taken for complete. */
  predicate Truncated(listed: nat, total: Option<int>, scanLimit: nat, legacyCap: nat) {
    listed >= scanLimit || (total.Some? && total.value > listed) || (total.None? && 0 < legacyCap < scanLimit && listed == legacyCap)
  }

  predicate Listable(listed: nat, total: Option<int>, scanLimit: int, legacyCap: int) {
    1 <= scanLimit <= SCAN_LIMIT && 0 <= legacyCap <= SCAN_LIMIT && listed <= scanLimit && (total.Some? ==> total.value >= listed)
  }

  class Mirror {
    var rows: Table

    constructor (rows: Table)
      ensures this.rows == rows
    {
      this.rows := rows;
    }

    /** `list_reconcile_stale_candidates`: at most 200 ids, in key order. */
    method ListCandidates(cutoff: int, after: Option<Key>) returns (ids: seq<string>)
      ensures |ids| <= BATCH && IsBatch(rows, cutoff, after, ids)
    {
      ids := [];
      var last := after;
      while |ids| < BATCH && Eligible(rows, cutoff, last) != {}
        invariant |ids| <= BATCH && (forall k :: 0 <= k < |ids| ==> ids[k] in Eligible(rows, cutoff, after))
        invariant Eligible(rows, cutoff, last) == Eligible(rows, cutoff, after) - set id | id in ids
        invariant if ids == [] then last == after else last == Some(KeyOf(rows, ids[|ids| - 1]))
      {
        var m := FindFirst(rows, Eligible(rows, cutoff, last));
        EligibleRest(rows, cutoff, last, m);
        last := Some(KeyOf(rows, m));
        ids := ids + [m];
      }
    }

    /** The second loop: mark every candidate that is not kept, batch after batch. */
    method MarkGone(kept: set<string>, cutoff: int) returns (marked: nat)
      modifies this
      ensures rows == MarkStale(old(rows), StaleIds(old(rows), kept, cutoff)) && marked == |StaleIds(old(rows), kept, cutoff)|
    {
      hide Eligible, MarkStale, StaleIds, IsBatch;
      marked := 0;
      var after: Option<Key> := None;
      ghost var gone: set<string> := {};
      MarkingStart(rows, kept, cutoff);
      var ids := ListCandidates(cutoff, after);
      while ids != []
        invariant Marking(old(rows), rows, gone, kept, cutoff, after) && marked == |gone| && IsBatch(rows, cutoff, after, ids)
        decreases |Eligible(rows, cutoff, after)|
      {
        var batch := set id | id in ids && id !in kept;
        BatchKeys(rows, cutoff, after, ids);
        var next := Some(KeyOf(rows, ids[|ids| - 1]));
        MarkingMoves(old(rows), rows, gone, kept, cutoff, after, ids, batch);
        rows := MarkStale(rows, batch);
        gone := gone + batch;
        marked := marked + |batch|;
        after := next;
        ids := ListCandidates(cutoff, after);
      }
      MarkingEnds(old(rows), rows, gone, kept, cutoff, after);
    }

    /** The first loop: index the accepted records in batches of 200. */
    method IndexRecords(items: seq<Item>, cutoff: int, now: int) returns (created: nat, updated: nat, asBefore: nat)
      requires forall x :: x in items ==> x.verdict.Accepted?
      modifies this
      ensures rows == IndexAll(old(rows), items, cutoff, now)
      ensures var effects := Effects(old(rows), items, cutoff, now);
        created == Count(effects, Created) && updated == Count(effects, Updated) && asBefore == Count(effects, Unchanged)
    {
      created, updated, asBefore := 0, 0, 0;
      var offset := 0;
      while offset < |items|
        invariant offset <= |items| && rows == IndexAll(old(rows), items[..offset], cutoff, now)
        invariant Tallied(old(rows), items[..offset], cutoff, now, created, updated, asBefore)
      {
        var end := if offset + BATCH <= |items| then offset + BATCH else |items|;
        for n := offset to end
          invariant rows == IndexAll(old(rows), items[..n], cutoff, now)
          invariant Tallied(old(rows), items[..n], cutoff, now, created, updated, asBefore)
        {
          var x := items[n];
          assert items[..n + 1] == items[..n] + [x];
          IndexMore(old(rows), items[..n], x, cutoff, now);
          var effect := EffectOf(rows, x.id, x.verdict.content, cutoff);
          TallyOne(old(rows), items[..n], x, cutoff, now, effect, Created);
          TallyOne(old(rows), items[..n], x, cutoff, now, effect, Updated);
          TallyOne(old(rows), items[..n], x, cutoff, now, effect, Unchanged);
          match effect {
            case Created =>
              created := created + 1;
              rows := rows[x.id := Projected(now, x.verdict.content, true, now)];
            case Updated =>
              updated := updated + 1;
              rows := rows[x.id := Projected(rows[x.id].createdAt, x.verdict.content, true, now)];
            case Unchanged =>
              asBefore := asBefore + 1;
          }
        }
        offset := end;
      }
      assert items[..offset] == items;
    }

    /** `mirror_direct_writes` over a listing; `cutoff` is read before the listing, `now` when rows are written. */
    method MirrorAll(items: seq<Item>, total: Option<int>, scanLimit: int, legacyCap: int, cutoff: int, now: int)
      returns (outcome: Outcome)
      modifies this
      ensures outcome.Refused? <==> !Listable(|items|, total, scanLimit, legacyCap)
      ensures outcome.Refused? ==> rows == old(rows)
      ensures outcome.Report? ==>
        && Conserves(outcome, items) && Reports(outcome, old(rows), AcceptedItems(items), cutoff, now)
        && outcome.truncated == Truncated(|items|, total, scanLimit, legacyCap)
        && rows == After(old(rows), items, cutoff, now, outcome.truncated)
        && outcome.staleMarked == Marked(old(rows), items, cutoff, now, outcome.truncated)
    {
      if !Listable(|items|, total, scanLimit, legacyCap) {
        return Refused;
      }
      var accepted, kept, foreign, invalid := Classify(items);
      var created, updated, asBefore := IndexRecords(accepted, cutoff, now);
      EffectsCount(Effects(old(rows), accepted, cutoff, now));
      var truncated := Truncated(|items|, total, scanLimit, legacyCap);
      var marked := 0;
      if !truncated {
        marked := MarkGone(kept, cutoff);
      }
      return Report(|items|, |accepted|, created, updated, asBefore, foreign, invalid, marked, truncated);
    }
  }

  /** Classify every record of the listing once. */
  method Classify(items: seq<Item>) returns (accepted: seq<Item>, kept: set<string>, foreign: nat, invalid: nat)
    ensures accepted == AcceptedItems(items) && kept == KeptIds(items)
    ensures |accepted| + foreign + invalid == |items| && foreign == |ForeignItems(items)|
  {
    accepted, kept, foreign, invalid := [], {}, 0, 0;
    assert items[..0] == [];
    for n := 0 to |items|
      invariant accepted == AcceptedItems(items[..n]) && kept == KeptIds(items[..n])
      invariant |accepted| + foreign + invalid == n && foreign == |ForeignItems(items[..n])|
    {
      var x := items[n];
      assert items[..n + 1] == items[..n] + [x];
      AcceptedMore(items[..n], x);
      ForeignMore(items[..n], x);
      KeptMore(items[..n], x);
      match x.verdict {
        case Foreign => foreign := foreign + 1;
        case Invalid =>
          invalid := invalid + 1;
          kept := kept + {x.id};
        case Accepted(_) =>
          accepted := accepted + [x];
          kept := kept + {x.id};
      }
    }
    assert items[..|items|] == items;
  }

  /** A batch: eligible ids, none left out before the last of them, and empty only if nothing is eligible. */
  ghost predicate IsBatch(rows: Table, cutoff: int, after: Option<Key>, ids: seq<string>) {
    && (ids == [] <==> Eligible(rows, cutoff, after) == {})
    && (forall k :: 0 <= k < |ids| ==> ids[k] in Eligible(rows, cutoff, after))
    && (ids != [] ==>
          Eligible(rows, cutoff, Some(KeyOf(rows, ids[|ids| - 1]))) == Eligible(rows, cutoff, after) - set id | id in ids)
  }

  lemma BatchKeys(rows: Table, cutoff: int, after: Option<Key>, ids: seq<string>)
    requires IsBatch(rows, cutoff, after, ids) && ids != []
    ensures ids[|ids| - 1] in rows
  {
  }

  /** Some of the stale rows are marked, and the others lie ahead. */
  ghost predicate Marking(before: Table, rows: Table, gone: set<string>, kept: set<string>, cutoff: int, after: Option<Key>) {
    && gone <= StaleIds(before, kept, cutoff) && rows == MarkStale(before, gone)
    && StaleIds(before, kept, cutoff) - gone <= Eligible(rows, cutoff, after)
  }

  lemma MarkingStart(rows: Table, kept: set<string>, cutoff: int)
    ensures Marking(rows, rows, {}, kept, cutoff, None)
  {
    assert MarkStale(rows, {}) == rows;
  }

  lemma MarkingMoves(before: Table, rows: Table, gone: set<string>, kept: set<string>, cutoff: int, after: Option<Key>,
                     ids: seq<string>, batch: set<string>)
    requires Marking(before, rows, gone, kept, cutoff, after) && IsBatch(rows, cutoff, after, ids) && ids != []
    requires batch == set id | id in ids && id !in kept
    ensures ids[|ids| - 1] in rows
    ensures var next := Some(KeyOf(rows, ids[|ids| - 1]));
      && Marking(before, MarkStale(rows, batch), gone + batch, kept, cutoff, next)
      && |Eligible(MarkStale(rows, batch), cutoff, next)| < |Eligible(rows, cutoff, after)|
      && batch !! gone && |gone + batch| == |gone| + |batch|
  {
    var next := Some(KeyOf(rows, ids[|ids| - 1]));
    assert forall id :: id in batch ==> id in Eligible(rows, cutoff, after);
    assert MarkStale(rows, batch) == MarkStale(before, gone + batch);
    assert ids[0] in Eligible(rows, cutoff, after) && ids[0] !in Eligible(rows, cutoff, next);
    MarkSmaller(rows, batch, cutoff, after, next);
  }

  lemma MarkingEnds(before: Table, rows: Table, gone: set<string>, kept: set<string>, cutoff: int, after: Option<Key>)
    requires Marking(before, rows, gone, kept, cutoff, after) && IsBatch(rows, cutoff, after, [])
    ensures gone == StaleIds(before, kept, cutoff) && rows == MarkStale(before, gone)
  {
    var all := StaleIds(before, kept, cutoff);
    assert all - gone == {};
    assert forall id :: id in all ==> id !in all - gone;
  }

  lemma MarkSmaller(rows: Table, batch: set<string>, cutoff: int, after: Option<Key>, next: Option<Key>)
    requires Eligible(rows, cutoff, next) < Eligible(rows, cutoff, after)
    ensures |Eligible(MarkStale(rows, batch), cutoff, next)| < |Eligible(rows, cutoff, after)|
    ensures Eligible(MarkStale(rows, batch), cutoff, next) == Eligible(rows, cutoff, next) - batch
  {
    var small, large := Eligible(MarkStale(rows, batch), cutoff, next), Eligible(rows, cutoff, after);
    assert small <= large - (large - Eligible(rows, cutoff, next));
    var x :| x in large && x !in Eligible(rows, cutoff, next);
    Smaller(small, large, x);
  }

  ghost predicate Tallied(rows: Table, items: seq<Item>, cutoff: int, now: int, created: nat, updated: nat, asBefore: nat)
    requires forall x :: x in items ==> x.verdict.Accepted?
  {
    var effects := Effects(rows, items, cutoff, now);
    created == Count(effects, Created) && updated == Count(effects, Updated) && asBefore == Count(effects, Unchanged)
  }

  lemma TallyOne(rows: Table, items: seq<Item>, x: Item, cutoff: int, now: int, effect: Effect, e: Effect)
    requires x.verdict.Accepted? && forall y :: y in items ==> y.verdict.Accepted?
    requires effect == EffectOf(IndexAll(rows, items, cutoff, now), x.id, x.verdict.content, cutoff)
    ensures Count(Effects(rows, items + [x], cutoff, now), e)
      == Count(Effects(rows, items, cutoff, now), e) + if effect == e then 1 else 0
  {
    IndexMore(rows, items, x, cutoff, now);
    CountSum(Effects(rows, items, cutoff, now), [effect], e);
  }

  function ForeignItems(items: seq<Item>): seq<Item> {
    if items == [] then [] else
    (if items[0].verdict.Foreign? then [items[0]] else []) + ForeignItems(items[1..])
  }

  lemma AcceptedFirst(items: seq<Item>)
    requires items != []
    ensures AcceptedItems(items) == (if items[0].verdict.Accepted? then [items[0]] else []) + AcceptedItems(items[1..])
  {
  }

  lemma AcceptedOne(x: Item)
    ensures AcceptedItems([x]) == if x.verdict.Accepted? then [x] else []
    ensures AcceptedItems([]) == []
  {
  }

  lemma {:induction false} AcceptedMore(items: seq<Item>, x: Item)
    ensures AcceptedItems(items + [x]) == AcceptedItems(items) + if x.verdict.Accepted? then [x] else []
  {
    hide AcceptedItems;
    AcceptedOne(x);
    if items == [] {
      assert items + [x] == [x];
    } else {
      assert (items + [x])[1..] == items[1..] + [x];
      AcceptedMore(items[1..], x);
      AcceptedFirst(items);
      AcceptedFirst(items + [x]);
    }
  }

  lemma ForeignFirst(items: seq<Item>)
    requires items != []
    ensures ForeignItems(items) == (if items[0].verdict.Foreign? then [items[0]] else []) + ForeignItems(items[1..])
  {
  }

  lemma ForeignOne(x: Item)
    ensures ForeignItems([x]) == if x.verdict.Foreign? then [x] else []
    ensures ForeignItems([]) == []
  {
  }

  lemma {:induction false} ForeignMore(items: seq<Item>, x: Item)
    ensures ForeignItems(items + [x]) == ForeignItems(items) + if x.verdict.Foreign? then [x] else []
  {
    hide ForeignItems;
    ForeignOne(x);
    if items == [] {
      assert items + [x] == [x];
    } else {
      assert (items + [x])[1..] == items[1..] + [x];
      ForeignMore(items[1..], x);
      ForeignFirst(items);
      ForeignFirst(items + [x]);
    }
  }

  lemma KeptMore(items: seq<Item>, x: Item)
    ensures KeptIds(items + [x]) == KeptIds(items) + if x.verdict.Foreign? then {} else {x.id}
  {
  }

  // ---------------------------------------------------------------- what a pass reports and leaves

  /** Every listed record is counted once. */
  ghost predicate Conserves(outcome: Outcome, items: seq<Item>)
    requires outcome.Report?
  {
    && outcome.scanned == |items| && outcome.scanned == outcome.indexed + outcome.skippedForeign + outcome.skippedInvalid
    && outcome.indexed == outcome.created + outcome.updated + outcome.asBefore
    && outcome.indexed == |AcceptedItems(items)| && outcome.skippedForeign == |ForeignItems(items)|
  }

  ghost predicate Reports(outcome: Outcome, rows: Table, accepted: seq<Item>, cutoff: int, now: int)
    requires outcome.Report? && forall x :: x in accepted ==> x.verdict.Accepted?
  {
    Tallied(rows, accepted, cutoff, now, outcome.created, outcome.updated, outcome.asBefore)
  }

  /** The table after a pass. */
  function After(rows: Table, items: seq<Item>, cutoff: int, now: int, truncated: bool): Table {
    var indexed := IndexAll(rows, AcceptedItems(items), cutoff, now);
    if truncated then indexed else MarkStale(indexed, StaleIds(indexed, KeptIds(items), cutoff))
  }

  function Marked(rows: Table, items: seq<Item>, cutoff: int, now: int, truncated: bool): nat {
    if truncated then 0 else |StaleIds(IndexAll(rows, AcceptedItems(items), cutoff, now), KeptIds(items), cutoff)|
  }

  /** No row is newer than the listing: nobody else writes. */
  ghost predicate Settled(rows: Table, cutoff: int) { forall id :: id in rows ==> rows[id].updatedAt <= cutoff }

  lemma {:induction false} IndexedElse(rows: Table, items: seq<Item>, cutoff: int, now: int, id: string)
    requires (forall x :: x in items ==> x.verdict.Accepted?) && (forall x :: x in items ==> x.id != id)
    ensures id in IndexAll(rows, items, cutoff, now) <==> id in rows
    ensures id in rows ==> IndexAll(rows, items, cutoff, now)[id] == rows[id]
    decreases |items|
  {
    if items != [] {
      assert items[0] in items;
      IndexedElse(IndexOne(rows, items[0].id, items[0].verdict.content, cutoff, now), items[1..], cutoff, now, id);
    }
  }

  /** A complete pass leaves active only rows whose id was listed as accepted or could not be classified. */
  lemma CompletePassKeepsListed(rows: Table, items: seq<Item>, cutoff: int, now: int, id: string)
    requires Settled(rows, cutoff)
    ensures var t := After(rows, items, cutoff, now, false); id in t && t[id].live ==> id in KeptIds(items)
  {
    var accepted := AcceptedItems(items);
    if forall x :: x in accepted ==> x.id != id {
      IndexedElse(rows, accepted, cutoff, now, id);
    }
  }

  ghost predicate DistinctIds(items: seq<Item>) { forall i, j :: 0 <= i < j < |items| ==> items[i].id != items[j].id }

  /** An indexed record stays as it is while other records are indexed. */
  ghost predicate Mirrors(rows: Table, x: Item)
    requires x.verdict.Accepted?
  {
    x.id in rows && rows[x.id].live && rows[x.id].content == x.verdict.content
  }

  lemma {:induction false} IndexedMirrors(rows: Table, items: seq<Item>, cutoff: int, now: int, x: Item)
    requires (forall y :: y in items ==> y.verdict.Accepted?) && DistinctIds(items) && x in items && Settled(rows, cutoff)
    ensures Mirrors(IndexAll(rows, items, cutoff, now), x)
    decreases |items|
  {
    var rest := IndexOne(rows, items[0].id, items[0].verdict.content, cutoff, now);
    if x == items[0] {
      forall y | y in items[1..] ensures y.id != x.id {
        var k :| 0 <= k < |items[1..]| && items[1..][k] == y;
        assert items[k + 1] == y;
      }
      IndexedElse(rest, items[1..], cutoff, now, x.id);
    } else {
      SomeMirrors(rest, items, cutoff, now, x);
    }
  }

  /** The case that the record comes later: the row of another id was written, perhaps after the cutoff. */
  lemma {:induction false} SomeMirrors(rows: Table, items: seq<Item>, cutoff: int, now: int, x: Item)
    requires items != [] && (forall y :: y in items ==> y.verdict.Accepted?) && DistinctIds(items) && x in items[1..]
    requires forall y :: y in items[1..] && y.id in rows ==> rows[y.id].updatedAt <= cutoff
    ensures Mirrors(IndexAll(rows, items[1..], cutoff, now), x)
    decreases |items|
  {
    var tail := items[1..];
    var rest := IndexOne(rows, tail[0].id, tail[0].verdict.content, cutoff, now);
    assert tail[0] == items[1];
    forall y | y in tail[1..] ensures y.id != tail[0].id && (y.id in rest ==> rest[y.id].updatedAt <= cutoff) {
      var k :| 0 <= k < |tail[1..]| && tail[1..][k] == y;
      assert items[k + 2] == y && y in tail;
    }
    if x == tail[0] {
      assert tail[0] in tail;
      IndexedElse(rest, tail[1..], cutoff, now, x.id);
    } else {
      assert DistinctIds(tail);
      SomeMirrors(rest, tail, cutoff, now, x);
    }
  }

  /** Records that are mirrored already change nothing. */
  lemma {:induction false} MirroredUnchanged(rows: Table, items: seq<Item>, cutoff: int, now: int)
    requires (forall y :: y in items ==> y.verdict.Accepted?) && forall y :: y in items ==> Mirrors(rows, y)
    ensures IndexAll(rows, items, cutoff, now) == rows
    ensures forall k :: 0 <= k < |items| ==> Effects(rows, items, cutoff, now)[k] == Unchanged
    decreases |items|
  {
    if items != [] {
      assert items[0] in items;
      MirroredUnchanged(rows, items[1..], cutoff, now);
    }
  }

  lemma {:induction false} CountNone(xs: seq<Effect>, e: Effect)
    requires forall k :: 0 <= k < |xs| ==> xs[k] != e
    ensures Count(xs, e) == 0
  {
    if xs != [] { CountNone(xs[1..], e); }
  }

  lemma {:induction false} AcceptedDistinct(items: seq<Item>)
    requires DistinctIds(items)
    ensures DistinctIds(AcceptedItems(items))
  {
    if items != [] {
      AcceptedDistinct(items[1..]);
      var rest := AcceptedItems(items[1..]);
      forall k | 0 <= k < |rest| ensures rest[k].id != items[0].id {
        assert rest[k] in rest;
        var j :| 0 <= j < |items[1..]| && items[1..][j] == rest[k];
        assert items[j + 1] == rest[k];
      }
    }
  }

  /** With distinct ids and no other writer, the same listing a second time creates, updates and marks nothing. */
  lemma SecondPassIdle(rows: Table, items: seq<Item>, cutoff: int, now: int, cutoff2: int, now2: int, outcome: Outcome)
    requires Settled(rows, cutoff) && DistinctIds(items)
    requires outcome.Report? && Reports(outcome, After(rows, items, cutoff, now, false), AcceptedItems(items), cutoff2, now2)
    requires outcome.staleMarked == Marked(After(rows, items, cutoff, now, false), items, cutoff2, now2, false)
    ensures outcome.created == 0 && outcome.updated == 0 && outcome.staleMarked == 0
    ensures After(After(rows, items, cutoff, now, false), items, cutoff2, now2, false) == After(rows, items, cutoff, now, false)
  {
    var accepted, t := AcceptedItems(items), After(rows, items, cutoff, now, false);
    AcceptedDistinct(items);
    forall x | x in accepted ensures Mirrors(t, x) {
      IndexedMirrors(rows, accepted, cutoff, now, x);
    }
    MirroredUnchanged(t, accepted, cutoff2, now2);
    CountNone(Effects(t, accepted, cutoff2, now2), Created);
    CountNone(Effects(t, accepted, cutoff2, now2), Updated);
    forall id | id in t && t[id].live ensures id in KeptIds(items) { CompletePassKeepsListed(rows, items, cutoff, now, id); }
    assert StaleIds(t, KeptIds(items), cutoff2) == {};
  }
}
