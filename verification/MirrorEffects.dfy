// What a mirroring pass leaves in the projection, row by row, and when it may mark
// rows as gone at all.
module MirrorEffects {
  import opened MirrorDirectWrites
  import opened Wrappers

  // ---------------------------------------------------------------- indexing

  /** The row that indexing leaves: what was written since the listing, or says the same, stays; otherwise it is written now. */
  function Indexed(rows: Table, id: string, content: Content, cutoff: int, now: int): Projected {
    if id in rows && (cutoff < rows[id].updatedAt || (rows[id].live && rows[id].content == content)) then rows[id]
    else Projected(if id in rows then rows[id].createdAt else now, content, true, now)
  }

  /** The one accepted record of an id. */
  ghost predicate OnlyRecord(items: seq<Item>, x: Item) {
    x in items && x.verdict.Accepted? && forall y :: y in items && y.verdict.Accepted? && y.id == x.id ==> y == x
  }

  lemma IndexFirst(rows: Table, x: Item, cutoff: int, now: int)
    requires x.verdict.Accepted?
    ensures var one := IndexOne(rows, x.id, x.verdict.content, cutoff, now);
      && x.id in one && one[x.id] == Indexed(rows, x.id, x.verdict.content, cutoff, now)
      && forall id :: id != x.id ==> (id in one <==> id in rows) && (id in rows ==> one[id] == rows[id])
  {
  }

  lemma IndexAgain(rows: Table, x: Item, cutoff: int, now: int)
    requires x.verdict.Accepted?
    ensures var one := IndexOne(rows, x.id, x.verdict.content, cutoff, now);
      Indexed(one, x.id, x.verdict.content, cutoff, now) == Indexed(rows, x.id, x.verdict.content, cutoff, now)
  {
  }

  /** An accepted record leaves its row indexed, however often it is listed. */
  lemma {:induction false} RecordIndexed(rows: Table, items: seq<Item>, cutoff: int, now: int, x: Item)
    requires (forall y :: y in items ==> y.verdict.Accepted?) && OnlyRecord(items, x)
    ensures var t := IndexAll(rows, items, cutoff, now); x.id in t && t[x.id] == Indexed(rows, x.id, x.verdict.content, cutoff, now)
    decreases |items|
  {
    hide IndexOne, Indexed;
    var y, rest := items[0], items[1..];
    var one := IndexOne(rows, y.id, y.verdict.content, cutoff, now);
    assert y in items;
    IndexFirst(rows, y, cutoff, now);
    if y.id == x.id { IndexAgain(rows, x, cutoff, now); }
    if x in rest {
      RecordIndexed(one, rest, cutoff, now, x);
      if y.id != x.id { IndexedSame(rows, one, x, cutoff, now); }
    } else {
      IndexedElse(one, rest, cutoff, now, x.id);
    }
  }

  lemma IndexedSame(rows: Table, one: Table, x: Item, cutoff: int, now: int)
    requires x.verdict.Accepted? && (x.id in one <==> x.id in rows) && (x.id in rows ==> one[x.id] == rows[x.id])
    ensures Indexed(one, x.id, x.verdict.content, cutoff, now) == Indexed(rows, x.id, x.verdict.content, cutoff, now)
  {
  }

  // ---------------------------------------------------------------- a pass

  /** Listed, and not known to belong to another project. */
  ghost predicate Listed(items: seq<Item>, id: string) { exists x :: x in items && x.id == id && !x.verdict.Foreign? }

  /** A complete listing does not have this row, which was not written since. */
  ghost predicate Gone(rows: Table, items: seq<Item>, id: string, cutoff: int) {
    id in rows && rows[id].updatedAt <= cutoff && !Listed(items, id)
  }

  lemma NotAccepted(items: seq<Item>, id: string)
    requires forall x :: x in items && x.id == id ==> !x.verdict.Accepted?
    ensures forall x :: x in AcceptedItems(items) ==> x.id != id
  {
  }

  /** A row whose id comes with no accepted record keeps everything, but its life if the listing is complete and it is gone. */
  lemma UnlistedAfter(rows: Table, items: seq<Item>, cutoff: int, now: int, truncated: bool, id: string)
    requires forall x :: x in items && x.id == id ==> !x.verdict.Accepted?
    ensures var t := After(rows, items, cutoff, now, truncated);
      && (id in t <==> id in rows)
      && (id in rows ==> t[id] == if !truncated && Gone(rows, items, id, cutoff) then rows[id].(live := false) else rows[id])
  {
    NotAccepted(items, id);
    hide AcceptedItems, IndexAll;
    IndexedElse(rows, AcceptedItems(items), cutoff, now, id);
    assert id in KeptIds(items) <==> Listed(items, id);
  }

  /** A row whose id comes with one accepted record is indexed, whether the listing is complete or not. */
  lemma ListedAfter(rows: Table, items: seq<Item>, cutoff: int, now: int, truncated: bool, x: Item)
    requires OnlyRecord(items, x)
    ensures var t := After(rows, items, cutoff, now, truncated);
      x.id in t && t[x.id] == Indexed(rows, x.id, x.verdict.content, cutoff, now)
  {
    assert OnlyRecord(AcceptedItems(items), x);
    assert x.id in KeptIds(items);
    hide AcceptedItems, IndexAll, Indexed, KeptIds;
    RecordIndexed(rows, AcceptedItems(items), cutoff, now, x);
  }

  // ---------------------------------------------------------------- when rows may be marked

  /** The listing may lack records: it is as long as allowed, or upstream has more, or it stops where an old upstream would. */
  predicate MayLack(listed: nat, total: Option<int>, scanLimit: int, legacyCap: int) {
    || scanLimit <= listed
    || (total.Some? && listed < total.value)
    || (total == None && 0 < legacyCap && legacyCap < scanLimit && legacyCap == listed)
  }

  /**
   * A pass over a listing.  If the listing may lack records, no row is marked and none that was live is dead; otherwise every
   * row that is not listed and was not written since is dead.  An invalid limit or listing is refused.
   */
  method Pass(mirror: Mirror, items: seq<Item>, total: Option<int>, scanLimit: int, legacyCap: int, cutoff: int, now: int)
    returns (outcome: Outcome)
    modifies mirror
    ensures outcome.Refused? <==>
      scanLimit < 1 || scanLimit > 5000 || legacyCap < 0 || legacyCap > 5000 || |items| > scanLimit || (total.Some? && total.value < |items|)
    ensures outcome.Refused? ==> mirror.rows == old(mirror.rows)
    ensures outcome.Report? ==> (outcome.truncated <==> MayLack(|items|, total, scanLimit, legacyCap))
    ensures outcome.Report? && MayLack(|items|, total, scanLimit, legacyCap) ==>
      && outcome.staleMarked == 0
      && forall id :: id in old(mirror.rows) && old(mirror.rows)[id].live ==> id in mirror.rows && mirror.rows[id].live
    ensures outcome.Report? && !MayLack(|items|, total, scanLimit, legacyCap) ==>
      && (forall id :: Gone(old(mirror.rows), items, id, cutoff) ==> id in mirror.rows && !mirror.rows[id].live)
      && (forall id :: id in old(mirror.rows) && old(mirror.rows)[id].live && !Gone(old(mirror.rows), items, id, cutoff) ==>
            id in mirror.rows && mirror.rows[id].live)
  {
    ghost var before := mirror.rows;
    outcome := mirror.MirrorAll(items, total, scanLimit, legacyCap, cutoff, now);
    if outcome.Report? {
      forall id | id in before ensures StaysOrGoes(before, items, cutoff, now, outcome.truncated, id) {
        RowAfter(before, items, cutoff, now, outcome.truncated, id);
      }
      hide After, Conserves, Reports, Marked, Gone;
    }
  }

  ghost predicate StaysOrGoes(rows: Table, items: seq<Item>, cutoff: int, now: int, truncated: bool, id: string)
    requires id in rows
  {
    var t := After(rows, items, cutoff, now, truncated);
    && id in t
    && (rows[id].live && (truncated || !Gone(rows, items, id, cutoff)) ==> t[id].live)
    && (!truncated && Gone(rows, items, id, cutoff) ==> !t[id].live)
  }

  lemma {:induction false} IndexedAlive(rows: Table, items: seq<Item>, cutoff: int, now: int, id: string)
    requires (forall x :: x in items ==> x.verdict.Accepted?) && id in rows
    ensures var t := IndexAll(rows, items, cutoff, now); id in t && (rows[id].live ==> t[id].live)
    decreases |items|
  {
    if items != [] {
      assert items[0] in items;
      IndexedAlive(IndexOne(rows, items[0].id, items[0].verdict.content, cutoff, now), items[1..], cutoff, now, id);
    }
  }

  lemma RowAfter(rows: Table, items: seq<Item>, cutoff: int, now: int, truncated: bool, id: string)
    requires id in rows
    ensures StaysOrGoes(rows, items, cutoff, now, truncated, id)
  {
    var accepted := AcceptedItems(items);
    if forall x :: x in items && x.id == id ==> !x.verdict.Accepted? {
      UnlistedAfter(rows, items, cutoff, now, truncated, id);
    } else {
      assert Listed(items, id) && id in KeptIds(items);
      hide AcceptedItems, IndexAll, KeptIds;
      IndexedAlive(rows, accepted, cutoff, now, id);
    }
  }
}
