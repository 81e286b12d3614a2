// The cursor scan over the memory projection: pages in key order up to the key
// that was the largest when the scan began, each page after the last key that the
// page before it examined.
module MemoryScan {
  import opened ScanCursor
  import opened Wrappers

  const COUNT_BATCH := 200  // _COUNT_BATCH_SIZE

  datatype Row = Row(key: Key, kind: Option<string>, version: int)
  datatype Record = Record(body: string)

  // ---------------------------------------------------------------- key order

  predicate StringBefore(s: string, t: string)
    decreases |s|
  {
    t != [] && (s == [] || s[0] < t[0] || (s[0] == t[0] && StringBefore(s[1..], t[1..])))
  }

  predicate Before(a: Key, b: Key) { a.at < b.at || (a.at == b.at && StringBefore(a.id, b.id)) }

  lemma {:induction false} StringBeforeTrans(s: string, t: string, u: string)
    requires StringBefore(s, t) && StringBefore(t, u)
    ensures StringBefore(s, u)
    decreases |s|
  {
    if s != [] && s[0] == t[0] && t[0] == u[0] { StringBeforeTrans(s[1..], t[1..], u[1..]); }
  }

  lemma {:induction false} StringBeforeIrreflexive(s: string)
    ensures !StringBefore(s, s)
    decreases |s|
  {
    if s != [] { StringBeforeIrreflexive(s[1..]); }
  }

  lemma BeforeOrder(a: Key, b: Key)
    requires Before(a, b)
    ensures !Before(b, a) && a != b
  {
    if a.at == b.at {
      if StringBefore(b.id, a.id) { StringBeforeTrans(a.id, b.id, a.id); }
      StringBeforeIrreflexive(a.id);
    }
  }

  ghost predicate Sorted(rows: seq<Row>) { forall i, j :: 0 <= i < j < |rows| ==> Before(rows[i].key, rows[j].key) }

  // ---------------------------------------------------------------- MemoryIndexRepository

  predicate InRange(k: Key, upper: Key, after: Option<Key>) {
    (k == upper || Before(k, upper)) && (after.Some? ==> Before(after.value, k))
  }

  function Select(rows: seq<Row>, upper: Key, after: Option<Key>): (r: seq<Row>) {
    if rows == [] then [] else
    (if InRange(rows[0].key, upper, after) then [rows[0]] else []) + Select(rows[1..], upper, after)
  }

  function Take(rows: seq<Row>, limit: nat): (r: seq<Row>) { if |rows| <= limit then rows else rows[..limit] }

  /** `list_scan_candidates`. */
  function Candidates(rows: seq<Row>, upper: Key, after: Option<Key>, limit: nat): seq<Row> {
    Take(Select(rows, upper, after), limit)
  }

  predicate Fits(row: Row, kind: Option<string>) { kind.None? || row.kind == kind }

  function Matching(rows: seq<Row>, kind: Option<string>): (r: seq<Row>)
    ensures |r| <= |rows| && forall row :: row in r ==> row in rows
  {
    if rows == [] then [] else
    (if Fits(rows[0], kind) then [rows[0]] else []) + Matching(rows[1..], kind)
  }

  lemma MatchingFirst(rows: seq<Row>, kind: Option<string>)
    requires rows != []
    ensures Matching(rows, kind) == (if Fits(rows[0], kind) then [rows[0]] else []) + Matching(rows[1..], kind)
  {
  }

  lemma MatchingNone(kind: Option<string>)
    ensures Matching([], kind) == []
  {
  }

  lemma Associative(a: seq<Row>, b: seq<Row>, c: seq<Row>)
    ensures a + (b + c) == (a + b) + c
  {
  }

  lemma {:induction false} MatchingSum(a: seq<Row>, b: seq<Row>, kind: Option<string>)
    ensures Matching(a + b, kind) == Matching(a, kind) + Matching(b, kind)
    decreases a
  {
    hide Matching, Fits;
    if a == [] {
      assert a + b == b;
      MatchingNone(kind);
    } else {
      assert (a + b)[1..] == a[1..] + b;
      MatchingSum(a[1..], b, kind);
      MatchingFirst(a, kind);
      MatchingFirst(a + b, kind);
      Associative(if Fits(a[0], kind) then [a[0]] else [], Matching(a[1..], kind), Matching(b, kind));
    }
  }

  lemma {:induction false} SelectEverything(rows: seq<Row>, upper: Key, after: Option<Key>)
    requires forall row :: row in rows ==> InRange(row.key, upper, after)
    ensures Select(rows, upper, after) == rows
  {
    if rows != [] { SelectEverything(rows[1..], upper, after); }
  }

  lemma {:induction false} SelectNothing(rows: seq<Row>, upper: Key, after: Option<Key>)
    requires forall row :: row in rows ==> !InRange(row.key, upper, after)
    ensures Select(rows, upper, after) == []
  {
    if rows != [] { SelectNothing(rows[1..], upper, after); }
  }

  lemma {:induction false} SelectSum(a: seq<Row>, b: seq<Row>, upper: Key, after: Option<Key>)
    ensures Select(a + b, upper, after) == Select(a, upper, after) + Select(b, upper, after)
  {
    if a == [] {
      assert a + b == b;
    } else {
      assert (a + b)[1..] == a[1..] + b;
      SelectSum(a[1..], b, upper, after);
    }
  }

  lemma EarlierOut(rows: seq<Row>, p: nat, row: Row)
    requires Sorted(rows) && 0 < p <= |rows| && row in rows[..p]
    ensures !InRange(row.key, rows[|rows| - 1].key, Some(rows[p - 1].key))
  {
    var i :| 0 <= i < p && rows[i] == row;
    if i < p - 1 { BeforeOrder(row.key, rows[p - 1].key); } else { StringBeforeIrreflexive(row.key.id); }
  }

  lemma LaterIn(rows: seq<Row>, p: nat, row: Row)
    requires Sorted(rows) && 0 < p <= |rows| && row in rows[p..]
    ensures InRange(row.key, rows[|rows| - 1].key, Some(rows[p - 1].key))
  {
    hide Before;
    var i :| p <= i < |rows| && rows[i] == row;
  }

  lemma SelectSplit(a: seq<Row>, b: seq<Row>, upper: Key, after: Option<Key>)
    requires (forall row :: row in a ==> !InRange(row.key, upper, after)) && (forall row :: row in b ==> InRange(row.key, upper, after))
    ensures Select(a + b, upper, after) == b
  {
    SelectNothing(a, upper, after);
    SelectEverything(b, upper, after);
    hide *;
    SelectSum(a, b, upper, after);
  }

  /** The rows after position `p` are the rest of a sorted list. */
  lemma SelectRest(rows: seq<Row>, p: nat)
    requires Sorted(rows) && 0 < p <= |rows|
    ensures Select(rows, rows[|rows| - 1].key, Some(rows[p - 1].key)) == rows[p..]
  {
    hide *;
    var upper, after := rows[|rows| - 1].key, Some(rows[p - 1].key);
    forall row | row in rows[..p] ensures !InRange(row.key, upper, after) { EarlierOut(rows, p, row); }
    forall row | row in rows[p..] ensures InRange(row.key, upper, after) { LaterIn(rows, p, row); }
    SelectSplit(rows[..p], rows[p..], upper, after);
    assert rows[..p] + rows[p..] == rows;
  }

  lemma SelectAll(rows: seq<Row>)
    requires Sorted(rows) && rows != []
    ensures Select(rows, rows[|rows| - 1].key, None) == rows
  {
    forall row | row in rows ensures InRange(row.key, rows[|rows| - 1].key, None) {
      var i :| 0 <= i < |rows| && rows[i] == row;
    }
    SelectEverything(rows, rows[|rows| - 1].key, None);
  }

  /** The rows from position `p` of the rows that were there when the scan began. */
  function Position(rows: seq<Row>, p: nat): Option<Key>
    requires p <= |rows|
  {
    if p == 0 then None else Some(rows[p - 1].key)
  }

  lemma SelectFrom(rows: seq<Row>, p: nat)
    requires Sorted(rows) && rows != [] && p <= |rows|
    ensures Select(rows, rows[|rows| - 1].key, Position(rows, p)) == rows[p..]
  {
    if p == 0 { SelectAll(rows); } else { SelectRest(rows, p); }
  }

  // ---------------------------------------------------------------- counting in batches

  /** One batch of the count. */
  lemma CountBatch(rows: seq<Row>, p: nat, candidates: seq<Row>, kind: Option<string>)
    requires p <= |rows| && candidates == Take(rows[p..], COUNT_BATCH) && candidates != []
    ensures p + |candidates| <= |rows| && candidates[|candidates| - 1] == rows[p + |candidates| - 1]
    ensures Matching(rows[..p + |candidates|], kind) == Matching(rows[..p], kind) + Matching(candidates, kind)
  {
    hide Matching;
    MatchingSum(rows[..p], candidates, kind);
    assert rows[..p + |candidates|] == rows[..p] + candidates;
  }

  lemma FirstBatch(rows: seq<Row>, upper: Key)
    requires Sorted(rows) && rows != [] && upper == rows[|rows| - 1].key
    ensures Candidates(rows, upper, None, COUNT_BATCH) == Take(rows, COUNT_BATCH)
  {
    hide Select, Sorted;
    SelectFrom(rows, 0);
    assert rows[0..] == rows;
  }

  lemma NextBatch(rows: seq<Row>, p: nat, upper: Key)
    requires Sorted(rows) && 0 < p <= |rows| && upper == rows[|rows| - 1].key
    ensures Candidates(rows, upper, Some(rows[p - 1].key), COUNT_BATCH) == Take(rows[p..], COUNT_BATCH)
  {
    hide Select, Sorted;
    SelectFrom(rows, p);
  }

  // ---------------------------------------------------------------- stale rows

  function Without(rows: seq<Row>, gone: seq<Row>): (r: seq<Row>)
    ensures forall row :: row in r <==> row in rows && row !in gone
  {
    if rows == [] then [] else
    (if rows[0] in gone then [] else [rows[0]]) + Without(rows[1..], gone)
  }

  /** Rows that are not in range any more are not missed. */
  lemma {:induction false} SelectWithout(rows: seq<Row>, gone: seq<Row>, upper: Key, after: Option<Key>)
    requires forall row :: row in gone ==> !InRange(row.key, upper, after)
    ensures Select(Without(rows, gone), upper, after) == Select(rows, upper, after)
  {
    if rows != [] {
      SelectWithout(rows[1..], gone, upper, after);
      if rows[0] !in gone {
        assert Without(rows, gone)[1..] == Without(rows[1..], gone);
      } else {
        assert Without(rows, gone) == Without(rows[1..], gone);
      }
    }
  }

  /** What upstream confirms of some rows, and the rows it does not confirm. */
  function Confirmed(rows: seq<Row>, get: Row -> Option<Record>): seq<Record> {
    if rows == [] then [] else
    (if get(rows[0]).Some? then [get(rows[0]).value] else []) + Confirmed(rows[1..], get)
  }

  function Unconfirmed(rows: seq<Row>, get: Row -> Option<Record>): (r: seq<Row>)
    ensures forall row :: row in r ==> row in rows
  {
    if rows == [] then [] else
    (if get(rows[0]).None? then [rows[0]] else []) + Unconfirmed(rows[1..], get)
  }

  lemma {:induction false} ConfirmedCounts(rows: seq<Row>, get: Row -> Option<Record>)
    ensures |Confirmed(rows, get)| + |Unconfirmed(rows, get)| == |rows|
  {
    if rows != [] { ConfirmedCounts(rows[1..], get); }
  }

  lemma {:induction false} ConfirmedSum(a: seq<Row>, b: seq<Row>, get: Row -> Option<Record>)
    ensures Confirmed(a + b, get) == Confirmed(a, get) + Confirmed(b, get)
  {
    if a == [] {
      assert a + b == b;
    } else {
      ConfirmedFirst(a, get);
      ConfirmedFirst(a + b, get);
      hide Confirmed;
      assert (a + b)[1..] == a[1..] + b;
      ConfirmedSum(a[1..], b, get);
    }
  }

  lemma ConfirmedFirst(rows: seq<Row>, get: Row -> Option<Record>)
    requires rows != []
    ensures Confirmed(rows, get) == (if get(rows[0]).Some? then [get(rows[0]).value] else []) + Confirmed(rows[1..], get)
  {
  }

  // ---------------------------------------------------------------- the service

  /** An empty cursor counts as none. */
  predicate Given(token: Option<string>) { token.Some? && token.value != "" }

  datatype Reply =
    | Page(results: seq<Record>, total: nat, next: Option<string>, staleSkipped: nat)
    | InvalidCursor
    | Conflict

  function Min(a: int, b: int): int { if a <= b then a else b }

  /** How many of the candidates a page examines: up to the one that fills it. */
  function Examined(candidates: seq<Row>, kind: Option<string>, size: nat): (n: nat)
    requires size > 0
    ensures n <= |candidates| && (candidates != [] ==> n > 0)
  {
    if candidates == [] then 0
    else if Fits(candidates[0], kind) then
      if size == 1 then 1 else 1 + Examined(candidates[1..], kind, size - 1)
    else 1 + Examined(candidates[1..], kind, size)
  }

  lemma {:induction false} ExaminedMore(candidates: seq<Row>, kind: Option<string>, size: nat, n: nat)
    requires size > 0 && n <= |candidates| && |Matching(candidates[..n], kind)| < size
    ensures Examined(candidates, kind, size) == n + Examined(candidates[n..], kind, size - |Matching(candidates[..n], kind)|)
    decreases n
  {
    if n == 0 {
      assert candidates[0..] == candidates && candidates[..0] == [];
    } else {
      assert candidates[..n][1..] == candidates[1..][..n - 1] && candidates[1..][n - 1..] == candidates[n..];
      ExaminedMore(candidates[1..], kind, if Fits(candidates[0], kind) then size - 1 else size, n - 1);
    }
  }

  class Scanner {
    var rows: seq<Row>  // the live rows of the scope, in key order

    constructor (rows: seq<Row>)
      requires Sorted(rows)
      ensures this.rows == rows
    {
      this.rows := rows;
    }

    /** `_initial_total`: with a type filter, the rows are counted in batches. */
    method InitialTotal(kind: Option<string>, upper: Key) returns (total: nat)
      requires Sorted(rows) && rows != [] && upper == rows[|rows| - 1].key
      ensures total == |Matching(rows, kind)|
    {
      hide Matching, Select, Sorted, Candidates;
      total := 0;
      var p := 0;
      FirstBatch(rows, upper);
      MatchingNone(kind);
      var candidates := Candidates(rows, upper, None, COUNT_BATCH);
      assert rows[..0] == [] && rows[0..] == rows;
      while candidates != []
        invariant p <= |rows| && candidates == Take(rows[p..], COUNT_BATCH)
        invariant total == |Matching(rows[..p], kind)|
        decreases |rows| - p
      {
        hide *;
        CountBatch(rows, p, candidates, kind);
        total := total + |Matching(candidates, kind)|;
        p := p + |candidates|;
        NextBatch(rows, p, upper);
        candidates := Candidates(rows, upper, Some(candidates[|candidates| - 1].key), COUNT_BATCH);
      }
      assert rows[..p] == rows;
    }

    /** The loop that examines candidates until the page is full. */
    method Examine(candidates: seq<Row>, kind: Option<string>, size: nat) returns (examined: nat, snapshots: seq<Row>)
      requires size > 0
      ensures examined == Examined(candidates, kind, size) && snapshots == Matching(candidates[..examined], kind)
    {
      examined, snapshots := 0, [];
      while examined < |candidates|
        invariant examined <= |candidates| && snapshots == Matching(candidates[..examined], kind) && |snapshots| < size
        invariant Examined(candidates, kind, size) == examined + Examined(candidates[examined..], kind, size - |snapshots|)
      {
        var item := candidates[examined];
        assert candidates[..examined + 1] == candidates[..examined] + [item];
        MatchingSum(candidates[..examined], [item], kind);
        assert candidates[examined..][0] == item;
        examined := examined + 1;
        if Fits(item, kind) {
          snapshots := snapshots + [item];
        }
        if |snapshots| == size {
          return;
        }
        ExaminedMore(candidates, kind, size, examined);
      }
    }

    /**
     * `scan` in page mode.  `later` is the table when it is read again after the upstream calls; `get` is what
     * upstream answers about a row.
     */
    method Scan(lib: Library, scope: Scope, token: Option<string>, size: nat, kind: Option<string>, now: int,
                later: seq<Row>, get: Row -> Option<Record>)
      returns (reply: Reply)
      requires 1 <= size <= 100 && Sorted(rows)
      modifies this
      ensures reply.InvalidCursor? <==> Given(token) && !DecodeCursor(lib, token.value, scope).Ok?
      ensures !reply.Page? ==> rows == old(rows)
      ensures !Given(token) && old(rows) == [] ==> reply == Page([], 0, None, 0) && rows == []
      ensures !Given(token) && old(rows) != [] ==>
        var upper := old(rows)[|old(rows)| - 1].key;
        Answers(reply, old(rows), later, rows, lib, scope, State(now, upper, upper, |Matching(old(rows), kind)|), None, size, kind, get)
      ensures Given(token) && DecodeCursor(lib, token.value, scope).Ok? ==>
        var state := DecodeCursor(lib, token.value, scope).state;
        Answers(reply, old(rows), later, rows, lib, scope, state, Some(state.after), size, kind, get)
    {
      hide Answers, DecodeCursor, Matching;
      var state, after;
      if Given(token) {
        var decoded := DecodeCursor(lib, token.value, scope);
        if !decoded.Ok? {
          return InvalidCursor;
        }
        state, after := decoded.state, Some(decoded.state.after);
      } else {
        if rows == [] {
          return Page([], 0, None, 0);
        }
        var upper := rows[|rows| - 1].key;
        var total := InitialTotal(kind, upper);
        state, after := State(now, upper, upper, total), None;
      }
      reply := PageFrom(lib, scope, state, after, size, kind, later, get);
    }

    /** `scan` once the cursor has been read. */
    method PageFrom(lib: Library, scope: Scope, state: State, after: Option<Key>, size: nat, kind: Option<string>,
                    later: seq<Row>, get: Row -> Option<Record>)
      returns (reply: Reply)
      requires 1 <= size <= 100
      modifies this
      ensures Answers(reply, old(rows), later, rows, lib, scope, state, after, size, kind, get)
      ensures !reply.InvalidCursor? && (reply.Conflict? ==> rows == old(rows))
    {
      hide Select, Matching, Without, Confirmed, Unconfirmed, EncodeCursor;
      var candidates := Candidates(rows, state.upper, after, Min(size * 2, 200));
      var examined, snapshots := Examine(candidates, kind, size);
      var rawAfter := if examined > 0 then Some(candidates[examined - 1].key) else after;
      var hasMore := rawAfter.Some? && Candidates(rows, state.upper, rawAfter, 1) != [];
      if exists row :: row in snapshots && row !in later {
        return Conflict;
      }
      var stale := Unconfirmed(snapshots, get);
      rows := Without(later, stale);
      reply := Page(Confirmed(snapshots, get), state.total,
                    if hasMore then Some(EncodeCursor(lib, state.(after := rawAfter.value), scope)) else None, |stale|);
    }
  }

  /** What one page answers, from the rows it read and the position it started from. */
  ghost predicate Answers(reply: Reply, before: seq<Row>, later: seq<Row>, rows: seq<Row>, lib: Library, scope: Scope, state: State,
                          after: Option<Key>, size: nat, kind: Option<string>, get: Row -> Option<Record>)
    requires size > 0
  {
    var candidates := Candidates(before, state.upper, after, Min(size * 2, 200));
    var examined := Examined(candidates, kind, size);
    var snapshots := Matching(candidates[..examined], kind);
    var rawAfter := if examined > 0 then Some(candidates[examined - 1].key) else after;
    if exists row :: row in snapshots && row !in later then reply.Conflict?
    else
      && rows == Without(later, Unconfirmed(snapshots, get))
      && reply == Page(
           Confirmed(snapshots, get), state.total,
           if rawAfter.Some? && Candidates(before, state.upper, rawAfter, 1) != []
           then Some(EncodeCursor(lib, state.(after := rawAfter.value), scope)) else None,
           |Unconfirmed(snapshots, get)|)
  }

  // ---------------------------------------------------------------- following the cursors

  /** The cursor to position `p` is short enough to be decoded, and names no empty id. */
  ghost predicate CursorFits(lib: Library, scope: Scope, rows: seq<Row>, now: int, total: nat, p: nat)
    requires 0 < p <= |rows|
  {
    var state := State(now, rows[|rows| - 1].key, rows[p - 1].key, total);
    WellFormed(state) && |EncodeCursor(lib, state, scope)| <= MAX_LENGTH
  }

  /** The cursor to position `p` of the rows that were there at the start. */
  function CursorTo(lib: Library, scope: Scope, rows: seq<Row>, now: int, total: nat, p: nat): Option<string>
    requires p <= |rows|
  {
    if 0 < p < |rows| then Some(EncodeCursor(lib, State(now, rows[|rows| - 1].key, rows[p - 1].key, total), scope)) else None
  }

  /** One page of an undisturbed scan that stands at position `p`: it moves on to `q`. */
  ghost predicate PageAt(reply: Reply, rows: seq<Row>, lib: Library, scope: Scope, now: int, total: nat, p: nat, q: nat,
                         kind: Option<string>, get: Row -> Option<Record>)
  {
    && p < q <= |rows|
    && reply == Page(Confirmed(Matching(rows[p..q], kind), get), total, CursorTo(lib, scope, rows, now, total, q),
                     |Unconfirmed(Matching(rows[p..q], kind), get)|)
  }

  lemma PageMoves(reply: Reply, all: seq<Row>, before: seq<Row>, after: seq<Row>, lib: Library, scope: Scope, now: int, total: nat,
                  p: nat, size: nat, kind: Option<string>, get: Row -> Option<Record>) returns (q: nat)
    requires Sorted(all) && p < |all| && 1 <= size <= 100
    requires forall k :: p <= k <= |all| ==> Select(before, all[|all| - 1].key, Position(all, k)) == all[k..]
    requires forall row :: row in all[p..] ==> row in before
    requires var upper := all[|all| - 1].key;
      Answers(reply, before, before, after, lib, scope, State(now, upper, if p == 0 then upper else all[p - 1].key, total),
              Position(all, p), size, kind, get)
    ensures PageAt(reply, all, lib, scope, now, total, p, q, kind, get)
    ensures after == Without(before, Unconfirmed(Matching(all[p..q], kind), get))
  {
    hide Sorted, Select, Matching, Confirmed, Unconfirmed, Without, EncodeCursor, Fits;
    var upper := all[|all| - 1].key;
    assert Select(before, upper, Position(all, p)) == all[p..];
    var candidates := Candidates(before, upper, Position(all, p), Min(size * 2, 200));
    var examined := Examined(candidates, kind, size);
    q := p + examined;
    assert candidates == Take(all[p..], Min(size * 2, 200)) && candidates != [];
    assert candidates[..examined] == all[p..q];
    assert candidates[examined - 1] == all[q - 1];
    assert Select(before, upper, Position(all, q)) == all[q..];
  }

  lemma {:induction false} WithoutSorted(rows: seq<Row>, gone: seq<Row>)
    requires Sorted(rows)
    ensures Sorted(Without(rows, gone))
  {
    if rows != [] {
      WithoutSorted(rows[1..], gone);
      var rest := Without(rows[1..], gone);
      forall k | 0 <= k < |rest| ensures Before(rows[0].key, rest[k].key) {
        assert rest[k] in rest;
        var j :| 0 <= j < |rows[1..]| && rows[1..][j] == rest[k];
        assert rows[j + 1] == rest[k];
      }
    }
  }

  /** From position `p` on, the table still shows the rows that were there at the start. */
  ghost predicate Ahead(rows: seq<Row>, all: seq<Row>, p: nat) {
    && p <= |all| && all != []
    && (forall k :: p <= k <= |all| ==> Select(rows, all[|all| - 1].key, Position(all, k)) == all[k..])
    && (forall row :: row in all[p..] ==> row in rows)
  }

  lemma AheadStart(all: seq<Row>)
    requires Sorted(all) && all != []
    ensures Ahead(all, all, 0)
  {
    forall k | 0 <= k <= |all| ensures Select(all, all[|all| - 1].key, Position(all, k)) == all[k..] { SelectFrom(all, k); }
  }

  /** Marking rows of the page just answered leaves what is ahead alone. */
  lemma AheadMoves(rows: seq<Row>, all: seq<Row>, p: nat, q: nat, gone: seq<Row>)
    requires Ahead(rows, all, p) && p < q <= |all| && Sorted(all)
    requires forall row :: row in gone ==> row in all[p..q]
    ensures Ahead(Without(rows, gone), all, q)
  {
    var upper := all[|all| - 1].key;
    forall k | q <= k <= |all| ensures Select(Without(rows, gone), upper, Position(all, k)) == all[k..] {
      forall row | row in gone ensures !InRange(row.key, upper, Position(all, k)) {
        assert row in all[..k];
        EarlierOut(all, k, row);
      }
      SelectWithout(rows, gone, upper, Position(all, k));
    }
    forall row | row in all[q..] ensures row in Without(rows, gone) {
      assert row in all[p..];
      if row in gone { Apart(all, p, q, row); }
    }
  }

  lemma Apart(all: seq<Row>, p: nat, q: nat, row: Row)
    requires Sorted(all) && p <= q <= |all| && row in all[p..q]
    ensures row !in all[q..]
  {
    var i :| p <= i < q && all[i] == row;
    forall j | q <= j < |all| ensures all[j] != row { BeforeOrder(all[i].key, all[j].key); }
  }

  lemma {:induction false} UnconfirmedIn(rows: seq<Row>, page: seq<Row>, kind: Option<string>, get: Row -> Option<Record>)
    requires rows == Unconfirmed(Matching(page, kind), get)
    ensures forall row :: row in rows ==> row in page
  {
  }

  /** A scan that has answered everything up to position `p`. */
  ghost predicate Upto(results: seq<Record>, stale: nat, all: seq<Row>, p: nat, kind: Option<string>, get: Row -> Option<Record>)
    requires p <= |all|
  {
    results == Confirmed(Matching(all[..p], kind), get) && |results| + stale == |Matching(all[..p], kind)|
  }

  lemma UptoMoves(results: seq<Record>, stale: nat, all: seq<Row>, p: nat, q: nat, kind: Option<string>, get: Row -> Option<Record>)
    requires p <= q <= |all| && Upto(results, stale, all, p, kind, get)
    ensures Upto(results + Confirmed(Matching(all[p..q], kind), get), stale + |Unconfirmed(Matching(all[p..q], kind), get)|,
                 all, q, kind, get)
  {
    assert all[..q] == all[..p] + all[p..q];
    MatchingSum(all[..p], all[p..q], kind);
    ConfirmedSum(Matching(all[..p], kind), Matching(all[p..q], kind), get);
    ConfirmedCounts(Matching(all[p..q], kind), get);
  }

  /** One request of an undisturbed scan, with the cursor of the page before it. */
  method NextPage(scanner: Scanner, lib: Library, scope: Scope, token: Option<string>, size: nat, kind: Option<string>, now: int,
                  get: Row -> Option<Record>, ghost all: seq<Row>, ghost p: nat)
    returns (reply: Reply, ghost q: nat)
    requires 1 <= size <= 100 && Sorted(scanner.rows) && Sorted(all) && Lawful(lib) && p < |all| && Ahead(scanner.rows, all, p)
    requires 0 < p ==> CursorFits(lib, scope, all, now, |Matching(all, kind)|, p)
    requires token == CursorTo(lib, scope, all, now, |Matching(all, kind)|, p) && (p == 0 ==> scanner.rows == all)
    modifies scanner
    ensures PageAt(reply, all, lib, scope, now, |Matching(all, kind)|, p, q, kind, get)
    ensures Ahead(scanner.rows, all, q) && Sorted(scanner.rows)
  {
    hide Sorted, Lawful, Answers, Ahead, Matching, Unconfirmed, EncodeCursor, DecodeCursor, CursorFits, PageAt, Select, Without;
    ghost var before := scanner.rows;
    TokenReads(lib, scope, all, now, |Matching(all, kind)|, p);
    reply := scanner.Scan(lib, scope, token, size, kind, now, scanner.rows, get);
    AheadParts(before, all, p);
    q := PageMoves(reply, all, before, scanner.rows, lib, scope, now, |Matching(all, kind)|, p, size, kind, get);
    assert p < q <= |all| by { hide *; PageParts(reply, all, lib, scope, now, |Matching(all, kind)|, p, q, kind, get); }
    ghost var gone := Unconfirmed(Matching(all[p..q], kind), get);
    WithoutSorted(before, gone);
    UnconfirmedIn(gone, all[p..q], kind, get);
    AheadMoves(before, all, p, q, gone);
  }

  lemma PageParts(reply: Reply, rows: seq<Row>, lib: Library, scope: Scope, now: int, total: nat, p: nat, q: nat,
                  kind: Option<string>, get: Row -> Option<Record>)
    requires PageAt(reply, rows, lib, scope, now, total, p, q, kind, get)
    ensures p < q <= |rows|
  {
  }

  /**
   * Follow `next_cursor` from the start to the end over a projection that nobody else changes: every matching row is
   * visited once, in key order, and confirmed and stale rows add up to the total.
   */
  method Traverse(scanner: Scanner, lib: Library, scope: Scope, size: nat, kind: Option<string>, now: int, get: Row -> Option<Record>)
    returns (results: seq<Record>, total: nat, stale: nat)
    requires 1 <= size <= 100 && Sorted(scanner.rows) && Lawful(lib)
    requires forall p :: 0 < p < |scanner.rows| ==>
      CursorFits(lib, scope, scanner.rows, now, |Matching(scanner.rows, kind)|, p)
    modifies scanner
    ensures total == |Matching(old(scanner.rows), kind)| == |results| + stale
    ensures results == Confirmed(Matching(old(scanner.rows), kind), get)
  {
    var all := scanner.rows;
    hide Sorted, Lawful, Ahead, Matching, Confirmed, Unconfirmed, EncodeCursor, CursorFits;
    Nothing(kind, get);
    if all == [] {
      return [], 0, 0;
    }
    AheadStart(all);
    assert all[..0] == [];
    results, stale, total := [], 0, 0;
    var token: Option<string> := None;
    ghost var p := 0;
    while true
      invariant p < |all| && Ahead(scanner.rows, all, p) && Sorted(scanner.rows)
      invariant token == CursorTo(lib, scope, all, now, |Matching(all, kind)|, p)
      invariant Upto(results, stale, all, p, kind, get)
      invariant p == 0 ==> scanner.rows == all
      decreases |all| - p
    {
      var reply;
      ghost var q;
      reply, q := NextPage(scanner, lib, scope, token, size, kind, now, get, all, p);
      UptoMoves(results, stale, all, p, q, kind, get);
      results, stale, total := results + reply.results, stale + reply.staleSkipped, reply.total;
      p := q;
      token := reply.next;
      if token.None? {
        assert all[..p] == all;
        return;
      }
    }
  }

  lemma Nothing(kind: Option<string>, get: Row -> Option<Record>)
    ensures Matching([], kind) == [] && Confirmed([], get) == []
  {
  }

  lemma AheadParts(rows: seq<Row>, all: seq<Row>, p: nat)
    requires Ahead(rows, all, p)
    ensures forall k :: p <= k <= |all| ==> Select(rows, all[|all| - 1].key, Position(all, k)) == all[k..]
    ensures forall row :: row in all[p..] ==> row in rows
  {
  }

  /** The cursor of a page is read back as the state it stands for. */
  lemma TokenReads(lib: Library, scope: Scope, all: seq<Row>, now: int, total: nat, p: nat)
    requires Lawful(lib) && p < |all| && (0 < p ==> CursorFits(lib, scope, all, now, total, p))
    ensures var token := CursorTo(lib, scope, all, now, total, p);
      && (p == 0 <==> token.None?) && (p == 0 <==> !Given(token))
      && (token.Some? ==> DecodeCursor(lib, token.value, scope) == Ok(State(now, all[|all| - 1].key, all[p - 1].key, total)))
  {
    if 0 < p { CursorRoundTrip(lib, State(now, all[|all| - 1].key, all[p - 1].key, total), scope); }
  }
}
