// The paging query over the memory projection: candidates are read in a growing
// window, hydrated from upstream a batch at a time, and the page is cut from a
// last reading under the project lock.  Every reading may differ from the one
// before: other requests change the projection at any time.
module QueryMemories {
  import opened SetSizes
  import opened Wrappers

  const HORIZON := 5000  // EXPLORER_RECORD_HORIZON
  const BUFFER := 20     // _HYDRATION_BUFFER

  /** A row as read: its id, and everything else the snapshot compares (its version). */
  datatype Snapshot = Snapshot(id: string, version: int)

  datatype Record = Record(body: string)

  datatype Hydrated = Hydrated(snapshot: Snapshot, record: Record)

  /** What is read under the lock: the live active rows of the scope, and the matching ones in query order. */
  datatype Locked = Locked(live: map<string, Snapshot>, ordered: seq<Snapshot>)

  datatype Outcome =
    | Page(results: seq<Record>, total: nat)
    | ProjectionConflict  // "Memory projection changed / order changed during hydration; retry the query"
    | HorizonConflict     // "Memory hydration horizon reached; retry the query"

  function Min(a: int, b: int): int { if a <= b then a else b }

  function Ids(rows: seq<Snapshot>): (r: set<string>) { set s | s in rows :: s.id }

  /** The elements of `rows` whose ids are not in `ids`, in order. */
  function Unseen(rows: seq<Snapshot>, ids: set<string>): (r: seq<Snapshot>)
    ensures forall s :: s in r <==> s in rows && s.id !in ids
    ensures |r| <= |rows|
  {
    if rows == [] then [] else
    (if rows[0].id in ids then [] else [rows[0]]) + Unseen(rows[1..], ids)
  }

  /** The part of `rows` between two positions, as far as there are rows. */
  function Cut<T>(rows: seq<T>, from: nat, to: nat): seq<T> {
    if from <= Min(to, |rows|) then rows[from..Min(to, |rows|)] else []
  }

  /** The row was seen before, and is not what it was. */
  predicate Differs(observed: map<string, Snapshot>, s: Snapshot) { s.id in observed && observed[s.id] != s }

  // ---------------------------------------------------------------- one turn of the loop

  /** What the loop keeps: the window, what was fetched and seen, and how upstream answered. */
  datatype Progress = Progress(
    window: nat, fetched: set<string>, observed: map<string, Snapshot>, changed: bool,
    hydrated: map<string, Hydrated>, stale: map<string, Snapshot>)

  function BatchSize(size: nat): nat { Min(size + BUFFER, HORIZON) }

  function Start(size: nat): Progress { Progress(BatchSize(size), {}, map[], false, map[], map[]) }

  /** The rows that a candidate page reads. */
  function Candidates(window: nat, rows: seq<Snapshot>): seq<Snapshot> { rows[..Min(window, |rows|)] }

  /** Each row as it was seen first. */
  function Noted(observed: map<string, Snapshot>, rows: seq<Snapshot>): map<string, Snapshot> {
    if rows == [] then observed
    else
      var noted, last := Noted(observed, rows[..|rows| - 1]), rows[|rows| - 1];
      if last.id in noted then noted else noted[last.id := last]
  }

  /** Whether a row is not what it was when it was seen first. */
  predicate Changed(observed: map<string, Snapshot>, rows: seq<Snapshot>) {
    rows != [] && (Changed(observed, rows[..|rows| - 1]) || Differs(Noted(observed, rows[..|rows| - 1]), rows[|rows| - 1]))
  }

  /** `candidate_page`. */
  function Looked(p: Progress, rows: seq<Snapshot>): Progress {
    var candidates := Candidates(p.window, rows);
    p.(observed := Noted(p.observed, candidates), changed := p.changed || Changed(p.observed, candidates))
  }

  /** The page is full, or everything there is has been looked at. */
  predicate Done(p: Progress, end: nat, rows: seq<Snapshot>) {
    var candidates := Candidates(p.window, rows);
    var logical := Unseen(candidates, p.stale.Keys);
    || (|logical| >= end && forall k :: 0 <= k < end ==> logical[k].id in p.hydrated)
    || (|rows| <= |candidates| && forall s :: s in candidates ==> s.id in p.hydrated || s.id in p.stale)
  }

  /** The budget is used up, or the widest window shows nothing new. */
  predicate Stuck(p: Progress, rows: seq<Snapshot>) {
    |p.fetched| >= HORIZON || (Unseen(Candidates(p.window, rows), p.fetched) == [] && p.window >= HORIZON)
  }

  function Hydrations(hydrated: map<string, Hydrated>, batch: seq<Snapshot>, get: Snapshot -> Option<Record>): map<string, Hydrated> {
    if batch == [] then hydrated
    else
      var before, last := Hydrations(hydrated, batch[..|batch| - 1], get), batch[|batch| - 1];
      match get(last)
      case Some(record) => before[last.id := Hydrated(last, record)]
      case None => before
  }

  function Stales(stale: map<string, Snapshot>, batch: seq<Snapshot>, get: Snapshot -> Option<Record>): map<string, Snapshot> {
    if batch == [] then stale
    else
      var before, last := Stales(stale, batch[..|batch| - 1], get), batch[|batch| - 1];
      if get(last).None? then before[last.id := last] else before
  }

  /** The rows to fetch next. */
  function Batch(p: Progress, size: nat, rows: seq<Snapshot>): seq<Snapshot> {
    var unseen, budget := Unseen(Candidates(p.window, rows), p.fetched), HORIZON - |p.fetched|;
    if budget <= 0 then [] else unseen[..Min(Min(BatchSize(size), budget), |unseen|)]
  }

  function Fetched(p: Progress, batch: seq<Snapshot>, get: Snapshot -> Option<Record>): Progress {
    p.(fetched := p.fetched + Ids(batch), hydrated := Hydrations(p.hydrated, batch, get), stale := Stales(p.stale, batch, get))
  }

  function Widened(p: Progress, size: nat): Progress { p.(window := Min(p.window + BatchSize(size), HORIZON)) }

  lemma BatchGrows(p: Progress, size: nat, rows: seq<Snapshot>)
    requires size >= 1 && |p.fetched| < HORIZON && Unseen(Candidates(p.window, rows), p.fetched) != []
    ensures Batch(p, size, rows) != [] && |p.fetched + Ids(Batch(p, size, rows))| > |p.fetched|
  {
    var s := Batch(p, size, rows)[0];
    assert s.id in Ids(Batch(p, size, rows)) && s.id !in p.fetched;
    Smaller(p.fetched, p.fetched + Ids(Batch(p, size, rows)), s.id);
  }

  /** The loop: how it ends, and whether it was forced to.  `db(n)` is what the n-th candidate page reads. */
  function RunOf(p: Progress, size: nat, end: nat, db: nat -> seq<Snapshot>, turn: nat, get: Snapshot -> Option<Record>): (Progress, bool)
    requires size >= 1
    decreases HORIZON - |p.fetched|, HORIZON - p.window
  {
    var q := Looked(p, db(turn));
    if Done(q, end, db(turn)) then (q, false)
    else if Stuck(q, db(turn)) then (q, true)
    else if Unseen(Candidates(q.window, db(turn)), q.fetched) == [] then RunOf(Widened(q, size), size, end, db, turn + 1, get)
    else
      BatchGrows(q, size, db(turn));
      RunOf(Fetched(q, Batch(q, size, db(turn)), get), size, end, db, turn + 1, get)
  }

  // ---------------------------------------------------------------- the last reading

  /** The rows marked stale: those that upstream did not confirm and that have not changed since. */
  function Marked(locked: Locked, stale: map<string, Snapshot>): set<string> {
    set id | id in stale && id in locked.live && locked.live[id] == stale[id]
  }

  /** The matching rows in order, once the stale ones are marked. */
  function FinalRows(locked: Locked, stale: map<string, Snapshot>): seq<Snapshot> {
    Unseen(locked.ordered, Marked(locked, stale))
  }

  function RecordsOf(rows: seq<Snapshot>, hydrated: map<string, Hydrated>): (r: seq<Record>) {
    if rows == [] then []
    else if rows[0].id in hydrated then [hydrated[rows[0].id].record] + RecordsOf(rows[1..], hydrated)
    else RecordsOf(rows[1..], hydrated)
  }

  /** The checks of `finalize_query`. */
  predicate Agrees(p: Progress, end: nat, locked: Locked) {
    var candidates := Candidates(p.window, FinalRows(locked, p.stale));
    var needed := candidates[..Min(end, |candidates|)];
    && !p.changed
    && (forall id :: id in p.stale ==> id in locked.live && locked.live[id] == p.stale[id])
    && (forall id :: id in p.hydrated ==> id in locked.live && locked.live[id] == p.hydrated[id].snapshot)
    && forall k :: 0 <= k < |needed| ==> needed[k].id in p.hydrated && p.hydrated[needed[k].id].snapshot == needed[k]
  }

  /** `finalize_query`. */
  function Finalized(p: Progress, offset: nat, end: nat, locked: Locked, forced: bool): Outcome {
    if forced then HorizonConflict
    else if !Agrees(p, end, locked) then ProjectionConflict
    else
      var rows := FinalRows(locked, p.stale);
      Page(Cut(RecordsOf(Candidates(p.window, rows), p.hydrated), offset, end), |rows|)
  }

  /** The answer to a query for `size` rows from `offset` on, and what the loop had kept by then. */
  function Answered(offset: nat, size: nat, db: nat -> seq<Snapshot>, get: Snapshot -> Option<Record>, locked: Locked): (Outcome, Progress)
    requires size >= 1
  {
    var (p, forced) := RunOf(Start(size), size, offset + size, db, 0, get);
    (Finalized(p, offset, offset + size, locked, forced), p)
  }

  /** One turn of the loop. */
  lemma RunOfIs(p: Progress, size: nat, end: nat, db: nat -> seq<Snapshot>, turn: nat, get: Snapshot -> Option<Record>)
    requires size >= 1
    ensures var q := Looked(p, db(turn));
      RunOf(p, size, end, db, turn, get) ==
        if Done(q, end, db(turn)) then (q, false)
        else if Stuck(q, db(turn)) then (q, true)
        else if Unseen(Candidates(q.window, db(turn)), q.fetched) == [] then RunOf(Widened(q, size), size, end, db, turn + 1, get)
        else RunOf(Fetched(q, Batch(q, size, db(turn)), get), size, end, db, turn + 1, get)
  {
    hide Looked, Done, Stuck, Unseen, Candidates, Widened, Fetched, Batch;
  }

  // ---------------------------------------------------------------- the query

  class Query {
    const size: nat
    const offset: nat  // logical_offset
    const end: nat     // logical_end
    var window: nat
    var fetched: set<string>
    var observed: map<string, Snapshot>
    var hydrated: map<string, Hydrated>
    var stale: map<string, Snapshot>
    var observationChanged: bool

    ghost predicate Valid() { size >= 1 && end == offset + size && end <= HORIZON }

    function State(): Progress
      reads this
    {
      Progress(window, fetched, observed, observationChanged, hydrated, stale)
    }

    /** Queries past the horizon are refused when they are parsed. */
    constructor (page: nat, size: nat)
      requires page >= 1 && size >= 1 && page * size <= HORIZON
      ensures this.size == size && offset == (page - 1) * size && Valid() && State() == Start(size)
    {
      this.size, offset := size, (page - 1) * size;
      end := (page - 1) * size + size;
      window := Min(size + BUFFER, HORIZON);
      fetched, observed, hydrated, stale, observationChanged := {}, map[], map[], map[], false;
    }

    /** `candidate_page`, which compares each row with the first time it was seen. */
    method CandidatePage(rows: seq<Snapshot>) returns (candidates: seq<Snapshot>)
      modifies this`observed, this`observationChanged
      ensures candidates == Candidates(window, rows) && State() == Looked(old(State()), rows)
    {
      candidates := Candidates(window, rows);
      for n := 0 to |candidates|
        invariant observed == Noted(old(observed), candidates[..n])
        invariant observationChanged == (old(observationChanged) || Changed(old(observed), candidates[..n]))
      {
        var snapshot := candidates[n];
        assert candidates[..n + 1][..n] == candidates[..n];
        if snapshot.id !in observed {
          observed := observed[snapshot.id := snapshot];
        }
        if observed[snapshot.id] != snapshot {
          observationChanged := true;
        }
      }
      assert candidates[..|candidates|] == candidates;
    }

    /** Fetch a batch and file each row under hydrated or stale. */
    method Hydrate(batch: seq<Snapshot>, get: Snapshot -> Option<Record>)
      modifies this`fetched, this`hydrated, this`stale
      ensures State() == Fetched(old(State()), batch, get)
    {
      fetched := fetched + Ids(batch);
      for n := 0 to |batch|
        invariant fetched == old(fetched) + Ids(batch)
        invariant hydrated == Hydrations(old(hydrated), batch[..n], get) && stale == Stales(old(stale), batch[..n], get)
      {
        var snapshot := batch[n];
        assert batch[..n + 1][..n] == batch[..n];
        match get(snapshot) {
          case None => stale := stale[snapshot.id := snapshot];
          case Some(record) => hydrated := hydrated[snapshot.id := Hydrated(snapshot, record)];
        }
      }
      assert batch[..|batch|] == batch;
    }

    /** `finalize_query`: mark, check again, read again, and cut the page. */
    method FinalizeQuery(locked: Locked, forced: bool) returns (outcome: Outcome)
      ensures outcome == Finalized(State(), offset, end, locked, forced)
    {
      var conflict := Conflicts(locked);
      if forced || conflict {
        return if forced then HorizonConflict else ProjectionConflict;
      }
      var rows := FinalRows(locked, stale);
      var ordered := RecordsOf(Candidates(window, rows), hydrated);
      return Page(Cut(ordered, offset, end), |rows|);
    }

    method Conflicts(locked: Locked) returns (conflict: bool)
      ensures conflict == !Agrees(State(), end, locked)
    {
      hide FinalRows;
      conflict := false;
      if exists id :: id in stale && !(id in locked.live && locked.live[id] == stale[id]) {
        conflict := true;
      }
      if exists id :: id in hydrated && !(id in locked.live && locked.live[id] == hydrated[id].snapshot) {
        conflict := true;
      }
      var candidates := Candidates(window, FinalRows(locked, stale));
      var needed := candidates[..Min(end, |candidates|)];
      if observationChanged
         || exists k :: 0 <= k < |needed| && !(needed[k].id in hydrated && hydrated[needed[k].id].snapshot == needed[k]) {
        conflict := true;
      }
    }

    /** `query_memories`; `db(n)` is what the n-th candidate page reads, `locked` what the last one does. */
    method Run(db: nat -> seq<Snapshot>, get: Snapshot -> Option<Record>, locked: Locked) returns (outcome: Outcome)
      requires Valid() && State() == Start(size)
      modifies this
      ensures (outcome, State()) == Answered(offset, size, db, get, locked)
    {
      hide RunOf, Looked, Done, Stuck, Batch, Fetched, Finalized, Noted, Changed, FinalRows, Unseen, Ids, Candidates, RecordsOf, Hydrations, Stales;
      var turn := 0;
      while true
        invariant RunOf(State(), size, end, db, turn, get) == RunOf(Start(size), size, end, db, 0, get)
        decreases HORIZON - |fetched|, HORIZON - window
      {
        var rows := db(turn);
        ghost var before := State();
        var candidates := CandidatePage(rows);
        ghost var q := State();
        LookedKeeps(before, rows);
        RunOfIs(before, size, end, db, turn, get);
        var logical := Unseen(candidates, stale.Keys);
        var pageIsFull := |logical| >= end && forall k :: 0 <= k < end ==> logical[k].id in hydrated;
        var exhausted := |rows| <= |candidates| && forall s :: s in candidates ==> s.id in hydrated || s.id in stale;
        assert (pageIsFull || exhausted) == Done(q, end, rows) by { DoneIs(q, end, rows); }
        if pageIsFull || exhausted {
          outcome := FinalizeQuery(locked, false);
          return;
        }
        var budget := HORIZON - |fetched|;
        var unseen := Unseen(candidates, fetched);
        assert Stuck(q, rows) == (budget <= 0 || (unseen == [] && window >= HORIZON)) by { StuckIs(q, rows); }
        if budget <= 0 {
          outcome := FinalizeQuery(locked, true);
          return;
        }
        turn := turn + 1;
        if unseen == [] {
          if window >= HORIZON {
            outcome := FinalizeQuery(locked, true);
            return;
          }
          window := Min(window + BatchSize(size), HORIZON);
        } else {
          BatchGrows(q, size, rows);
          BatchIs(q, size, rows);
          Hydrate(unseen[..Min(Min(BatchSize(size), budget), |unseen|)], get);
          FetchedKeeps(q, Batch(q, size, rows), get);
        }
      }
    }
  }

  lemma LookedKeeps(p: Progress, rows: seq<Snapshot>)
    ensures var q := Looked(p, rows);
      q.window == p.window && q.fetched == p.fetched && q.hydrated == p.hydrated && q.stale == p.stale
  {
  }

  lemma DoneIs(p: Progress, end: nat, rows: seq<Snapshot>)
    ensures var candidates := Candidates(p.window, rows);
      var logical := Unseen(candidates, p.stale.Keys);
      var full := |logical| >= end && forall k :: 0 <= k < end ==> logical[k].id in p.hydrated;
      var exhausted := |rows| <= |candidates| && forall s :: s in candidates ==> s.id in p.hydrated || s.id in p.stale;
      Done(p, end, rows) == (full || exhausted)
  {
    hide Unseen;
  }

  lemma StuckIs(p: Progress, rows: seq<Snapshot>)
    ensures Stuck(p, rows) == (|p.fetched| >= HORIZON || (Unseen(Candidates(p.window, rows), p.fetched) == [] && p.window >= HORIZON))
  {
  }

  lemma BatchIs(p: Progress, size: nat, rows: seq<Snapshot>)
    requires |p.fetched| < HORIZON
    ensures var unseen := Unseen(Candidates(p.window, rows), p.fetched);
      Batch(p, size, rows) == unseen[..Min(Min(BatchSize(size), HORIZON - |p.fetched|), |unseen|)]
  {
    hide Unseen;
  }

  lemma FetchedKeeps(p: Progress, batch: seq<Snapshot>, get: Snapshot -> Option<Record>)
    ensures Fetched(p, batch, get).window == p.window && Fetched(p, batch, get).fetched == p.fetched + Ids(batch)
  {
  }
}
