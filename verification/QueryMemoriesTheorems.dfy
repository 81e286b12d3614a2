// What a query answers: which rows, how it copes with a projection that changes
// while it reads, and exactly which pages are always complete.
module QueryMemoriesTheorems {
  import opened QueryMemories
  import opened SetSizes
  import opened Wrappers

  ghost predicate Unique(rows: seq<Snapshot>) { forall i, j :: 0 <= i < j < |rows| ==> rows[i].id != rows[j].id }

  lemma {:induction false} UnseenUnique(rows: seq<Snapshot>, ids: set<string>)
    requires Unique(rows)
    ensures Unique(Unseen(rows, ids))
  {
    if rows != [] {
      UnseenUnique(rows[1..], ids);
      forall s | s in Unseen(rows[1..], ids) ensures s.id != rows[0].id {
        var k :| 0 <= k < |rows[1..]| && rows[1..][k] == s;
        assert rows[k + 1] == s;
      }
    }
  }

  lemma {:induction false} CountIds(rows: seq<Snapshot>)
    requires Unique(rows)
    ensures |Ids(rows)| == |rows|
  {
    if rows == [] {
      assert Ids(rows) == {};
    } else {
      var rest := rows[..|rows| - 1];
      CountIds(rest);
      var last := rows[|rows| - 1];
      assert forall s :: s in rest ==> s.id != last.id;
      assert Ids(rows) == Ids(rest) + {last.id};
    }
  }

  // ---------------------------------------------------------------- the tables of the loop

  /** Every row in `rows` was hydrated, from exactly this snapshot. */
  ghost predicate AllHydrated(rows: seq<Snapshot>, hydrated: map<string, Hydrated>) {
    forall k :: 0 <= k < |rows| ==> rows[k].id in hydrated && hydrated[rows[k].id].snapshot == rows[k]
  }

  lemma {:induction false} RecordsAt(rows: seq<Snapshot>, hydrated: map<string, Hydrated>, n: nat)
    requires n <= |rows| && AllHydrated(rows[..n], hydrated)
    ensures |RecordsOf(rows, hydrated)| >= n
    ensures forall k :: 0 <= k < n ==> rows[k].id in hydrated && RecordsOf(rows, hydrated)[k] == hydrated[rows[k].id].record
    decreases n
  {
    if n > 0 {
      assert rows[..n][0] == rows[0];
      assert rows[1..][..n - 1] == rows[..n][1..];
      RecordsAt(rows[1..], hydrated, n - 1);
      var rest := RecordsOf(rows[1..], hydrated);
      assert RecordsOf(rows, hydrated) == [hydrated[rows[0].id].record] + rest;
      forall k | 0 <= k < n ensures rows[k].id in hydrated && RecordsOf(rows, hydrated)[k] == hydrated[rows[k].id].record {
        if k > 0 { assert rows[1..][k - 1] == rows[k]; }
      }
    }
  }

  lemma {:induction false} RecordsBound(rows: seq<Snapshot>, hydrated: map<string, Hydrated>)
    ensures |RecordsOf(rows, hydrated)| <= |rows|
  {
    if rows != [] { RecordsBound(rows[1..], hydrated); }
  }

  /** `get` is what upstream answers about a row; None when it does not confirm it. */
  ghost predicate Confirmed(records: seq<Record>, rows: seq<Snapshot>, get: Snapshot -> Option<Record>) {
    |records| == |rows| && forall k :: 0 <= k < |rows| ==> get(rows[k]) == Some(records[k])
  }

  /** What holds of the hydration tables throughout. */
  ghost predicate Tables(fetched: set<string>, hydrated: map<string, Hydrated>, stale: map<string, Snapshot>,
                         get: Snapshot -> Option<Record>) {
    && |fetched| <= HORIZON && hydrated.Keys + stale.Keys == fetched && hydrated.Keys !! stale.Keys
    && (forall id :: id in hydrated ==> hydrated[id].snapshot.id == id && get(hydrated[id].snapshot) == Some(hydrated[id].record))
    && (forall id :: id in stale ==> stale[id].id == id && get(stale[id]) == None)
  }

  /** A batch is filed: each of its rows is hydrated or stale, as upstream answers, and the others are as before. */
  ghost predicate Filed(hydrated0: map<string, Hydrated>, stale0: map<string, Snapshot>, batch: seq<Snapshot>,
                        hydrated: map<string, Hydrated>, stale: map<string, Snapshot>, get: Snapshot -> Option<Record>) {
    FiledHydrated(hydrated0, batch, hydrated, get) && FiledStale(stale0, batch, stale, get)
  }

  ghost predicate FiledHydrated(hydrated0: map<string, Hydrated>, batch: seq<Snapshot>, hydrated: map<string, Hydrated>,
                                get: Snapshot -> Option<Record>) {
    && (forall id :: id in hydrated0 ==> id in hydrated && hydrated[id] == hydrated0[id])
    && (forall id :: id in hydrated && id !in hydrated0 ==>
          hydrated[id].snapshot in batch && hydrated[id].snapshot.id == id && get(hydrated[id].snapshot) == Some(hydrated[id].record))
    && (forall s :: s in batch && get(s).Some? ==> s.id in hydrated)
  }

  ghost predicate FiledStale(stale0: map<string, Snapshot>, batch: seq<Snapshot>, stale: map<string, Snapshot>,
                             get: Snapshot -> Option<Record>) {
    && (forall id :: id in stale0 ==> id in stale && stale[id] == stale0[id])
    && (forall id :: id in stale && id !in stale0 ==> stale[id] in batch && stale[id].id == id && get(stale[id]) == None)
    && (forall s :: s in batch && get(s).None? ==> s.id in stale)
  }

  lemma FileHydrated(hydrated0: map<string, Hydrated>, batch: seq<Snapshot>, s: Snapshot, hydrated: map<string, Hydrated>,
                     get: Snapshot -> Option<Record>)
    requires FiledHydrated(hydrated0, batch, hydrated, get) && s.id !in hydrated0
    ensures get(s).None? ==> FiledHydrated(hydrated0, batch + [s], hydrated, get)
    ensures get(s).Some? ==> FiledHydrated(hydrated0, batch + [s], hydrated[s.id := Hydrated(s, get(s).value)], get)
  {
    assert forall t :: t in batch + [s] <==> t in batch || t == s;
  }

  lemma FileStale(stale0: map<string, Snapshot>, batch: seq<Snapshot>, s: Snapshot, stale: map<string, Snapshot>,
                  get: Snapshot -> Option<Record>)
    requires FiledStale(stale0, batch, stale, get) && s.id !in stale0
    ensures get(s).Some? ==> FiledStale(stale0, batch + [s], stale, get)
    ensures get(s).None? ==> FiledStale(stale0, batch + [s], stale[s.id := s], get)
  {
    assert forall t :: t in batch + [s] <==> t in batch || t == s;
  }

  /** What a batch adds to the tables. */
  lemma {:induction false} BatchFiled(hydrated: map<string, Hydrated>, stale: map<string, Snapshot>, batch: seq<Snapshot>,
                                      get: Snapshot -> Option<Record>)
    requires Unique(batch) && forall s :: s in batch ==> s.id !in hydrated && s.id !in stale
    ensures Filed(hydrated, stale, batch, Hydrations(hydrated, batch, get), Stales(stale, batch, get), get)
    decreases |batch|
  {
    if batch != [] {
      var init, last := batch[..|batch| - 1], batch[|batch| - 1];
      PrefixUnique(batch, |batch| - 1);
      BatchFiled(hydrated, stale, init, get);
      FileHydrated(hydrated, init, last, Hydrations(hydrated, init, get), get);
      FileStale(stale, init, last, Stales(stale, init, get), get);
      assert batch == init + [last];
      hide FiledHydrated, FiledStale, Unique;
    }
  }

  lemma FiledAnswers(fetched: set<string>, hydrated0: map<string, Hydrated>, stale0: map<string, Snapshot>, batch: seq<Snapshot>,
                     hydrated: map<string, Hydrated>, stale: map<string, Snapshot>, get: Snapshot -> Option<Record>)
    requires Tables(fetched, hydrated0, stale0, get) && Filed(hydrated0, stale0, batch, hydrated, stale, get)
    ensures forall id :: id in hydrated ==> hydrated[id].snapshot.id == id && get(hydrated[id].snapshot) == Some(hydrated[id].record)
    ensures forall id :: id in stale ==> stale[id].id == id && get(stale[id]) == None
  {
  }

  lemma FiledKeys(hydrated0: map<string, Hydrated>, stale0: map<string, Snapshot>, batch: seq<Snapshot>,
                  hydrated: map<string, Hydrated>, stale: map<string, Snapshot>, get: Snapshot -> Option<Record>)
    requires Filed(hydrated0, stale0, batch, hydrated, stale, get)
    ensures hydrated.Keys + stale.Keys == hydrated0.Keys + stale0.Keys + Ids(batch)
  {
    hide Unique;
  }

  lemma FiledApart(hydrated0: map<string, Hydrated>, stale0: map<string, Snapshot>, batch: seq<Snapshot>,
                   hydrated: map<string, Hydrated>, stale: map<string, Snapshot>, get: Snapshot -> Option<Record>)
    requires Filed(hydrated0, stale0, batch, hydrated, stale, get) && Unique(batch) && hydrated0.Keys !! stale0.Keys
    requires forall s :: s in batch ==> s.id !in hydrated0 && s.id !in stale0
    ensures hydrated.Keys !! stale.Keys
  {
    hide Unique;
    forall id | id in hydrated ensures id !in stale {
      if id in stale && id !in hydrated0 && id !in stale0 { SameRow(batch, hydrated[id].snapshot, stale[id]); }
    }
  }

  lemma FiledTables(fetched: set<string>, hydrated0: map<string, Hydrated>, stale0: map<string, Snapshot>, batch: seq<Snapshot>,
                    hydrated: map<string, Hydrated>, stale: map<string, Snapshot>, get: Snapshot -> Option<Record>)
    requires Tables(fetched, hydrated0, stale0, get) && Filed(hydrated0, stale0, batch, hydrated, stale, get) && Unique(batch)
    requires |fetched| + |batch| <= HORIZON && forall s :: s in batch ==> s.id !in fetched
    ensures Tables(fetched + Ids(batch), hydrated, stale, get) && |fetched + Ids(batch)| == |fetched| + |batch|
  {
    hide Unique, Filed;
    MoreFetched(fetched, batch);
    FiledKeys(hydrated0, stale0, batch, hydrated, stale, get);
    assert forall s :: s in batch ==> s.id !in hydrated0 && s.id !in stale0;
    FiledApart(hydrated0, stale0, batch, hydrated, stale, get);
    FiledAnswers(fetched, hydrated0, stale0, batch, hydrated, stale, get);
    hide Ids;
  }

  lemma MoreFetched(fetched: set<string>, batch: seq<Snapshot>)
    requires Unique(batch) && forall s :: s in batch ==> s.id !in fetched
    ensures |fetched + Ids(batch)| == |fetched| + |batch|
  {
    hide Unique;
    CountIds(batch);
    assert fetched !! Ids(batch);
  }

  lemma SameRow(rows: seq<Snapshot>, s: Snapshot, t: Snapshot)
    requires Unique(rows) && s in rows && t in rows && s.id == t.id
    ensures s == t
  {
    var i :| 0 <= i < |rows| && rows[i] == s;
    var j :| 0 <= j < |rows| && rows[j] == t;
    assert i == j;
  }

  lemma PrefixUnique(rows: seq<Snapshot>, n: nat)
    requires Unique(rows) && n <= |rows|
    ensures Unique(rows[..n])
  {
  }

  ghost predicate Good(p: Progress, size: nat, get: Snapshot -> Option<Record>) {
    Tables(p.fetched, p.hydrated, p.stale, get) && BatchSize(size) <= p.window <= HORIZON
  }

  lemma BatchFits(p: Progress, size: nat, rows: seq<Snapshot>)
    requires Unique(rows)
    ensures var batch := Batch(p, size, rows);
      && Unique(batch) && (forall s :: s in batch ==> s in Candidates(p.window, rows) && s.id !in p.fetched)
      && (|p.fetched| <= HORIZON ==> |p.fetched| + |batch| <= HORIZON)
  {
    hide Unique;
    PrefixUnique(rows, Min(p.window, |rows|));
    UnseenUnique(Candidates(p.window, rows), p.fetched);
    hide Unseen;
    if |p.fetched| < HORIZON { PrefixUnique(Unseen(Candidates(p.window, rows), p.fetched), |Batch(p, size, rows)|); } else { UniqueNothing(); }
  }

  lemma UniqueNothing()
    ensures Unique([])
  {
  }

  lemma FetchedGood(p: Progress, size: nat, rows: seq<Snapshot>, get: Snapshot -> Option<Record>)
    requires Good(p, size, get) && Unique(rows)
    ensures Good(Fetched(p, Batch(p, size, rows), get), size, get)
    ensures Filed(p.hydrated, p.stale, Batch(p, size, rows), Hydrations(p.hydrated, Batch(p, size, rows), get), Stales(p.stale, Batch(p, size, rows), get), get)
  {
    hide Unique, Unseen, Filed, Hydrations, Stales, Ids;
    BatchFits(p, size, rows);
    var batch := Batch(p, size, rows);
    assert forall s :: s in batch ==> s.id !in p.hydrated && s.id !in p.stale;
    hide Batch;
    BatchFiled(p.hydrated, p.stale, batch, get);
    FiledTables(p.fetched, p.hydrated, p.stale, batch, Hydrations(p.hydrated, batch, get), Stales(p.stale, batch, get), get);
    hide Tables;
  }

  lemma LookedGood(p: Progress, size: nat, rows: seq<Snapshot>, get: Snapshot -> Option<Record>)
    requires Good(p, size, get)
    ensures Good(Looked(p, rows), size, get) && Good(Widened(p, size), size, get)
  {
    hide Tables, Noted, Changed;
  }

  /** However the projection changes, the loop ends with tables that say what upstream answered about at most 5000 rows. */
  lemma {:induction false} RunKeeps(p: Progress, size: nat, end: nat, db: nat -> seq<Snapshot>, turn: nat, get: Snapshot -> Option<Record>)
    requires size >= 1 && Good(p, size, get) && forall n :: Unique(db(n))
    ensures Good(RunOf(p, size, end, db, turn, get).0, size, get)
    decreases HORIZON - |p.fetched|, HORIZON - p.window
  {
    hide Looked, Done, Unseen, Fetched, Batch, Unique, Filed, RunOf, Candidates, Stuck, Widened, Good;
    var rows, q := db(turn), Looked(p, db(turn));
    LookedGood(p, size, rows, get);
    LookedGood(q, size, rows, get);
    LookedKeeps(p, rows);
    RunOfIs(p, size, end, db, turn, get);
    if !Done(q, end, rows) && !Stuck(q, rows) {
      TurnGrows(q, size, rows);
      if Unseen(Candidates(q.window, rows), q.fetched) == [] {
        RunKeeps(Widened(q, size), size, end, db, turn + 1, get);
      } else {
        FetchedGood(q, size, rows, get);
        FetchedKeeps(q, Batch(q, size, rows), get);
        RunKeeps(Fetched(q, Batch(q, size, rows), get), size, end, db, turn + 1, get);
      }
    }
  }

  // ---------------------------------------------------------------- the page

  /** Nothing that was hydrated or found stale has changed since, and the rows needed for the page were all hydrated. */
  ghost predicate Undisturbed(locked: Locked, hydrated: map<string, Hydrated>, stale: map<string, Snapshot>, needed: nat) {
    && (forall id :: id in stale ==> id in locked.live && locked.live[id] == stale[id])
    && (forall id :: id in hydrated ==> id in locked.live && locked.live[id] == hydrated[id].snapshot)
    && AllHydrated(Cut(FinalRows(locked, stale), 0, needed), hydrated)
  }

  /** The page holds what upstream confirms of the rows from position `from` to `to`, and counts them all. */
  ghost predicate Answers(outcome: Outcome, rows: seq<Snapshot>, from: nat, to: nat, get: Snapshot -> Option<Record>)
    requires outcome.Page?
  {
    outcome.total == |rows| && Confirmed(outcome.results, Cut(rows, from, to), get)
  }

  lemma CutRecords(rows: seq<Snapshot>, hydrated: map<string, Hydrated>, offset: nat, end: nat, window: nat,
                   fetched: set<string>, stale: map<string, Snapshot>, get: Snapshot -> Option<Record>)
    requires offset <= end && AllHydrated(Cut(rows, 0, Min(end, window)), hydrated) && Tables(fetched, hydrated, stale, get)
    ensures Confirmed(Cut(RecordsOf(rows[..Min(window, |rows|)], hydrated), offset, end), Cut(rows, offset, Min(end, window)), get)
  {
    var candidates := rows[..Min(window, |rows|)];
    var n := Min(end, |candidates|);
    assert candidates[..n] == Cut(rows, 0, Min(end, window));
    RecordsAt(candidates, hydrated, n);
    RecordsBound(candidates, hydrated);
    var ordered := RecordsOf(candidates, hydrated);
    if offset <= n {
      assert Cut(ordered, offset, end) == ordered[offset..n] && Cut(rows, offset, Min(end, window)) == rows[offset..n];
      forall i | offset <= i < n ensures get(rows[i]) == Some(ordered[i]) {
        assert candidates[..n][i] == rows[i];
      }
    }
  }

  /** Each reading shows a row once, and the last one shows rows that are live. */
  ghost predicate Readings(db: nat -> seq<Snapshot>, locked: Locked) {
    && (forall n :: Unique(db(n))) && Unique(locked.ordered)
    && forall s :: s in locked.ordered ==> s.id in locked.live && locked.live[s.id] == s
  }

  lemma AgreesIs(p: Progress, end: nat, locked: Locked)
    ensures Agrees(p, end, locked) <==> !p.changed && Undisturbed(locked, p.hydrated, p.stale, Min(end, p.window))
  {
    hide FinalRows;
    var candidates := Candidates(p.window, FinalRows(locked, p.stale));
    assert candidates[..Min(end, |candidates|)] == Cut(FinalRows(locked, p.stale), 0, Min(end, p.window));
  }

  lemma StartGood(size: nat, get: Snapshot -> Option<Record>)
    requires size >= 1
    ensures Good(Start(size), size, get)
  {
  }

  /**
   * An answered page holds what upstream confirms of rows of the last reading, from the offset to where page and window
   * end; every row that was hydrated or found stale is unchanged in that reading.
   */
  lemma AnsweredPage(offset: nat, size: nat, db: nat -> seq<Snapshot>, get: Snapshot -> Option<Record>, locked: Locked)
    requires size >= 1 && Readings(db, locked)
    ensures var (outcome, p) := Answered(offset, size, db, get, locked);
      && |p.fetched| <= HORIZON && BatchSize(size) <= p.window <= HORIZON
      && (outcome.Page? ==>
            && Undisturbed(locked, p.hydrated, p.stale, Min(offset + size, p.window))
            && Answers(outcome, FinalRows(locked, p.stale), offset, Min(offset + size, p.window), get))
  {
    hide RunOf, FinalRows, Undisturbed, Agrees, RecordsOf, Answers, Tables, Start, Unique, Cut;
    var end := offset + size;
    var (outcome, p) := Answered(offset, size, db, get, locked);
    StartGood(size, get);
    RunKeeps(Start(size), size, end, db, 0, get);
    AgreesIs(p, end, locked);
    GoodFetched(p, size, get);
    if outcome.Page? { FinalPage(p, size, offset, end, locked, get); }
  }

  lemma GoodFetched(p: Progress, size: nat, get: Snapshot -> Option<Record>)
    requires Good(p, size, get)
    ensures |p.fetched| <= HORIZON
  {
  }

  lemma FinalPage(p: Progress, size: nat, offset: nat, end: nat, locked: Locked, get: Snapshot -> Option<Record>)
    requires offset <= end && Good(p, size, get) && Agrees(p, end, locked)
    ensures var outcome := Finalized(p, offset, end, locked, false);
      outcome.Page? && Answers(outcome, FinalRows(locked, p.stale), offset, Min(end, p.window), get)
  {
    AgreesIs(p, end, locked);
    CutRecords(FinalRows(locked, p.stale), p.hydrated, offset, end, p.window, p.fetched, p.stale, get);
    hide FinalRows, Tables, RecordsOf, Confirmed;
  }

  /** The answered page is the whole page: what upstream confirms of the positions [offset, end) of the last reading. */
  ghost predicate Exact(offset: nat, size: nat, db: nat -> seq<Snapshot>, get: Snapshot -> Option<Record>, locked: Locked)
    requires size >= 1
  {
    var (outcome, p) := Answered(offset, size, db, get, locked);
    outcome.Page? ==> Answers(outcome, FinalRows(locked, p.stale), offset, offset + size, get)
  }

  // ---------------------------------------------------------------- a projection that nobody changes

  /** Every reading shows the same rows, at most as many as the horizon, and the last one shows them unchanged. */
  ghost predicate Quiet(db: nat -> seq<Snapshot>, locked: Locked) {
    && (forall n :: db(n) == locked.ordered) && |locked.ordered| <= HORIZON && Unique(locked.ordered)
    && forall s :: s in locked.ordered ==> s.id in locked.live && locked.live[s.id] == s
  }

  /** What was observed, hydrated and found stale are rows of the window. */
  ghost predicate Steadied(rows: seq<Snapshot>, window: nat, observed: map<string, Snapshot>, hydrated: map<string, Hydrated>,
                           stale: map<string, Snapshot>) {
    && (forall s :: s in rows && s.id in observed ==> observed[s.id] == s)
    && (forall id :: id in hydrated ==> hydrated[id].snapshot in Cut(rows, 0, window) && hydrated[id].snapshot.id == id)
    && (forall id :: id in stale ==> stale[id] in Cut(rows, 0, window) && stale[id].id == id)
  }

  ghost predicate NotedAs(observed: map<string, Snapshot>, rows: seq<Snapshot>, noted: map<string, Snapshot>) {
    && noted.Keys == observed.Keys + Ids(rows) && (forall id :: id in observed ==> noted[id] == observed[id])
    && forall s :: s in rows && s.id !in observed ==> noted[s.id] == s
  }

  lemma NoteOne(observed: map<string, Snapshot>, rows: seq<Snapshot>, noted: map<string, Snapshot>, s: Snapshot)
    requires NotedAs(observed, rows, noted) && forall t :: t in rows ==> t.id != s.id
    ensures NotedAs(observed, rows + [s], if s.id in noted then noted else noted[s.id := s])
    ensures Differs(noted, s) <==> Differs(observed, s)
  {
    assert Ids(rows + [s]) == Ids(rows) + {s.id};
  }

  lemma ChangedOne(observed: map<string, Snapshot>, rows: seq<Snapshot>, s: Snapshot)
    ensures (exists t :: t in rows + [s] && Differs(observed, t)) <==> (exists t :: t in rows && Differs(observed, t)) || Differs(observed, s)
  {
    if t :| t in rows && Differs(observed, t) { assert t in rows + [s]; }
    assert s in rows + [s];
  }

  /** What a look at rows notes: each under its id, as it was seen first. */
  lemma {:induction false} NotedIs(observed: map<string, Snapshot>, rows: seq<Snapshot>)
    requires Unique(rows)
    ensures NotedAs(observed, rows, Noted(observed, rows))
    ensures Changed(observed, rows) <==> exists s :: s in rows && Differs(observed, s)
    decreases |rows|
  {
    if rows != [] {
      var init, last := rows[..|rows| - 1], rows[|rows| - 1];
      PrefixUnique(rows, |rows| - 1);
      assert forall t :: t in init ==> t.id != last.id;
      hide Unique, NotedAs, Differs;
      NotedIs(observed, init);
      assert rows == init + [last];
      NoteOne(observed, init, Noted(observed, init), last);
      ChangedOne(observed, init, last);
    }
  }

  /** Looking at the same rows again finds nothing changed. */
  lemma SteadyLook(rows: seq<Snapshot>, window: nat, before: map<string, Snapshot>, observed: map<string, Snapshot>,
                   hydrated: map<string, Hydrated>, stale: map<string, Snapshot>)
    requires Unique(rows) && Steadied(rows, window, before, hydrated, stale)
    requires var candidates := rows[..Min(window, |rows|)];
      && observed.Keys == before.Keys + Ids(candidates) && (forall id :: id in before ==> observed[id] == before[id])
      && forall s :: s in candidates && s.id !in before ==> observed[s.id] == s
    ensures Steadied(rows, window, observed, hydrated, stale)
    ensures forall s :: s in rows[..Min(window, |rows|)] ==> !Differs(before, s)
  {
    hide Unique;
    var candidates := rows[..Min(window, |rows|)];
    forall s | s in rows && s.id in observed ensures observed[s.id] == s {
      if s.id !in before {
        var t :| t in candidates && t.id == s.id;
        SameRow(rows, s, t);
      }
    }
  }

  lemma SteadyWider(rows: seq<Snapshot>, was: nat, window: nat, observed: map<string, Snapshot>, hydrated: map<string, Hydrated>,
                    stale: map<string, Snapshot>)
    requires Steadied(rows, was, observed, hydrated, stale) && was <= window
    ensures Steadied(rows, window, observed, hydrated, stale)
  {
    assert forall s :: s in Cut(rows, 0, was) ==> s in Cut(rows, 0, window);
  }

  lemma SteadyFiled(rows: seq<Snapshot>, window: nat, batch: seq<Snapshot>, observed: map<string, Snapshot>,
                    hydrated0: map<string, Hydrated>, stale0: map<string, Snapshot>,
                    hydrated: map<string, Hydrated>, stale: map<string, Snapshot>, get: Snapshot -> Option<Record>)
    requires Steadied(rows, window, observed, hydrated0, stale0) && Filed(hydrated0, stale0, batch, hydrated, stale, get)
    requires forall s :: s in batch ==> s in rows[..Min(window, |rows|)]
    ensures Steadied(rows, window, observed, hydrated, stale)
  {
    assert Cut(rows, 0, window) == rows[..Min(window, |rows|)];
  }

  /** On a quiet projection everything stale is marked, and nothing has changed. */
  lemma QuietMarked(db: nat -> seq<Snapshot>, locked: Locked, window: nat, observed: map<string, Snapshot>,
                    hydrated: map<string, Hydrated>, stale: map<string, Snapshot>)
    requires Quiet(db, locked) && Steadied(locked.ordered, window, observed, hydrated, stale)
    ensures FinalRows(locked, stale) == Unseen(locked.ordered, stale.Keys)
    ensures forall id :: id in stale ==> id in locked.live && locked.live[id] == stale[id]
    ensures forall id :: id in hydrated ==> id in locked.live && locked.live[id] == hydrated[id].snapshot
  {
    hide Unique, Unseen;
    forall id | id in stale ensures id in locked.live && locked.live[id] == stale[id] { assert stale[id] in locked.ordered; }
    forall id | id in hydrated ensures id in locked.live && locked.live[id] == hydrated[id].snapshot { assert hydrated[id].snapshot in locked.ordered; }
    assert Marked(locked, stale) == stale.Keys;
  }

  /** What a row of the final projection is hydrated from is that row. */
  lemma QuietHydrated(db: nat -> seq<Snapshot>, locked: Locked, window: nat, observed: map<string, Snapshot>,
                      hydrated: map<string, Hydrated>, stale: map<string, Snapshot>, s: Snapshot)
    requires Quiet(db, locked) && Steadied(locked.ordered, window, observed, hydrated, stale) && s in locked.ordered && s.id in hydrated
    ensures hydrated[s.id].snapshot == s
  {
    hide Unique;
    assert hydrated[s.id].snapshot in locked.ordered;
    SameRow(locked.ordered, s, hydrated[s.id].snapshot);
  }

  lemma FullPage(all: seq<Snapshot>, logical: seq<Snapshot>, window: nat, offset: nat, end: nat, hydrated: map<string, Hydrated>)
    requires logical <= all && end <= |logical| <= window && offset < end && forall k :: 0 <= k < end ==> logical[k].id in hydrated
    ensures forall k :: 0 <= k < |Cut(all, 0, Min(end, window))| ==> Cut(all, 0, Min(end, window))[k].id in hydrated
    ensures Cut(all, offset, Min(end, window)) == Cut(all, offset, end)
  {
    assert Cut(all, 0, end) == logical[..end];
  }

  lemma WholePage(all: seq<Snapshot>, window: nat, offset: nat, end: nat, hydrated: map<string, Hydrated>)
    requires |all| <= window && offset < end && forall s :: s in all ==> s.id in hydrated
    ensures forall k :: 0 <= k < |Cut(all, 0, Min(end, window))| ==> Cut(all, 0, Min(end, window))[k].id in hydrated
    ensures Cut(all, offset, Min(end, window)) == Cut(all, offset, end)
  {
  }

  lemma DonePage(p: Progress, rows: seq<Snapshot>, offset: nat, end: nat)
    requires Done(p, end, rows) && offset < end
    ensures var all := Unseen(rows, p.stale.Keys);
      && (forall k :: 0 <= k < |Cut(all, 0, Min(end, p.window))| ==> Cut(all, 0, Min(end, p.window))[k].id in p.hydrated)
      && Cut(all, offset, Min(end, p.window)) == Cut(all, offset, end)
  {
    var candidates, all := Candidates(p.window, rows), Unseen(rows, p.stale.Keys);
    var logical := Unseen(candidates, p.stale.Keys);
    UnseenPrefix(rows, |candidates|, p.stale.Keys);
    hide Unseen, Cut;
    if |logical| >= end && forall k :: 0 <= k < end ==> logical[k].id in p.hydrated {
      FullPage(all, logical, p.window, offset, end, p.hydrated);
    } else {
      assert candidates == rows;
      WholePage(all, p.window, offset, end, p.hydrated);
    }
  }

  /** Once the loop ends on a quiet projection, the last checks pass, and the window holds the whole page. */
  lemma QuietPage(db: nat -> seq<Snapshot>, locked: Locked, p: Progress, offset: nat, end: nat)
    requires Quiet(db, locked) && Steadied(locked.ordered, p.window, p.observed, p.hydrated, p.stale) && !p.changed
    requires offset < end && Done(p, end, locked.ordered)
    ensures Agrees(p, end, locked)
    ensures Cut(FinalRows(locked, p.stale), offset, Min(end, p.window)) == Cut(FinalRows(locked, p.stale), offset, end)
  {
    hide Unseen, FinalRows, Done, Quiet, Steadied, Agrees;
    QuietMarked(db, locked, p.window, p.observed, p.hydrated, p.stale);
    DonePage(p, locked.ordered, offset, end);
    AgreesIs(p, end, locked);
    var all := Unseen(locked.ordered, p.stale.Keys);
    var needed := Cut(all, 0, Min(end, p.window));
    forall k | 0 <= k < |needed| ensures p.hydrated[needed[k].id].snapshot == needed[k] {
      assert needed[k] in all;
      QuietHydrated(db, locked, p.window, p.observed, p.hydrated, p.stale, needed[k]);
    }
  }

  lemma UnseenFirst(rows: seq<Snapshot>, ids: set<string>)
    requires rows != []
    ensures Unseen(rows, ids) == (if rows[0].id in ids then [] else [rows[0]]) + Unseen(rows[1..], ids)
  {
  }

  lemma UnseenEmpty(ids: set<string>)
    ensures Unseen([], ids) == []
  {
  }

  lemma {:induction false} UnseenPrefix(rows: seq<Snapshot>, n: nat, ids: set<string>)
    requires n <= |rows|
    ensures Unseen(rows[..n], ids) <= Unseen(rows, ids)
  {
    hide Unseen;
    if n == 0 {
      assert rows[..0] == [];
      UnseenEmpty(ids);
    } else {
      assert rows[..n][1..] == rows[1..][..n - 1];
      UnseenPrefix(rows[1..], n - 1, ids);
      UnseenFirst(rows, ids);
      UnseenFirst(rows[..n], ids);
    }
  }

  /** While a quiet projection has rows that were not looked at, there is budget, and a window to look at them. */
  lemma QuietProgress(db: nat -> seq<Snapshot>, locked: Locked, p: Progress, size: nat, end: nat, get: Snapshot -> Option<Record>)
    requires Quiet(db, locked) && Steadied(locked.ordered, p.window, p.observed, p.hydrated, p.stale) && Good(p, size, get)
    requires !Done(p, end, locked.ordered)
    ensures !Stuck(p, locked.ordered)
  {
    hide Unique, Unseen, Steadied, Quiet, Tables, Ids, Done, Stuck;
    var rows := Candidates(p.window, locked.ordered);
    UniqueRows(db, locked);
    PrefixUnique(locked.ordered, Min(p.window, |locked.ordered|));
    CountIds(rows);
    FetchedInWindow(locked.ordered, p.window, p.fetched, p.observed, p.hydrated, p.stale, get);
    StuckIs(p, locked.ordered);
    assert p.hydrated.Keys + p.stale.Keys == p.fetched by { TablesKeys(p.fetched, p.hydrated, p.stale, get); }
    NotDone(p, end, locked.ordered);
    if s :| s in rows && s.id !in p.fetched {
      assert s.id in Ids(rows) by { IdIn(rows, s); }
      assert s in Unseen(rows, p.fetched);
      Smaller(p.fetched, Ids(rows), s.id);
    } else {
      Subset(p.fetched, Ids(rows));
    }
  }

  lemma UniqueRows(db: nat -> seq<Snapshot>, locked: Locked)
    requires Quiet(db, locked)
    ensures Unique(locked.ordered) && |locked.ordered| <= HORIZON
  {
  }

  lemma TablesKeys(fetched: set<string>, hydrated: map<string, Hydrated>, stale: map<string, Snapshot>, get: Snapshot -> Option<Record>)
    requires Tables(fetched, hydrated, stale, get)
    ensures hydrated.Keys + stale.Keys == fetched
  {
  }

  lemma NotDone(p: Progress, end: nat, rows: seq<Snapshot>)
    requires !Done(p, end, rows)
    ensures |rows| > |Candidates(p.window, rows)| || exists s :: s in Candidates(p.window, rows) && s.id !in p.hydrated && s.id !in p.stale
  {
    hide Unseen;
  }

  lemma IdIn(rows: seq<Snapshot>, s: Snapshot)
    requires s in rows
    ensures s.id in Ids(rows)
  {
  }

  lemma FetchedInWindow(rows: seq<Snapshot>, window: nat, fetched: set<string>, observed: map<string, Snapshot>,
                        hydrated: map<string, Hydrated>, stale: map<string, Snapshot>, get: Snapshot -> Option<Record>)
    requires Steadied(rows, window, observed, hydrated, stale) && Tables(fetched, hydrated, stale, get)
    ensures fetched <= Ids(rows[..Min(window, |rows|)])
  {
    forall id | id in fetched ensures id in Ids(rows[..Min(window, |rows|)]) {
      var s := if id in hydrated then hydrated[id].snapshot else stale[id];
      assert s in Cut(rows, 0, window) && Cut(rows, 0, window) == rows[..Min(window, |rows|)];
    }
  }

  lemma SteadyLooked(rows: seq<Snapshot>, p: Progress)
    requires Unique(rows) && Steadied(rows, p.window, p.observed, p.hydrated, p.stale) && !p.changed
    ensures var q := Looked(p, rows); Steadied(rows, q.window, q.observed, q.hydrated, q.stale) && !q.changed
  {
    hide Unique, Steadied, Noted, Changed;
    PrefixUnique(rows, Min(p.window, |rows|));
    NotedIs(p.observed, Candidates(p.window, rows));
    SteadyLook(rows, p.window, p.observed, Noted(p.observed, Candidates(p.window, rows)), p.hydrated, p.stale);
    hide Ids;
  }

  lemma {:induction false} QuietRun(p: Progress, size: nat, end: nat, db: nat -> seq<Snapshot>, turn: nat, get: Snapshot -> Option<Record>,
                                    locked: Locked)
    requires size >= 1 && Good(p, size, get) && Quiet(db, locked)
    requires Steadied(locked.ordered, p.window, p.observed, p.hydrated, p.stale) && !p.changed
    ensures var (q, forced) := RunOf(p, size, end, db, turn, get);
      && !forced && Done(q, end, locked.ordered) && !q.changed && Good(q, size, get)
      && Steadied(locked.ordered, q.window, q.observed, q.hydrated, q.stale)
    decreases HORIZON - |p.fetched|, HORIZON - p.window
  {
    var rows, q := db(turn), Looked(p, db(turn));
    assert rows == locked.ordered && Unique(rows);
    SteadyLooked(rows, p);
    LookedGood(p, size, rows, get);
    LookedGood(q, size, rows, get);
    LookedKeeps(p, rows);
    RunOfIs(p, size, end, db, turn, get);
    hide Looked, Done, Unseen, Fetched, Batch, Unique, Filed, RunOf, Candidates, Quiet, Steadied, Tables, Stuck, Widened;
    if !Done(q, end, rows) {
      QuietProgress(db, locked, q, size, end, get);
      TurnGrows(q, size, rows);
      if Unseen(Candidates(q.window, rows), q.fetched) == [] {
        SteadyWider(rows, q.window, Widened(q, size).window, q.observed, q.hydrated, q.stale);
        QuietRun(Widened(q, size), size, end, db, turn + 1, get, locked);
      } else {
        var batch := Batch(q, size, rows);
        FetchedGood(q, size, rows, get);
        FetchedParts(q, batch, get);
        BatchFits(q, size, rows);
        CandidatesAre(q.window, rows);
        SteadyFiled(rows, q.window, batch, q.observed, q.hydrated, q.stale, Hydrations(q.hydrated, batch, get), Stales(q.stale, batch, get), get);
        QuietRun(Fetched(q, batch, get), size, end, db, turn + 1, get, locked);
      }
    }
  }

  /** Every turn fetches something or widens the window. */
  lemma TurnGrows(p: Progress, size: nat, rows: seq<Snapshot>)
    requires size >= 1 && !Stuck(p, rows)
    ensures |p.fetched| < HORIZON
    ensures var w := Widened(p, size);
      w.fetched == p.fetched && w.observed == p.observed && w.hydrated == p.hydrated && w.stale == p.stale && w.changed == p.changed
    ensures Unseen(Candidates(p.window, rows), p.fetched) == [] ==> p.window < Widened(p, size).window <= HORIZON
    ensures Unseen(Candidates(p.window, rows), p.fetched) != [] ==> |p.fetched + Ids(Batch(p, size, rows))| > |p.fetched|
  {
    if Unseen(Candidates(p.window, rows), p.fetched) != [] { BatchGrows(p, size, rows); }
    hide Unseen, Candidates, Batch;
  }

  lemma FetchedParts(p: Progress, batch: seq<Snapshot>, get: Snapshot -> Option<Record>)
    ensures var q := Fetched(p, batch, get);
      && q.window == p.window && q.fetched == p.fetched + Ids(batch) && q.observed == p.observed && q.changed == p.changed
      && q.hydrated == Hydrations(p.hydrated, batch, get) && q.stale == Stales(p.stale, batch, get)
  {
  }

  lemma CandidatesAre(window: nat, rows: seq<Snapshot>)
    ensures Candidates(window, rows) == rows[..Min(window, |rows|)]
  {
  }

  /** A projection of at most 5000 rows that nobody changes is answered, and with the whole page. */
  lemma QuietAnswered(offset: nat, size: nat, db: nat -> seq<Snapshot>, get: Snapshot -> Option<Record>, locked: Locked)
    requires size >= 1 && Quiet(db, locked)
    ensures Answered(offset, size, db, get, locked).0.Page? && Exact(offset, size, db, get, locked)
  {
    hide RunOf, FinalRows, Agrees, RecordsOf, Start, Quiet, Steadied, Good, Done, Answers, Finalized, Cut;
    var end := offset + size;
    StartGood(size, get);
    StartSteady(locked.ordered, size);
    QuietRun(Start(size), size, end, db, 0, get, locked);
    var (p, forced) := RunOf(Start(size), size, end, db, 0, get);
    QuietPage(db, locked, p, offset, end);
    FinalPage(p, size, offset, end, locked, get);
    SameCut(Finalized(p, offset, end, locked, false), FinalRows(locked, p.stale), offset, Min(end, p.window), end, get);
  }

  lemma SameCut(outcome: Outcome, rows: seq<Snapshot>, from: nat, to: nat, end: nat, get: Snapshot -> Option<Record>)
    requires outcome.Page? && Answers(outcome, rows, from, to, get) && Cut(rows, from, to) == Cut(rows, from, end)
    ensures Answers(outcome, rows, from, end, get)
  {
  }

  lemma StartSteady(rows: seq<Snapshot>, size: nat)
    ensures var p := Start(size); Steadied(rows, p.window, p.observed, p.hydrated, p.stale) && !p.changed
  {
  }

  // ---------------------------------------------------------------- which pages are complete in every run

  function Row(n: nat): Snapshot { Snapshot(seq(n, _ => 'm'), 0) }

  function Rows(n: nat): seq<Snapshot> { seq(n, k requires 0 <= k < n => Row(k)) }

  lemma RowsUnique(n: nat)
    ensures Unique(Rows(n))
  {
    forall i, j | 0 <= i < j < n ensures Rows(n)[i].id != Rows(n)[j].id {
      assert |Row(i).id| == i && |Row(j).id| == j;
    }
  }

  lemma {:induction false} UnseenNothing(rows: seq<Snapshot>)
    ensures Unseen(rows, {}) == rows
  {
    if rows != [] { UnseenNothing(rows[1..]); }
  }

  /** A last reading of n rows. */
  function Everything(n: nat): Locked { Locked(map s | s in Rows(n) :: s.id := s, Rows(n)) }

  lemma IdsApart(n: nat, s: Snapshot, t: Snapshot)
    requires s in Rows(n) && t in Rows(n) && s.id == t.id
    ensures s == t
  {
    RowsUnique(n);
    SameRow(Rows(n), s, t);
  }

  lemma EverythingReads(n: nat, m: nat)
    requires n <= m
    ensures Readings((turn: nat) => Rows(n), Everything(m)) && Rows(m)[..n] == Rows(n)
    ensures forall s :: s in Rows(m) ==> s.id in Everything(m).live && Everything(m).live[s.id] == s
  {
    RowsUnique(n);
    RowsUnique(m);
    forall s | s in Rows(m) ensures s.id in Everything(m).live && Everything(m).live[s.id] == s {
      var t := Everything(m).live[s.id];
      IdsApart(m, s, t);
    }
  }

  /** With the page inside the first window, every answered page is the whole page. */
  lemma FirstWindowExact(offset: nat, size: nat, db: nat -> seq<Snapshot>, get: Snapshot -> Option<Record>, locked: Locked)
    requires size >= 1 && Readings(db, locked) && offset + size <= BatchSize(size)
    ensures Exact(offset, size, db, get, locked)
  {
    AnsweredPage(offset, size, db, get, locked);
    hide Answered, FinalRows, Answers, Undisturbed, Readings;
  }

  /** What the loop has kept after it fetched the first n rows at once. */
  function AfterFetch(n: nat, size: nat, get: Snapshot -> Option<Record>): Progress {
    Fetched(Looked(Start(size), Rows(n)), Rows(n), get)
  }

  lemma AllConfirmed(rows: seq<Snapshot>, record: Record)
    requires Unique(rows)
    ensures var h := Hydrations(map[], rows, _ => Some(record));
      h.Keys == Ids(rows) && forall s :: s in rows ==> h[s.id] == Hydrated(s, record)
    ensures Stales(map[], rows, _ => Some(record)) == map[]
  {
    var get := (s: Snapshot) => Some(record);
    BatchFiled(map[], map[], rows, get);
    hide Unique, Hydrations, Stales;
    var h, stale := Hydrations(map[], rows, get), Stales(map[], rows, get);
    forall s | s in rows ensures s.id in h && h[s.id] == Hydrated(s, record) {
      SameRow(rows, s, h[s.id].snapshot);
    }
    assert stale.Keys == {};
  }

  lemma CandidatesAll(window: nat, rows: seq<Snapshot>)
    requires |rows| <= window
    ensures Candidates(window, rows) == rows
  {
  }

  /** The first turn over as many rows as the first window holds fetches all of them. */
  lemma FirstTurn(size: nat, end: nat, record: Record)
    requires size >= 1 && BatchSize(size) < end
    ensures var n, get := BatchSize(size), (s: Snapshot) => Some(record);
      var q := Looked(Start(size), Rows(n));
      && !Done(q, end, Rows(n)) && !Stuck(q, Rows(n)) && Unseen(Candidates(q.window, Rows(n)), q.fetched) != []
      && Batch(q, size, Rows(n)) == Rows(n)
  {
    var n := BatchSize(size);
    var q := Looked(Start(size), Rows(n));
    CandidatesAll(n, Rows(n));
    UnseenNothing(Rows(n));
    LookedKeeps(Start(size), Rows(n));
    hide Looked, Noted, Changed, Unseen;
    assert Rows(n)[0] in Rows(n);
    assert q.stale.Keys == {} && q.fetched == {};
    assert Rows(n)[..n] == Rows(n);
  }

  /** The second turn finds everything looked at, although the window ends inside the page or before it. */
  lemma SecondTurn(size: nat, end: nat, record: Record)
    requires size >= 1 && BatchSize(size) < end
    ensures var n, get := BatchSize(size), (s: Snapshot) => Some(record);
      var p := AfterFetch(n, size, get);
      var q := Looked(p, Rows(n));
      && Done(q, end, Rows(n)) && !q.changed && q.window == n && q.stale == map[] && q.hydrated == Hydrations(map[], Rows(n), get)
      && q.hydrated.Keys == Ids(Rows(n)) && forall s :: s in Rows(n) ==> q.hydrated[s.id] == Hydrated(s, record)
  {
    var n, get := BatchSize(size), (s: Snapshot) => Some(record);
    var p := AfterFetch(n, size, get);
    RowsUnique(n);
    CandidatesAll(n, Rows(n));
    AllConfirmed(Rows(n), record);
    NotedIs(map[], Rows(n));
    NotedIs(p.observed, Rows(n));
    hide Unique, Noted, Changed, Hydrations, Stales, Unseen, Rows;
  }

  /** The run over the readings of the witness. */
  lemma WitnessRun(size: nat, end: nat, record: Record)
    requires size >= 1 && BatchSize(size) < end
    ensures var n, get := BatchSize(size), (s: Snapshot) => Some(record);
      RunOf(Start(size), size, end, (turn: nat) => Rows(n), 0, get) == (Looked(AfterFetch(n, size, get), Rows(n)), false)
  {
    hide RunOf, Looked, Done, Stuck, Unseen, Candidates, Batch, Fetched, Rows, Start;
    var n, get := BatchSize(size), (s: Snapshot) => Some(record);
    var db := (turn: nat) => Rows(n);
    FirstTurn(size, end, record);
    SecondTurn(size, end, record);
    RunOfIs(Start(size), size, end, db, 0, get);
    RunOfIs(AfterFetch(n, size, get), size, end, db, 1, get);
  }

  /** With no row stale, the final rows are the ordered ones. */
  lemma NothingMarked(locked: Locked)
    ensures FinalRows(locked, map[]) == locked.ordered
  {
    assert Marked(locked, map[]) == {};
    UnseenNothing(locked.ordered);
  }

  /** The last reading agrees, although it shows more rows. */
  lemma WitnessAgrees(p: Progress, n: nat, end: nat, record: Record)
    requires n < end && p.window == n && p.stale == map[] && !p.changed
    requires p.hydrated.Keys == Ids(Rows(n)) && forall s :: s in Rows(n) ==> p.hydrated[s.id] == Hydrated(s, record)
    ensures FinalRows(Everything(end), p.stale) == Rows(end) && Agrees(p, end, Everything(end))
  {
    NothingMarked(Everything(end));
    EverythingReads(n, end);
    AgreesIs(p, end, Everything(end));
    hide FinalRows, Rows, Agrees, Readings;
    assert Cut(Rows(end), 0, Min(end, n)) == Rows(n);
    forall id | id in p.hydrated ensures id in Everything(end).live && Everything(end).live[id] == p.hydrated[id].snapshot {
      var s :| s in Rows(n) && s.id == id;
      assert s in Rows(end);
    }
  }

  lemma ShortRecords(rows: seq<Snapshot>, hydrated: map<string, Hydrated>, window: nat, offset: nat, end: nat)
    requires window < end == |rows| && offset < end
    ensures |Cut(RecordsOf(Candidates(window, rows), hydrated), offset, end)| < |Cut(rows, offset, end)|
  {
    RecordsBound(Candidates(window, rows), hydrated);
  }

  /**
   * For every page that does not lie inside the first window there are readings for which the query answers without rows
   * of the page: the first window is full of rows, and when all are hydrated others are added before the last reading.
   */
  lemma LatePageShort(offset: nat, size: nat, record: Record)
    requires size >= 1 && offset + size > BatchSize(size)
    ensures var db, get, locked := (turn: nat) => Rows(BatchSize(size)), (s: Snapshot) => Some(record), Everything(offset + size);
      Readings(db, locked) && AnswersShort(offset, size, db, get, locked)
  {
    hide RunOf, Looked, Done, Unseen, Rows, FinalRows, Agrees, RecordsOf, Readings, Everything, Start, Ids, Hydrations, Cut;
    var n, end, get := BatchSize(size), offset + size, (s: Snapshot) => Some(record);
    var p := Looked(AfterFetch(n, size, get), Rows(n));
    EverythingReads(n, end);
    WitnessRun(size, end, record);
    SecondTurn(size, end, record);
    WitnessAgrees(p, n, end, record);
    RowsSize(end);
    ShortRecords(Rows(end), p.hydrated, n, offset, end);
  }

  /** The query answers, and with fewer records than the page has rows. */
  ghost predicate AnswersShort(offset: nat, size: nat, db: nat -> seq<Snapshot>, get: Snapshot -> Option<Record>, locked: Locked)
    requires size >= 1
  {
    var (outcome, p) := Answered(offset, size, db, get, locked);
    outcome.Page? && |outcome.results| < |Cut(FinalRows(locked, p.stale), offset, offset + size)|
  }

  lemma RowsSize(n: nat)
    ensures |Rows(n)| == n
  {
  }

  lemma ShortNotExact(offset: nat, size: nat, db: nat -> seq<Snapshot>, get: Snapshot -> Option<Record>, locked: Locked)
    requires size >= 1 && AnswersShort(offset, size, db, get, locked)
    ensures !Exact(offset, size, db, get, locked)
  {
    hide Answered, FinalRows, Cut;
  }

  /** Whether a query answers with the whole page in every run. */
  ghost predicate Complete(offset: nat, size: nat)
    requires size >= 1
  {
    forall db, get, locked | Readings(db, locked) :: Exact(offset, size, db, get, locked)
  }

  lemma OffsetDecides(offset: nat, size: nat)
    requires size >= 1 && offset + size <= HORIZON
    ensures Complete(offset, size) <==> offset <= BUFFER
  {
    hide Exact, Readings, Everything, Rows, AnswersShort;
    if offset <= BUFFER {
      forall db, get, locked | Readings(db, locked) ensures Exact(offset, size, db, get, locked) {
        FirstWindowExact(offset, size, db, get, locked);
      }
    } else {
      var record := Record("");
      var db, get, locked := (turn: nat) => Rows(BatchSize(size)), (s: Snapshot) => Some(record), Everything(offset + size);
      LatePageShort(offset, size, record);
      ShortNotExact(offset, size, db, get, locked);
    }
  }

  /**
   * Exactly the pages that begin at most 20 rows behind the first are complete in every run.  Page 2 of size 100 is not,
   * nor is page 3 of size 20, whose first window ends where the page begins.
   */
  lemma CompleteIff(page: nat, size: nat)
    requires page >= 1 && size >= 1 && page * size <= HORIZON
    ensures Complete((page - 1) * size, size) <==> (page - 1) * size <= BUFFER
    ensures !Complete((2 - 1) * 100, 100) && !Complete((3 - 1) * 20, 20)
  {
    hide Complete;
    assert (page - 1) * size + size == page * size;
    OffsetDecides((page - 1) * size, size);
    OffsetDecides(100, 100);
    OffsetDecides(40, 20);
  }
}
