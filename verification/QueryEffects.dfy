// What a query does, row by row: which rows each turn of the loop asks upstream
// about, when the loop ends, when the page is refused, and what the page holds.
module QueryEffects {
  import opened Picking
  import opened QueryMemories
  import opened QueryMemoriesTheorems
  import opened Wrappers

  // ---------------------------------------------------------------- rows in order

  /** The positions of the rows whose ids are not in `ids`, in order. */
  ghost predicate Lists(at: seq<nat>, rows: seq<Snapshot>, ids: set<string>) { Picks(at, rows, (s: Snapshot) => s.id !in ids) }

  /** `Unseen` keeps exactly those rows, and their order. */
  lemma UnseenLists(rows: seq<Snapshot>, ids: set<string>) returns (at: seq<nat>)
    ensures Lists(at, rows, ids) && |at| == |Unseen(rows, ids)|
    ensures forall k :: 0 <= k < |at| ==> Unseen(rows, ids)[k] == rows[at[k]]
  {
    at := UnseenLeaves(rows, ids, (s: Snapshot) => s.id !in ids);
    hide Unseen, Picks;
  }

  lemma {:induction false} UnseenLeaves(rows: seq<Snapshot>, ids: set<string>, keep: Snapshot -> bool) returns (at: seq<nat>)
    requires forall s :: keep(s) <==> s.id !in ids
    ensures Leaves(Unseen(rows, ids), rows, keep, at)
  {
    hide Leaves;
    if rows == [] {
      LeavesNothing(keep);
      at := [];
    } else {
      var before := UnseenLeaves(rows[1..], ids, keep);
      at := (if keep(rows[0]) then [0] else []) + Shifted(before);
      LeavesMore(Unseen(rows[1..], ids), rows, keep, before);
    }
  }

  /** The rows that a reading shows through the window. */
  function Shown(window: nat, rows: seq<Snapshot>): seq<Snapshot> { if |rows| <= window then rows else rows[..window] }

  function Least(a: nat, b: nat): nat { if a < b then a else b }

  // ---------------------------------------------------------------- turns

  /** What the loop has kept when its n-th turn begins; None when it ends before. */
  ghost function Turns(size: nat, end: nat, db: nat -> seq<Snapshot>, get: Snapshot -> Option<Record>, n: nat): Option<Progress>
    requires size >= 1
  {
    if n == 0 then Some(Start(size))
    else
      match Turns(size, end, db, get, n - 1)
      case None => None
      case Some(p) => Turned(p, size, end, db(n - 1), get)
  }

  ghost function Turned(p: Progress, size: nat, end: nat, rows: seq<Snapshot>, get: Snapshot -> Option<Record>): Option<Progress> {
    var q := Looked(p, rows);
    if Done(q, end, rows) || Stuck(q, rows) then None
    else if Unseen(Candidates(q.window, rows), q.fetched) == [] then Some(Widened(q, size))
    else Some(Fetched(q, Batch(q, size, rows), get))
  }

  /** The page is full: the first `end` shown rows that are not stale are hydrated, and there are that many. */
  ghost predicate Full(p: Progress, end: nat, shown: seq<Snapshot>, unstale: seq<nat>)
    requires Lists(unstale, shown, p.stale.Keys)
  {
    end <= |unstale| && forall k :: 0 <= k < end ==> shown[unstale[k]].id in p.hydrated
  }

  /** Nothing is left to look at: the window shows every row, and upstream was asked about each. */
  ghost predicate Exhausted(p: Progress, rows: seq<Snapshot>) {
    |rows| <= p.window && forall s :: s in rows ==> s.id in p.hydrated || s.id in p.stale
  }

  /** The observations after a look: each row as it was first seen, and whether one was seen otherwise. */
  ghost predicate Observes(p: Progress, shown: seq<Snapshot>, q: Progress) {
    && (forall id :: id in q.observed <==> id in p.observed || exists s :: s in shown && s.id == id)
    && (forall id :: id in p.observed ==> q.observed[id] == p.observed[id])
    && (forall s :: s in shown && s.id !in p.observed ==> q.observed[s.id] == s)
    && (q.changed <==> p.changed || exists s :: s in shown && s.id in p.observed && p.observed[s.id] != s)
  }

  lemma LookObserves(p: Progress, rows: seq<Snapshot>)
    requires Unique(rows)
    ensures Observes(p, Shown(p.window, rows), Looked(p, rows))
  {
    var shown := Candidates(p.window, rows);
    assert shown == Shown(p.window, rows);
    PrefixUnique(rows, |shown|);
    NotedIs(p.observed, shown);
    hide Unique, Noted, Changed;
  }

  /** The loop ends exactly if the page is full, nothing is left, the budget is used up, or the widest window shows nothing new. */
  lemma EndsIff(p: Progress, size: nat, end: nat, rows: seq<Snapshot>, get: Snapshot -> Option<Record>) returns (unstale: seq<nat>)
    ensures Lists(unstale, Shown(p.window, rows), p.stale.Keys)
    ensures Turned(p, size, end, rows, get).None? <==>
      || Full(p, end, Shown(p.window, rows), unstale) || Exhausted(p, rows) || |p.fetched| >= 5000
      || (p.window >= 5000 && forall s :: s in Shown(p.window, rows) ==> s.id in p.fetched)
    ensures Done(Looked(p, rows), end, rows) <==> Full(p, end, Shown(p.window, rows), unstale) || Exhausted(p, rows)
  {
    hide Looked, Done, Stuck, Unseen, Lists, Widened, Fetched, Batch;
    var q, shown := Looked(p, rows), Shown(p.window, rows);
    LookedKeeps(p, rows);
    assert Candidates(p.window, rows) == shown;
    unstale := UnseenLists(shown, p.stale.Keys);
    DoneIs(q, end, rows);
    StuckIs(q, rows);
    NoneUnseen(shown, p.fetched);
    assert Shown(p.window, rows) == rows || |rows| > |shown|;
  }

  lemma NoneUnseen(rows: seq<Snapshot>, ids: set<string>)
    ensures Unseen(rows, ids) == [] <==> forall s :: s in rows ==> s.id in ids
  {
    if s :| s in rows && s.id !in ids { assert s in Unseen(rows, ids); }
    if Unseen(rows, ids) != [] { assert Unseen(rows, ids)[0] in Unseen(rows, ids); }
  }

  /** The tables after upstream was asked about some rows: each is filed by its answer, and the others stay. */
  ghost predicate Asked(p: Progress, rows: seq<Snapshot>, get: Snapshot -> Option<Record>, q: Progress) {
    AskedHydrated(p, rows, get, q) && AskedStale(p, rows, get, q) && q.fetched == p.fetched + set s | s in rows :: s.id
  }

  ghost predicate AskedHydrated(p: Progress, rows: seq<Snapshot>, get: Snapshot -> Option<Record>, q: Progress) {
    && (forall id :: id in p.hydrated ==> id in q.hydrated && q.hydrated[id] == p.hydrated[id])
    && (forall s :: s in rows && get(s).Some? ==> s.id in q.hydrated && q.hydrated[s.id] == Hydrated(s, get(s).value))
    && forall id :: id in q.hydrated ==> id in p.hydrated || exists s :: s in rows && s.id == id && get(s).Some?
  }

  ghost predicate AskedStale(p: Progress, rows: seq<Snapshot>, get: Snapshot -> Option<Record>, q: Progress) {
    && (forall id :: id in p.stale ==> id in q.stale && q.stale[id] == p.stale[id])
    && (forall s :: s in rows && get(s).None? ==> s.id in q.stale && q.stale[s.id] == s)
    && forall id :: id in q.stale ==> id in p.stale || exists s :: s in rows && s.id == id && get(s).None?
  }

  lemma FiledAsked(p: Progress, rows: seq<Snapshot>, get: Snapshot -> Option<Record>, q: Progress)
    requires Unique(rows) && (forall s :: s in rows ==> s.id !in p.hydrated && s.id !in p.stale)
    requires Filed(p.hydrated, p.stale, rows, q.hydrated, q.stale, get)
    ensures AskedHydrated(p, rows, get, q) && AskedStale(p, rows, get, q)
  {
    hide Unique;
    forall s | s in rows && get(s).Some? ensures s.id in q.hydrated && q.hydrated[s.id] == Hydrated(s, get(s).value) {
      SameRow(rows, s, q.hydrated[s.id].snapshot);
    }
    forall s | s in rows && get(s).None? ensures s.id in q.stale && q.stale[s.id] == s {
      SameRow(rows, s, q.stale[s.id]);
    }
  }

  /**
   * A turn that goes on asks about the first shown rows that it has not asked about, as many as a batch and the budget
   * allow; when there are none, the window grows by a batch.
   */
  lemma GoesOn(p: Progress, size: nat, end: nat, rows: seq<Snapshot>, get: Snapshot -> Option<Record>) returns (unasked: seq<nat>, batch: seq<Snapshot>)
    requires size >= 1 && Good(p, size, get) && Unique(rows) && Turned(p, size, end, rows, get).Some?
    ensures Lists(unasked, Shown(p.window, rows), p.fetched)
    ensures Observes(p, Shown(p.window, rows), Turned(p, size, end, rows, get).value)
    ensures |p.fetched| < 5000 && |batch| == Least(Least(Least(size + 20, 5000), 5000 - |p.fetched|), |unasked|)
    ensures forall k :: 0 <= k < |batch| ==> batch[k] == Shown(p.window, rows)[unasked[k]]
    ensures Asked(p, batch, get, Turned(p, size, end, rows, get).value)
    ensures Turned(p, size, end, rows, get).value.window ==
      if unasked == [] then Least(p.window + Least(size + 20, 5000), 5000) else p.window
  {
    hide Done, Stuck, Unseen, Good, Unique, Observes, Widened, Fetched, Batch, Looked, Candidates, Lists, Asked, Shown, Turned;
    var q, shown := Looked(p, rows), Shown(p.window, rows);
    var r := Turned(p, size, end, rows, get).value;
    LookedKeeps(p, rows);
    LookedGood(p, size, rows, get);
    LookObserves(p, rows);
    ShownAre(p.window, rows);
    unasked := UnseenLists(shown, p.fetched);
    TurnedIs(p, size, end, rows, get);
    TurnGrows(q, size, rows);
    if unasked == [] {
      batch := [];
      WidenedIs(q, size);
      NothingAsked(p, get, r);
    } else {
      batch := Batch(q, size, rows);
      BatchFirst(q, size, rows, unasked);
      FetchedParts(q, batch, get);
      BatchAsked(q, size, rows, get);
      SameAsked(p, q, batch, get, r);
    }
    SameObserves(p, shown, q, r);
  }

  lemma TurnedIs(p: Progress, size: nat, end: nat, rows: seq<Snapshot>, get: Snapshot -> Option<Record>)
    requires Turned(p, size, end, rows, get).Some?
    ensures var q := Looked(p, rows);
      && !Stuck(q, rows)
      && Turned(p, size, end, rows, get).value ==
        if Unseen(Candidates(q.window, rows), q.fetched) == [] then Widened(q, size) else Fetched(q, Batch(q, size, rows), get)
  {
    hide Done, Stuck, Unseen, Widened, Fetched, Batch, Looked, Candidates;
  }

  lemma NothingAsked(p: Progress, get: Snapshot -> Option<Record>, q: Progress)
    requires q.fetched == p.fetched && q.hydrated == p.hydrated && q.stale == p.stale
    ensures Asked(p, [], get, q)
  {
  }

  lemma SameAsked(p: Progress, q: Progress, rows: seq<Snapshot>, get: Snapshot -> Option<Record>, r: Progress)
    requires Asked(q, rows, get, r) && q.fetched == p.fetched && q.hydrated == p.hydrated && q.stale == p.stale
    ensures Asked(p, rows, get, r)
  {
  }

  lemma BatchFirst(p: Progress, size: nat, rows: seq<Snapshot>, unasked: seq<nat>)
    requires |p.fetched| < 5000 && |unasked| == |Unseen(Candidates(p.window, rows), p.fetched)|
    requires Lists(unasked, Shown(p.window, rows), p.fetched)
    requires forall k :: 0 <= k < |unasked| ==> Unseen(Candidates(p.window, rows), p.fetched)[k] == Shown(p.window, rows)[unasked[k]]
    ensures |Batch(p, size, rows)| == Least(Least(Least(size + 20, 5000), 5000 - |p.fetched|), |unasked|)
    ensures forall k :: 0 <= k < |Batch(p, size, rows)| ==> Batch(p, size, rows)[k] == Shown(p.window, rows)[unasked[k]]
  {
    hide Unseen, Shown, Candidates, Lists;
    BatchIs(p, size, rows);
  }

  lemma BatchAsked(p: Progress, size: nat, rows: seq<Snapshot>, get: Snapshot -> Option<Record>)
    requires Good(p, size, get) && Unique(rows)
    ensures Asked(p, Batch(p, size, rows), get, Fetched(p, Batch(p, size, rows), get))
  {
    hide Unseen, Unique, Good, Filed, Batch, Fetched, Hydrations, Stales, AskedHydrated, AskedStale;
    var batch := Batch(p, size, rows);
    FetchedGood(p, size, rows, get);
    FetchedParts(p, batch, get);
    BatchFits(p, size, rows);
    GoodApart(p, size, get);
    FiledAsked(p, batch, get, Fetched(p, batch, get));
  }

  lemma ShownAre(window: nat, rows: seq<Snapshot>)
    ensures Candidates(window, rows) == Shown(window, rows)
  {
  }

  lemma WidenedIs(p: Progress, size: nat)
    ensures Widened(p, size) == p.(window := Least(p.window + Least(size + 20, 5000), 5000))
  {
  }

  lemma GoodApart(p: Progress, size: nat, get: Snapshot -> Option<Record>)
    requires Good(p, size, get)
    ensures p.hydrated.Keys + p.stale.Keys == p.fetched
  {
  }

  lemma SameObserves(p: Progress, shown: seq<Snapshot>, q: Progress, r: Progress)
    requires Observes(p, shown, q) && r.observed == q.observed && r.changed == q.changed
    ensures Observes(p, shown, r)
  {
  }

  /** The tables stay right from turn to turn. */
  lemma {:induction false} TurnsGood(size: nat, end: nat, db: nat -> seq<Snapshot>, get: Snapshot -> Option<Record>, n: nat)
    requires size >= 1 && (forall k :: Unique(db(k))) && Turns(size, end, db, get, n).Some?
    ensures Good(Turns(size, end, db, get, n).value, size, get)
  {
    hide Done, Stuck, Unseen, Good, Filed, Unique, Widened, Fetched, Batch, Looked, Candidates, Hydrations, Stales, Start;
    if n == 0 {
      StartGood(size, get);
    } else {
      TurnsGood(size, end, db, get, n - 1);
      var p, rows := Turns(size, end, db, get, n - 1).value, db(n - 1);
      LookedGood(p, size, rows, get);
      LookedGood(Looked(p, rows), size, rows, get);
      FetchedGood(Looked(p, rows), size, rows, get);
    }
  }

  /** The loop from its n-th turn on, and where it ends. */
  lemma {:induction false} LastTurn(size: nat, end: nat, db: nat -> seq<Snapshot>, get: Snapshot -> Option<Record>, from: nat) returns (n: nat, p: Progress)
    requires size >= 1 && Turns(size, end, db, get, from).Some?
    ensures Turns(size, end, db, get, n) == Some(p) && Turns(size, end, db, get, n + 1).None?
    ensures RunOf(Turns(size, end, db, get, from).value, size, end, db, from, get) == (Looked(p, db(n)), !Done(Looked(p, db(n)), end, db(n)))
    decreases HORIZON - |Turns(size, end, db, get, from).value.fetched|, HORIZON - Turns(size, end, db, get, from).value.window
  {
    hide Done, Stuck, Unseen, Widened, Fetched, Batch, Looked, Candidates, RunOf, Start;
    p := Turns(size, end, db, get, from).value;
    var q := Looked(p, db(from));
    RunOfIs(p, size, end, db, from, get);
    LookedKeeps(p, db(from));
    if Turns(size, end, db, get, from + 1).None? {
      n := from;
    } else {
      TurnGrows(q, size, db(from));
      FetchedKeeps(q, Batch(q, size, db(from)), get);
      n, p := LastTurn(size, end, db, get, from + 1);
    }
  }

  // ---------------------------------------------------------------- what was seen

  /** The n-th turn shows the row. */
  ghost predicate SeenAt(size: nat, end: nat, db: nat -> seq<Snapshot>, get: Snapshot -> Option<Record>, n: nat, s: Snapshot)
    requires size >= 1
  {
    Turns(size, end, db, get, n).Some? && s in Shown(Turns(size, end, db, get, n).value.window, db(n))
  }

  ghost predicate SeenBefore(size: nat, end: nat, db: nat -> seq<Snapshot>, get: Snapshot -> Option<Record>, n: nat, s: Snapshot)
    requires size >= 1
  {
    exists i: nat :: i < n && SeenAt(size, end, db, get, i, s)
  }

  /** Two turns before the n-th show a row differently. */
  ghost predicate Wavers(size: nat, end: nat, db: nat -> seq<Snapshot>, get: Snapshot -> Option<Record>, n: nat)
    requires size >= 1
  {
    exists s, t :: SeenBefore(size, end, db, get, n, s) && SeenBefore(size, end, db, get, n, t) && s.id == t.id && s != t
  }

  /** The observations are of rows that were seen, and a change is noted exactly if two turns differ. */
  ghost predicate Witnessed(size: nat, end: nat, db: nat -> seq<Snapshot>, get: Snapshot -> Option<Record>, n: nat, p: Progress)
    requires size >= 1
  {
    && (forall s :: SeenBefore(size, end, db, get, n, s) ==> s.id in p.observed)
    && (forall id :: id in p.observed ==> p.observed[id].id == id && SeenBefore(size, end, db, get, n, p.observed[id]))
    && (p.changed <==> Wavers(size, end, db, get, n))
  }

  lemma SeenNext(size: nat, end: nat, db: nat -> seq<Snapshot>, get: Snapshot -> Option<Record>, n: nat, s: Snapshot)
    requires size >= 1
    ensures SeenBefore(size, end, db, get, n + 1, s) <==> SeenBefore(size, end, db, get, n, s) || SeenAt(size, end, db, get, n, s)
  {
    if SeenBefore(size, end, db, get, n, s) {
      var i: nat :| i < n && SeenAt(size, end, db, get, i, s);
      assert i < n + 1;
    }
  }

  /** A look moves what was witnessed on by a turn. */
  lemma LookWitnesses(size: nat, end: nat, db: nat -> seq<Snapshot>, get: Snapshot -> Option<Record>, n: nat, p: Progress, q: Progress)
    requires size >= 1 && Turns(size, end, db, get, n) == Some(p) && Unique(db(n))
    requires Witnessed(size, end, db, get, n, p) && Observes(p, Shown(p.window, db(n)), q)
    ensures Witnessed(size, end, db, get, n + 1, q)
  {
    hide Turns, Unique, SeenBefore, Wavers;
    var shown := Shown(p.window, db(n));
    forall s ensures SeenBefore(size, end, db, get, n + 1, s) <==> SeenBefore(size, end, db, get, n, s) || s in shown {
      SeenNext(size, end, db, get, n, s);
    }
    LookWavers(size, end, db, get, n, p, q);
  }

  lemma LookWavers(size: nat, end: nat, db: nat -> seq<Snapshot>, get: Snapshot -> Option<Record>, n: nat, p: Progress, q: Progress)
    requires size >= 1 && Turns(size, end, db, get, n) == Some(p) && Unique(db(n))
    requires Witnessed(size, end, db, get, n, p) && Observes(p, Shown(p.window, db(n)), q)
    requires forall s :: SeenBefore(size, end, db, get, n + 1, s) <==>
      SeenBefore(size, end, db, get, n, s) || s in Shown(p.window, db(n))
    ensures q.changed <==> Wavers(size, end, db, get, n + 1)
  {
    hide Turns, SeenBefore, Shown;
    var shown := Shown(p.window, db(n));
    if q.changed && !p.changed {
      var s :| s in shown && s.id in p.observed && p.observed[s.id] != s;
      assert SeenBefore(size, end, db, get, n + 1, p.observed[s.id]) && SeenBefore(size, end, db, get, n + 1, s);
    }
    if p.changed {
      var s, t :| SeenBefore(size, end, db, get, n, s) && SeenBefore(size, end, db, get, n, t) && s.id == t.id && s != t;
      assert SeenBefore(size, end, db, get, n + 1, s) && SeenBefore(size, end, db, get, n + 1, t);
    }
    if !q.changed && Wavers(size, end, db, get, n + 1) {
      var s, t :| SeenBefore(size, end, db, get, n + 1, s) && SeenBefore(size, end, db, get, n + 1, t) && s.id == t.id && s != t;
      ShownUnique(p.window, db(n));
      if s in shown && t in shown { SameRow(shown, s, t); }
      assert false;
    }
  }

  lemma ShownUnique(window: nat, rows: seq<Snapshot>)
    requires Unique(rows)
    ensures Unique(Shown(window, rows))
  {
  }

  /** Throughout the loop, a change has been noted exactly if two turns showed a row differently. */
  lemma {:induction false} TurnsWitness(size: nat, end: nat, db: nat -> seq<Snapshot>, get: Snapshot -> Option<Record>, n: nat)
    requires size >= 1 && (forall k :: Unique(db(k))) && Turns(size, end, db, get, n).Some?
    ensures Witnessed(size, end, db, get, n, Turns(size, end, db, get, n).value)
  {
    hide Unique, Turned, Good, Observes, Witnessed, Lists, Asked, SeenBefore, Shown, SeenAt, Wavers, Start;
    if n > 0 {
      TurnsWitness(size, end, db, get, n - 1);
      var p := Turns(size, end, db, get, n - 1).value;
      TurnsGood(size, end, db, get, n - 1);
      var unasked, batch := GoesOn(p, size, end, db(n - 1), get);
      LookWitnesses(size, end, db, get, n - 1, p, Turns(size, end, db, get, n).value);
    } else {
      StartWitnessed(size, end, db, get);
    }
  }

  lemma StartWitnessed(size: nat, end: nat, db: nat -> seq<Snapshot>, get: Snapshot -> Option<Record>)
    requires size >= 1
    ensures Witnessed(size, end, db, get, 0, Start(size))
  {
  }

  // ---------------------------------------------------------------- the answer

  /** How the loop ends: in its n-th turn, forced exactly if the page was not full and rows were left. */
  lemma RunEnds(size: nat, end: nat, db: nat -> seq<Snapshot>, get: Snapshot -> Option<Record>) returns (n: nat, p: Progress, unstale: seq<nat>)
    requires size >= 1 && forall k :: Unique(db(k))
    ensures Turns(size, end, db, get, n) == Some(p) && Turns(size, end, db, get, n + 1).None?
    ensures Lists(unstale, Shown(p.window, db(n)), p.stale.Keys)
    ensures var (q, forced) := RunOf(Start(size), size, end, db, 0, get);
      && q.window == p.window && q.fetched == p.fetched && q.hydrated == p.hydrated && q.stale == p.stale
      && (q.changed <==> Wavers(size, end, db, get, n + 1))
      && (forced <==> !Full(p, end, Shown(p.window, db(n)), unstale) && !Exhausted(p, db(n)))
      && (forced ==> |p.fetched| >= 5000 || p.window >= 5000)
  {
    hide Unique, Turned, Good, Observes, Witnessed, Wavers, RunOf, Looked, Done, Lists, Full, Exhausted, Shown, Start;
    n, p := LastTurn(size, end, db, get, 0);
    TurnsWitness(size, end, db, get, n);
    LookObserves(p, db(n));
    LookedKeeps(p, db(n));
    LookWitnesses(size, end, db, get, n, p, Looked(p, db(n)));
    WitnessedIff(size, end, db, get, n + 1, Looked(p, db(n)));
    unstale := EndsIff(p, size, end, db(n), get);
    assert Turned(p, size, end, db(n), get).None?;
  }

  lemma WitnessedIff(size: nat, end: nat, db: nat -> seq<Snapshot>, get: Snapshot -> Option<Record>, n: nat, p: Progress)
    requires size >= 1 && Witnessed(size, end, db, get, n, p)
    ensures p.changed <==> Wavers(size, end, db, get, n)
  {
  }

  /** Every row that upstream was asked about is still live, as it was. */
  ghost predicate Untouched(p: Progress, locked: Locked) {
    && (forall id :: id in p.hydrated ==> id in locked.live && locked.live[id] == p.hydrated[id].snapshot)
    && forall id :: id in p.stale ==> id in locked.live && locked.live[id] == p.stale[id]
  }

  /** The first rows of the last reading that are not stale, up to where page and window end, are hydrated as they are. */
  ghost predicate Covered(p: Progress, end: nat, rows: seq<Snapshot>, unstale: seq<nat>)
    requires Lists(unstale, rows, p.stale.Keys)
  {
    forall k :: 0 <= k < |unstale| && k < end && k < p.window ==>
      rows[unstale[k]].id in p.hydrated && p.hydrated[rows[unstale[k]].id].snapshot == rows[unstale[k]]
  }

  /** The page: what upstream answered about those rows from the offset on, and how many rows there are. */
  ghost predicate Holds(outcome: Outcome, p: Progress, offset: nat, end: nat, rows: seq<Snapshot>, unstale: seq<nat>)
    requires outcome.Page? && Lists(unstale, rows, p.stale.Keys)
  {
    var to := Least(Least(end, p.window), |unstale|);
    && outcome.total == |unstale|
    && |outcome.results| == (if offset < to then to - offset else 0)
    && forall k :: offset <= k < to ==>
         rows[unstale[k]].id in p.hydrated && outcome.results[k - offset] == p.hydrated[rows[unstale[k]].id].record
  }

  /**
   * A query is answered exactly if its loop ended by itself, no row was seen in two versions, every row asked about is
   * untouched and the page is covered by hydrated rows; it ends with a horizon conflict exactly if the loop was forced.
   */
  lemma PageIff(offset: nat, size: nat, db: nat -> seq<Snapshot>, get: Snapshot -> Option<Record>, locked: Locked)
      returns (n: nat, p: Progress, shown: seq<nat>, last: seq<nat>)
    requires size >= 1 && Readings(db, locked)
    ensures Turns(size, offset + size, db, get, n) == Some(p) && Turns(size, offset + size, db, get, n + 1).None?
    ensures Lists(shown, Shown(p.window, db(n)), p.stale.Keys) && Lists(last, locked.ordered, p.stale.Keys)
    ensures var outcome, end := Answered(offset, size, db, get, locked).0, offset + size;
      var ended := Full(p, end, Shown(p.window, db(n)), shown) || Exhausted(p, db(n));
      && (outcome.HorizonConflict? <==> !ended)
      && (outcome.Page? <==>
            ended && !Wavers(size, end, db, get, n + 1) && Untouched(p, locked) && Covered(p, end, locked.ordered, last))
      && (outcome.Page? ==> Holds(outcome, p, offset, end, locked.ordered, last))
  {
    hide Turns, RunOf, Unique, Wavers, Full, Exhausted, Shown, Lists, Covered, Holds, Untouched, Agrees, Readings, FinalRows;
    var end := offset + size;
    assert forall k :: Unique(db(k)) by { ReadingsUnique(db, locked); }
    n, p, shown := RunEnds(size, end, db, get);
    last := UnseenLists(locked.ordered, p.stale.Keys);
    var (q, forced) := RunOf(Start(size), size, end, db, 0, get);
    AgreesIff(q, end, locked, last);
    if !forced && Agrees(q, end, locked) { PageHolds(q, offset, end, locked, last); }
    SamePage(q, p, Finalized(q, offset, end, locked, forced), offset, end, locked, last);
  }

  lemma ReadingsUnique(db: nat -> seq<Snapshot>, locked: Locked)
    requires Readings(db, locked)
    ensures forall k :: Unique(db(k))
  {
  }

  lemma SamePage(q: Progress, p: Progress, outcome: Outcome, offset: nat, end: nat, locked: Locked, last: seq<nat>)
    requires q.window == p.window && q.hydrated == p.hydrated && q.stale == p.stale
    requires Lists(last, locked.ordered, p.stale.Keys)
    ensures Untouched(q, locked) <==> Untouched(p, locked)
    ensures Covered(q, end, locked.ordered, last) <==> Covered(p, end, locked.ordered, last)
    ensures outcome.Page? && Holds(outcome, q, offset, end, locked.ordered, last) ==> Holds(outcome, p, offset, end, locked.ordered, last)
  {
    hide Lists, Untouched, Covered, Holds;
    SameUntouched(q, p, locked);
    SameCovered(q, p, end, locked.ordered, last);
    if outcome.Page? && Holds(outcome, q, offset, end, locked.ordered, last) { SameHolds(q, p, outcome, offset, end, locked.ordered, last); }
  }

  lemma SameUntouched(q: Progress, p: Progress, locked: Locked)
    requires q.hydrated == p.hydrated && q.stale == p.stale
    ensures Untouched(q, locked) <==> Untouched(p, locked)
  {
  }

  lemma SameCovered(q: Progress, p: Progress, end: nat, rows: seq<Snapshot>, last: seq<nat>)
    requires q.window == p.window && q.hydrated == p.hydrated && q.stale == p.stale && Lists(last, rows, p.stale.Keys)
    ensures Covered(q, end, rows, last) <==> Covered(p, end, rows, last)
  {
  }

  lemma SameHolds(q: Progress, p: Progress, outcome: Outcome, offset: nat, end: nat, rows: seq<Snapshot>, last: seq<nat>)
    requires q.window == p.window && q.hydrated == p.hydrated && q.stale == p.stale && Lists(last, rows, p.stale.Keys)
    requires outcome.Page? && Holds(outcome, q, offset, end, rows, last)
    ensures Holds(outcome, p, offset, end, rows, last)
  {
  }

  /** When every row asked about is untouched, all the stale rows are marked. */
  lemma AllMarked(p: Progress, locked: Locked)
    requires Untouched(p, locked)
    ensures FinalRows(locked, p.stale) == Unseen(locked.ordered, p.stale.Keys)
  {
    assert Marked(locked, p.stale) == p.stale.Keys;
    hide Unseen;
  }

  lemma AgreesIff(p: Progress, end: nat, locked: Locked, last: seq<nat>)
    requires Lists(last, locked.ordered, p.stale.Keys) && |last| == |Unseen(locked.ordered, p.stale.Keys)|
    requires forall k :: 0 <= k < |last| ==> Unseen(locked.ordered, p.stale.Keys)[k] == locked.ordered[last[k]]
    ensures Agrees(p, end, locked) <==> !p.changed && Untouched(p, locked) && Covered(p, end, locked.ordered, last)
  {
    hide Unseen, FinalRows, Lists;
    ListsIn(last, locked.ordered, p.stale.Keys);
    if Untouched(p, locked) {
      AllMarked(p, locked);
      var rows := FinalRows(locked, p.stale);
      var candidates := Candidates(p.window, rows);
      var needed := candidates[..Min(end, |candidates|)];
      assert forall k :: 0 <= k < |needed| ==> needed[k] == rows[k] == locked.ordered[last[k]];
    }
  }

  lemma ListsIn(at: seq<nat>, rows: seq<Snapshot>, ids: set<string>)
    requires Lists(at, rows, ids)
    ensures forall k :: 0 <= k < |at| ==> at[k] < |rows|
  {
  }

  lemma PageHolds(p: Progress, offset: nat, end: nat, locked: Locked, last: seq<nat>)
    requires Agrees(p, end, locked) && offset <= end
    requires Lists(last, locked.ordered, p.stale.Keys) && |last| == |Unseen(locked.ordered, p.stale.Keys)|
    requires forall k :: 0 <= k < |last| ==> Unseen(locked.ordered, p.stale.Keys)[k] == locked.ordered[last[k]]
    ensures Finalized(p, offset, end, locked, false).Page?
    ensures Holds(Finalized(p, offset, end, locked, false), p, offset, end, locked.ordered, last)
  {
    hide Unseen, FinalRows, Lists, Agrees, RecordsOf, Untouched, AllHydrated;
    ListsIn(last, locked.ordered, p.stale.Keys);
    AgreesIff(p, end, locked, last);
    AllMarked(p, locked);
    var rows := FinalRows(locked, p.stale);
    FirstRecords(rows, p.hydrated, p.window, end, offset);
    var n := Least(Least(end, p.window), |last|);
    forall k | 0 <= k < n ensures rows[k] == locked.ordered[last[k]] {}
  }

  lemma FirstRecords(rows: seq<Snapshot>, hydrated: map<string, Hydrated>, window: nat, end: nat, offset: nat)
    requires forall k :: 0 <= k < |rows| && k < end && k < window ==> rows[k].id in hydrated && hydrated[rows[k].id].snapshot == rows[k]
    ensures var n, records := Least(Least(end, window), |rows|), Cut(RecordsOf(Candidates(window, rows), hydrated), offset, end);
      && |records| == (if offset < n then n - offset else 0)
      && forall k :: 0 <= k < |records| ==> records[k] == hydrated[rows[offset + k].id].record
  {
    hide RecordsOf;
    var candidates := Candidates(window, rows);
    var n := Least(Least(end, window), |rows|);
    assert AllHydrated(candidates[..n], hydrated);
    RecordsAt(candidates, hydrated, n);
    RecordsBound(candidates, hydrated);
    hide AllHydrated;
    assert forall k :: 0 <= k < n ==> candidates[k] == rows[k];
  }
}
