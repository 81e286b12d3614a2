// What the sections of the consolidation service do, said of rows and proposals:
// what an approval and a shadowing take for granted and record, which state a
// retired row gets, and how long deletion waits after that.
module ConsolidationEffects {
  import opened Consolidation
  import opened ConsolidationMoves
  import opened Wrappers

  // ---------------------------------------------------------------- sources

  /** The sources are exactly those with a hash, and each is there, live, active, unpinned and unchanged. */
  ghost predicate Intact(rows: Rows, p: Proposal, hashes: Hashes) {
    && (forall m :: m in hashes <==> m in p.sources)
    && (forall m :: m in p.sources ==>
          && m in rows && rows[m].app == p.app && rows[m].live && !rows[m].pinned && rows[m].state == RowState.Active
          && rows[m].hash == hashes[m])
    && (p.kind == ExactDuplicate ==> p.canonical.Some? && p.canonical.value in p.sources)
  }

  lemma IntactIs(rows: Rows, p: Proposal, hashes: Hashes)
    ensures SourcesFit(rows, p, hashes) <==> Intact(rows, p, hashes)
  {
    if Intact(rows, p, hashes) {
      forall m | m in p.sources ensures m in rows && SourceFits(rows[m], p.app, hashes[m]) {
        assert m in hashes;
      }
    }
  }

  /** Only this proposal changes. */
  ghost predicate OnlyProposal(s: World, t: World, id: nat) {
    id in s.proposals && id in t.proposals && t == s.(proposals := s.proposals[id := t.proposals[id]])
  }

  // ---------------------------------------------------------------- approval

  /** A near duplicate or a contradiction takes a canonical chosen in review; other kinds keep the proposed one. */
  predicate Decidable(p: Proposal, a: Approval) {
    if p.kind == NearDuplicate || p.kind == Contradiction then a.expected == ReviewRequired && a.canonical.Some?
    else a.canonical.None? || a.canonical == p.canonical
  }

  /**
   * An approval that the policy allows, of a proposal in the expected status: if a source is not intact the proposal is
   * stale; if the chosen canonical is no source nothing happens; otherwise the hashes and the canonical are recorded.
   */
  lemma Approves(s: World, id: nat, a: Approval, policy: bool)
    requires Enabled(s, ApproveIt(id, a, policy))
    ensures var p, t := s.proposals[id], Step(s, ApproveIt(id, a, policy));
      && OnlyProposal(s, t, id)
      && var q := t.proposals[id];
        if !policy || p.status != a.expected || !Decidable(p, a) then t == s
        else if !Intact(s.rows, p, a.hashes) then q == p.(status := Stale)
        else if a.canonical.Some? && a.canonical.value !in p.sources then t == s
        else
          && q == p.(hashes := a.hashes, canonical := if a.canonical.Some? then a.canonical else p.canonical,
                     canonicalHash := q.canonicalHash, status := Approved)
          && q.canonicalHash == if q.canonical.Some? && q.canonical.value in a.hashes then Some(a.hashes[q.canonical.value])
                                else if q.canonical.Some? then None else p.canonicalHash
  {
    hide SourcesFit, Intact;
    IntactIs(s.rows, s.proposals[id], a.hashes);
    SelfPut(s, id);
  }

  /** A replacement memory may be asked for only in review; until it is there, nothing is decided. */
  lemma ReplacementAsked(s: World, r: nat, id: nat, hashes: Hashes, policy: bool)
    requires Enabled(s, Replace(r, id, hashes, policy))
    ensures var p, t := s.proposals[id], Step(s, Replace(r, id, hashes, policy));
      if policy && (p.kind == NearDuplicate || p.kind == Contradiction) && p.status == ReviewRequired then
        if Intact(s.rows, p, hashes) then t == s.(replacing := s.replacing[r := (id, hashes)])
        else OnlyProposal(s, t, id) && t.proposals[id] == p.(status := Stale)
      else t == s
  {
    hide SourcesFit, Intact;
    IntactIs(s.rows, s.proposals[id], hashes);
    SelfPut(s, id);
  }

  /** The replacement becomes the canonical, with its own hash, if the sources are still intact. */
  lemma ReplacementDecides(s: World, r: nat, memory: string, hash: string)
    requires Enabled(s, Replaced(r, memory, hash))
    ensures var (id, hashes) := s.replacing[r]; var p, t := s.proposals[id], Step(s, Replaced(r, memory, hash));
      && id in t.proposals && t == s.(replacing := s.replacing - {r}, proposals := s.proposals[id := t.proposals[id]])
      && t.proposals[id].status == (if Intact(s.rows, p, hashes) then Approved else Stale)
      && (Intact(s.rows, p, hashes) && (p.kind == NearDuplicate || p.kind == Contradiction) ==>
            t.proposals[id] == p.(hashes := hashes, canonical := Some(memory), canonicalHash := Some(hash), status := Approved))
      && (!Intact(s.rows, p, hashes) ==> t.proposals[id] == p.(status := Stale))
  {
    hide SourcesFit, Intact;
    IntactIs(s.rows, s.proposals[s.replacing[r].0], s.replacing[r].1);
  }

  // ---------------------------------------------------------------- shadowing

  /** Another attempt has the proposal, and its lease runs. */
  predicate Leased(p: Proposal, now: int) {
    p.status == Exporting && p.attempt.Some? && p.expires.Some? && now < p.expires.value
  }

  /** An attempt takes an approved proposal, or one whose lease is over, until its own lease ends; stale sources end it. */
  lemma ShadowingBegins(s: World, attempt: nat, id: nat, lease: nat, ready: bool)
    requires Enabled(s, BeginShadow(attempt, id, lease, ready))
    ensures var p, t := s.proposals[id], Step(s, BeginShadow(attempt, id, lease, ready));
      if !ready || Leased(p, s.now) || (p.status != Approved && p.status != Exporting) then t == s
      else if !Intact(s.rows, p, p.hashes) then OnlyProposal(s, t, id) && t.proposals[id] == p.(status := Stale)
      else
        && t == s.(proposals := s.proposals[id := p.(status := Exporting, attempt := Some(attempt), expires := Some(s.now + lease))],
                   shadows := s.shadows[attempt := Shadow(id, p.hashes)], used := s.used + {attempt})
  {
    hide SourcesFit, Intact;
    IntactIs(s.rows, s.proposals[id], s.proposals[id].hashes);
    SelfPut(s, id);
  }

  /** A mismatch upstream before the export makes the proposal stale, if the attempt still has it. */
  lemma MismatchEnds(s: World, attempt: nat)
    requires Enabled(s, Mismatch(attempt))
    ensures var id, t := s.shadows[attempt].proposal, Step(s, Mismatch(attempt)); var p := s.proposals[id];
      t == s.(shadows := s.shadows - {attempt},
              proposals := if p.status == Exporting && p.attempt == Some(attempt)
                           then s.proposals[id := p.(attempt := None, expires := None, status := Stale)] else s.proposals)
  {
  }

  /** The state of a retired row tells why it was retired. */
  function StateFor(kind: Kind): RowState {
    match kind
    case ExactDuplicate => RowState.Merged
    case NearDuplicate => RowState.Merged
    case Contradiction => RowState.Superseded
    case Retention => RowState.Shadowed
  }

  /** Exactly the sources other than the canonical are retired, by this proposal, in the state for its kind. */
  ghost predicate RetiredFor(rows: Rows, after: Rows, id: nat, p: Proposal) {
    && after.Keys == rows.Keys
    && forall m :: m in rows ==>
      after[m] == if m in p.sources && p.canonical != Some(m) then rows[m].(state := StateFor(p.kind), shadowedBy := Some(id)) else rows[m]
  }

  lemma RetiredIs(rows: Rows, id: nat, p: Proposal)
    ensures RetiredFor(rows, Retire(rows, id, p), id, p)
  {
  }

  /** The section that may retire: the attempt has the proposal, export and upstream are as they should be, sources intact. */
  ghost predicate Succeeding(s: World, attempt: nat, job: Export, upstreamMatches: bool)
    requires attempt in s.shadows && s.shadows[attempt].proposal in s.proposals
  {
    var p := s.proposals[s.shadows[attempt].proposal];
    && p.status == Exporting && p.attempt == Some(attempt) && job.succeeded && job.complete && upstreamMatches
    && Intact(s.rows, p, s.shadows[attempt].hashes)
  }

  /**
   * The end of a shadowing.  If it succeeds, the targets are retired and the proposal waits for the grace period from now
   * on; if the attempt lost the proposal, nothing is written; otherwise the proposal is failed if the export is, else stale.
   */
  lemma ShadowingEnds(s: World, attempt: nat, job: Export, upstreamMatches: bool, grace: nat)
    requires Enabled(s, EndShadow(attempt, job, upstreamMatches, grace))
    ensures var id, t := s.shadows[attempt].proposal, Step(s, EndShadow(attempt, job, upstreamMatches, grace)); var p := s.proposals[id];
      && id in t.proposals && t.shadows == s.shadows - {attempt}
      && if Succeeding(s, attempt, job, upstreamMatches) then
           && RetiredFor(s.rows, t.rows, id, p)
           && t == s.(rows := t.rows, shadows := t.shadows, retired := t.retired, tick := t.tick,
                      proposals := s.proposals[id := p.(attempt := None, expires := None, exportId := Some(job.id),
                                                        notBefore := Some(s.now + grace), status := ShadowedStatus)])
         else if p.status != Exporting || p.attempt != Some(attempt) then t == s.(shadows := t.shadows)
         else
           t == s.(shadows := t.shadows,
                   proposals := s.proposals[id := p.(attempt := None, expires := None, exportId := Some(job.id),
                                                     status := if job.succeeded then Stale else Failed)])
  {
    hide SourcesFit, Intact, Retire, RetiredFor, Targets;
    var id := s.shadows[attempt].proposal;
    IntactIs(s.rows, s.proposals[id], s.shadows[attempt].hashes);
    RetiredIs(s.rows, id, s.proposals[id]);
  }

  // ---------------------------------------------------------------- rollback, and what others write

  /** A rollback writes the rows that this proposal retired, and takes the proposal's deadline away. */
  lemma RollsBack(s: World, id: nat)
    requires Enabled(s, Rollback(id))
    ensures var p, t := s.proposals[id], Step(s, Rollback(id));
      if p.status != ShadowedStatus then t == s
      else
        && t == s.(rows := t.rows, proposals := s.proposals[id := p.(notBefore := None, status := RolledBack)])
        && t.rows.Keys == s.rows.Keys
        && forall m :: m in s.rows ==>
          t.rows[m] == if m in p.sources && s.rows[m].app == p.app && s.rows[m].live && s.rows[m].state != RowState.Active && s.rows[m].shadowedBy == Some(id)
                       then s.rows[m].(state := RowState.Active, shadowedBy := None) else s.rows[m]
  {
  }

  /** A memory that is new, comes back or changes its content is active; otherwise its retirement stays. */
  lemma Upserts(s: World, m: string, app: string, hash: string, pinned: bool)
    ensures var t := Step(s, Upsert(m, app, hash, pinned));
      && m in t.rows && t == s.(rows := s.rows[m := t.rows[m]])
      && t.rows[m] == if m in s.rows && s.rows[m].live && s.rows[m].hash == hash then s.rows[m].(app := app, pinned := pinned)
                      else Row(app, true, pinned, hash, RowState.Active, None)
  {
  }

  // ---------------------------------------------------------------- what a finalizer asks for

  /** It begins exactly if the proposal is shadowed and exported, its deadline is over, and deletes are enabled. */
  lemma FinalizerBegins(s: World, f: nat, id: nat, enabled: bool)
    requires Enabled(s, BeginFinalize(f, id, enabled)) && f !in s.finalizers
    ensures var p, t := s.proposals[id], Step(s, BeginFinalize(f, id, enabled));
      if enabled && p.status == ShadowedStatus && p.exportId.Some? && p.notBefore.Some? && p.notBefore.value <= s.now then
        && f in t.finalizers && t.finalizers == s.finalizers[f := t.finalizers[f]] && t.rows == s.rows && t.proposals == s.proposals
        && var z := t.finalizers[f];
          && z.proposal == id && z.hashes == p.hashes && z.at == 0 && z.phase == Looking
          && (forall m :: m in z.targets <==> m in p.sources && p.canonical != Some(m))
      else t == s
  {
  }
}
