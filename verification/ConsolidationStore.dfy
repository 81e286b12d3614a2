// The consolidation service on its tables, changed in place: the sections that
// loop over the sources of a proposal, proved to do what the state machine says.
module ConsolidationStore {
  import opened Consolidation
  import opened Wrappers

  lemma WithoutFirst(s: seq<string>, c: Option<string>)
    requires s != []
    ensures Without(s, c) == (if c == Some(s[0]) then [] else [s[0]]) + Without(s[1..], c)
  {
  }

  lemma WithoutOne(m: string, c: Option<string>)
    ensures Without([m], c) == if c == Some(m) then [] else [m]
    ensures Without([], c) == []
  {
  }

  lemma WithoutMore(s: seq<string>, c: Option<string>, n: nat)
    requires n < |s|
    ensures Without(s[..n + 1], c) == Without(s[..n], c) + if c == Some(s[n]) then [] else [s[n]]
  {
    hide Without;
    WithoutOne(s[n], c);
    if n == 0 {
      assert s[..1] == [s[0]] && s[..0] == [];
    } else {
      assert s[..n + 1][1..] == s[1..][..n] && s[..n][1..] == s[1..][..n - 1];
      WithoutMore(s[1..], c, n - 1);
      WithoutFirst(s[..n + 1], c);
      WithoutFirst(s[..n], c);
    }
  }

  class Service {
    var rows: Rows
    var proposals: map<nat, Proposal>

    constructor (rows: Rows, proposals: map<nat, Proposal>)
      ensures this.rows == rows && this.proposals == proposals
    {
      this.rows, this.proposals := rows, proposals;
    }

    /** `_proposal_sources`: whether every source is there, active, live, unpinned and unchanged. */
    method ProposalSources(id: nat, hashes: Hashes) returns (fit: bool)
      requires id in proposals
      ensures fit == SourcesFit(rows, proposals[id], hashes)
    {
      var p := proposals[id];
      if hashes.Keys != (set m | m in p.sources) {
        return false;
      }
      for n := 0 to |p.sources|
        invariant forall k :: 0 <= k < n ==> p.sources[k] in rows && SourceFits(rows[p.sources[k]], p.app, hashes[p.sources[k]])
      {
        var m := p.sources[n];
        assert m in p.sources;
        if m !in rows || !SourceFits(rows[m], p.app, hashes[m]) {
          return false;
        }
      }
      return !p.kind.ExactDuplicate? || (p.canonical.Some? && p.canonical.value in p.sources);
    }

    /** The last section of `shadow_approved`, for an attempt that began with these hashes. */
    method FinishShadow(id: nat, attempt: nat, hashes: Hashes, job: Export, upstreamMatches: bool, now: int, grace: nat)
      requires id in proposals
      modifies this
      ensures var t := ShadowedStep(
          Start(now).(rows := old(rows), proposals := old(proposals), shadows := map[attempt := Shadow(id, hashes)]),
          attempt, job, upstreamMatches, grace);
        rows == t.rows && proposals == t.proposals
    {
      var p := proposals[id];
      if !Owns(p, attempt) {
        return;
      }
      p := p.(exportId := Some(job.id));
      if !(job.succeeded && job.complete) {
        proposals := proposals[id := ClearAttempt(p).(status := if job.succeeded then Stale else Failed)];
        return;
      }
      var fit := ProposalSources(id, hashes);
      if !upstreamMatches || !fit {
        proposals := proposals[id := ClearAttempt(p).(status := Stale)];
        return;
      }
      RetireTargets(id);
      proposals := proposals[id := ClearAttempt(p).(notBefore := Some(now + grace), status := ShadowedStatus)];
    }

    /** The loop that retires every source but the canonical. */
    method RetireTargets(id: nat)
      requires id in proposals && forall m :: m in proposals[id].sources ==> m in rows
      modifies this`rows
      ensures rows == Retire(old(rows), id, proposals[id])
    {
      var p := proposals[id];
      RetireNone(rows, id, p);
      for n := 0 to |p.sources|
        invariant rows == RetireSome(old(rows), id, p, Without(p.sources[..n], p.canonical))
      {
        var m := p.sources[n];
        assert m in p.sources;
        WithoutMore(p.sources, p.canonical, n);
        RetireMore(old(rows), id, p, Without(p.sources[..n], p.canonical), m);
        if p.canonical != Some(m) {
          rows := rows[m := rows[m].(state := RetiredState(p.kind), shadowedBy := Some(id))];
        } else {
          assert Without(p.sources[..n + 1], p.canonical) == Without(p.sources[..n], p.canonical);
        }
      }
      assert p.sources[..|p.sources|] == p.sources;
    }

    /** `rollback_shadowed`: how many memories it made active again. */
    method RollbackShadowed(id: nat) returns (ok: bool, restored: nat)
      requires id in proposals && Distinct(proposals[id].sources)
      modifies this
      ensures ok == old(proposals)[id].status.ShadowedStatus?
      ensures var t := RollbackStep(Start(0).(rows := old(rows), proposals := old(proposals)), id);
        rows == t.rows && proposals == t.proposals
      ensures ok ==> restored == |Restored(old(rows), id, old(proposals)[id], old(proposals)[id].sources)|
    {
      var p := proposals[id];
      if !p.status.ShadowedStatus? {
        return false, 0;
      }
      restored := RestoreSources(id, p);
      proposals := proposals[id := p.(notBefore := None, status := RolledBack)];
      return true, restored;
    }

    method RestoreSources(id: nat, p: Proposal) returns (restored: nat)
      requires Distinct(p.sources)
      modifies this`rows
      ensures rows == RollbackRows(old(rows), id, p) && restored == |Restored(old(rows), id, p, p.sources)|
    {
      restored := 0;
      RestoreNone(rows, id, p);
      for n := 0 to |p.sources|
        invariant rows == RestoreSome(old(rows), id, p, p.sources[..n])
        invariant restored == |Restored(old(rows), id, p, p.sources[..n])|
      {
        RestoreMore(old(rows), id, p, n);
        var m := p.sources[n];
        if m in rows && Restores(rows[m], id, p) {
          rows := rows[m := rows[m].(state := Active, shadowedBy := None)];
          restored := restored + 1;
        }
      }
      assert p.sources[..|p.sources|] == p.sources;
    }
  }

  function RetireSome(rows: Rows, id: nat, p: Proposal, ms: seq<string>): Rows {
    map m | m in rows :: if m in ms then rows[m].(state := RetiredState(p.kind), shadowedBy := Some(id)) else rows[m]
  }

  lemma RetireNone(rows: Rows, id: nat, p: Proposal)
    ensures RetireSome(rows, id, p, []) == rows
    ensures Without(p.sources[..0], p.canonical) == []
  {
  }

  lemma RetireMore(rows: Rows, id: nat, p: Proposal, ms: seq<string>, m: string)
    requires m in rows
    ensures var row := RetireSome(rows, id, p, ms)[m].(state := RetiredState(p.kind), shadowedBy := Some(id));
      RetireSome(rows, id, p, ms + [m]) == RetireSome(rows, id, p, ms)[m := row]
  {
  }

  function RestoreSome(rows: Rows, id: nat, p: Proposal, ms: seq<string>): Rows {
    map m | m in rows :: if m in ms && Restores(rows[m], id, p) then rows[m].(state := Active, shadowedBy := None) else rows[m]
  }

  /** The memories of `ms` that a rollback makes active. */
  function Restored(rows: Rows, id: nat, p: Proposal, ms: seq<string>): set<string> {
    set m | m in ms && m in rows && Restores(rows[m], id, p)
  }

  lemma RestoreNone(rows: Rows, id: nat, p: Proposal)
    ensures RestoreSome(rows, id, p, p.sources[..0]) == rows && Restored(rows, id, p, p.sources[..0]) == {}
  {
  }

  lemma RestoreMore(rows: Rows, id: nat, p: Proposal, n: nat)
    requires Distinct(p.sources) && n < |p.sources|
    ensures var ms, m := p.sources[..n], p.sources[n];
      var before, hit := RestoreSome(rows, id, p, ms), m in rows && Restores(RestoreSome(rows, id, p, ms)[m], id, p);
      && RestoreSome(rows, id, p, p.sources[..n + 1])
         == (if hit then before[m := before[m].(state := Active, shadowedBy := None)] else before)
      && |Restored(rows, id, p, p.sources[..n + 1])| == |Restored(rows, id, p, ms)| + if hit then 1 else 0
  {
    var ms, m := p.sources[..n], p.sources[n];
    assert p.sources[..n + 1] == ms + [m] && m !in ms;
    hide Distinct, Restores;
    RestoreRow(rows, id, p, ms, m);
    RestoreCount(rows, id, p, ms, m);
    hide RestoreSome, Restored;
  }

  lemma RestoreRow(rows: Rows, id: nat, p: Proposal, ms: seq<string>, m: string)
    requires m !in ms
    ensures var before := RestoreSome(rows, id, p, ms);
      && (m in rows <==> m in before) && (m in rows ==> before[m] == rows[m])
      && RestoreSome(rows, id, p, ms + [m])
         == (if m in rows && Restores(rows[m], id, p) then before[m := before[m].(state := Active, shadowedBy := None)] else before)
  {
    hide Restores;
    assert forall x :: x in ms + [m] <==> x in ms || x == m;
  }

  lemma RestoreCount(rows: Rows, id: nat, p: Proposal, ms: seq<string>, m: string)
    requires m !in ms
    ensures |Restored(rows, id, p, ms + [m])| == |Restored(rows, id, p, ms)| + if m in rows && Restores(rows[m], id, p) then 1 else 0
  {
    hide Restores;
    if m in rows && Restores(rows[m], id, p) {
      assert Restored(rows, id, p, ms + [m]) == Restored(rows, id, p, ms) + {m};
    } else {
      assert Restored(rows, id, p, ms + [m]) == Restored(rows, id, p, ms);
    }
  }
}
