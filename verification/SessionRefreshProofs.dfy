// Groundwork for the session-refresh coordinator: what eviction, lookup, leasing
// and cutting off guards do to the parts of its invariant.
module SessionRefreshProofs {
  import opened InsertionOrderedMap
  import opened SessionRefreshState

  // ---------------------------------------------------------------- what the small operations keep

  /** Guards never come back to life. */
  ghost predicate Ages(before: Graph, after: Graph) {
    forall g :: g in before ==> g in after && (before[g].dead ==> after[g].dead)
  }

  lemma CutKeeps(graph: Graph, cut: set<TokenGuard>, dying: set<TokenGuard>)
    requires GraphInv(graph) && dying <= cut
    ensures GraphInv(Cut(graph, cut, dying)) && Ages(graph, Cut(graph, cut, dying))
  {
  }

  lemma {:induction false} EvictGuardsKeeps(graph: Graph, guards: OrderedMap<TokenGuard>, limit: nat)
    requires GraphInv(graph) && GuardsInv(graph, guards)
    ensures var (g, t) := EvictGuards(graph, guards, limit);
      && GraphInv(g) && GuardsInv(g, t) && Ages(graph, g)
      && t == guards.Trim(limit)
    decreases |guards.order|
  {
    if |guards.order| > limit {
      var oldest := guards.at[guards.order[0]];
      CutKeeps(graph, {oldest}, {oldest});
      EvictOneKeeps(graph, guards);
      EvictGuardsKeeps(Cut(graph, {oldest}, {oldest}), guards.DropOldest(), limit);
    }
  }

  lemma EvictOneKeeps(graph: Graph, guards: OrderedMap<TokenGuard>)
    requires GuardsInv(graph, guards) && guards.order != []
    ensures guards.order[0] in guards.at
    ensures var oldest := guards.at[guards.order[0]];
      GuardsInv(Cut(graph, {oldest}, {oldest}), guards.DropOldest())
  {
    guards.DropOldestValid();
    assert guards.order[0] in guards.order;
  }

  /** Eviction does not touch a guard without edges that stays in the map. */
  lemma {:induction false} EvictSparesIsolated(graph: Graph, guards: OrderedMap<TokenGuard>, limit: nat, h: TokenGuard)
    requires GraphInv(graph) && GuardsInv(graph, guards)
    requires h in graph && graph[h] == Node(false, {}, {}) && Stored(guards.Trim(limit), h)
    ensures EvictGuards(graph, guards, limit).0[h] == graph[h]
    decreases |guards.order|
  {
    if |guards.order| > limit {
      var oldest := guards.at[guards.order[0]];
      CutKeeps(graph, {oldest}, {oldest});
      EvictOneKeeps(graph, guards);
      guards.DropOldest().TrimValid(limit);
      assert h != oldest;
      EvictSparesIsolated(Cut(graph, {oldest}, {oldest}), guards.DropOldest(), limit, h);
    }
  }

  lemma InsertGuardKeeps(graph: Graph, guards: OrderedMap<TokenGuard>, made: TokenGuard)
    requires GraphInv(graph) && GuardsInv(graph, guards)
    requires made !in graph && made.refreshToken !in guards.at
    ensures GraphInv(graph[made := Node(false, {}, {})])
    ensures GuardsInv(graph[made := Node(false, {}, {})], guards.Put(made.refreshToken, made))
  {
    hide Minus, Distinct;
    guards.PutValid(made.refreshToken, made);
  }

  lemma KnownGuardKeeps(graph: Graph, guards: OrderedMap<TokenGuard>, token: string)
    requires GuardsInv(graph, guards) && token in guards.at
    ensures var g, moved := guards.at[token], guards.Put(token, guards.at[token]);
      && GuardsInv(graph, moved) && |moved.order| == |guards.order| && g in graph && g.refreshToken == token && Stored(moved, g)
  {
    hide Minus, Distinct;
    guards.PutValid(token, guards.at[token]);
    assert guards.Put(token, guards.at[token]).at == guards.at;
  }

  lemma NewGuardKeeps(graph: Graph, guards: OrderedMap<TokenGuard>, limit: nat, made: TokenGuard)
    requires GraphInv(graph) && GuardsInv(graph, guards) && made !in graph && made.refreshToken !in guards.at && limit > 0
    ensures var (g, t) := EvictGuards(graph[made := Node(false, {}, {})], guards.Put(made.refreshToken, made), limit);
      && GraphInv(g) && GuardsInv(g, t) && |t.order| <= limit && made in g && g[made] == Node(false, {}, {}) && Stored(t, made)
      && Ages(graph, g)
  {
    hide GraphInv, GuardsInv, EvictGuards, Minus, Distinct;
    var more, put := graph[made := Node(false, {}, {})], guards.Put(made.refreshToken, made);
    InsertGuardKeeps(graph, guards, made);
    EvictGuardsKeeps(more, put, limit);
    assert guards.Valid() && put.Valid() by { ValidGuards(graph, guards); ValidGuards(more, put); }
    put.TrimValid(limit);
    guards.TrimKeepsNewest(made.refreshToken, made, limit);
    EvictSparesIsolated(more, put, limit, made);
  }

  lemma ValidGuards(graph: Graph, guards: OrderedMap<TokenGuard>)
    requires GuardsInv(graph, guards)
    ensures guards.Valid()
  {
  }

  /** Guards and their map may be replaced by others that fit together and lose no guard. */
  lemma ReplaceGuards(s: State, graph: Graph, guards: OrderedMap<TokenGuard>)
    requires Inv(s) && s.graph.Keys <= graph.Keys && GraphInv(graph) && GuardsInv(graph, guards)
    requires |guards.order| <= s.config.GuardLimit()
    ensures Inv(s.(graph := graph, guards := guards))
  {
    hide GraphInv, GuardsInv, LeasesInv, OwnersInv, SessionsInv;
  }

  /** `getRefreshTokenGuard` returns a stored guard for the token: the known one, or a new one without edges. */
  lemma GetGuardKeeps(s: State, token: string, made: TokenGuard)
    requires Inv(s) && made !in s.graph && made.refreshToken == token
    ensures var q := GetGuard(s, token, made); var h := GuardOf(s, token, made);
      && Inv(q) && Ages(s.graph, q.graph) && q == s.(graph := q.graph, guards := q.guards)
      && h in q.graph && h.refreshToken == token && Stored(q.guards, h)
      && (h == made ==> q.graph[h] == Node(false, {}, {}))
      && (h != made ==> q.graph == s.graph)
  {
    assert GraphInv(s.graph) && GuardsInv(s.graph, s.guards) && LimitsInv(s);
    hide Inv, GraphInv, GuardsInv, EvictGuards, Stored;
    var q := GetGuard(s, token, made);
    if token in s.guards.at {
      KnownGuardKeeps(s.graph, s.guards, token);
      ReplaceGuards(s, s.graph, q.guards);
    } else {
      NewGuardKeeps(s.graph, s.guards, s.config.GuardLimit(), made);
      ReplaceGuards(s, q.graph, q.guards);
    }
  }

  lemma RetireKeeps(leases: OrderedMap<CookieLease>, active: map<CookieLease, bool>, s: State, tokens: set<string>)
    requires s.leases == leases && s.active == active && LeasesInv(leases, active)
    ensures var q := RetireLeases(s, tokens);
      && LeasesInv(q.leases, q.active) && q == s.(leases := q.leases, active := q.active)
      && q.active.Keys == s.active.Keys && |q.leases.order| <= |s.leases.order|
      && (forall l :: l in s.active ==> (q.active[l] <==> s.active[l] && l.resultGuard.refreshToken !in tokens))
  {
    leases.RemoveValid(tokens);
  }

  lemma RetireStateKeeps(s: State, tokens: set<string>)
    requires Inv(s)
    ensures Inv(RetireLeases(s, tokens))
  {
    RetireKeeps(s.leases, s.active, s, tokens);
    hide GraphInv, GuardsInv, LeasesInv, LeaseGuardsInv, OwnersInv, SessionsInv, RotationsInv;
  }

  lemma {:induction false} EvictLeasesKeeps(leases: OrderedMap<CookieLease>, active: map<CookieLease, bool>, limit: nat)
    requires LeasesInv(leases, active)
    ensures var (l, a) := EvictLeases(leases, active, limit);
      LeasesInv(l, a) && a.Keys == active.Keys && l == leases.Trim(limit)
    decreases |leases.order|
  {
    if |leases.order| > limit {
      leases.DropOldestValid();
      assert leases.order[0] in leases.order;
      EvictLeasesKeeps(leases.DropOldest(), active[leases.at[leases.order[0]] := false], limit);
    }
  }

  function Displace(s: State, lease: CookieLease): map<CookieLease, bool> {
    var t := lease.resultGuard.refreshToken;
    if t in s.leases.at && s.leases.at[t] != lease then s.active[s.leases.at[t] := false] else s.active
  }

  /** A new lease put under its result token displaces the one stored there. */
  lemma DisplaceKeeps(s: State, lease: CookieLease, s0: State)
    requires LeasesInv(s0.leases, s0.active) && lease !in s0.active
    requires s.leases == s0.leases && s.active == s0.active[lease := true]
    ensures LeasesInv(s.leases.Put(lease.resultGuard.refreshToken, lease), Displace(s, lease))
  {
    hide Minus, OrderedMap.Valid;
    s.leases.PutValid(lease.resultGuard.refreshToken, lease);
    var put := s.leases.Put(lease.resultGuard.refreshToken, lease);
    assert put.at == s.leases.at[lease.resultGuard.refreshToken := lease];
    hide OrderedMap.Put;
  }

  lemma CacheLeaseKeeps(s: State, lease: CookieLease, s0: State)
    requires LeasesInv(s0.leases, s0.active) && lease !in s0.active
    requires s.leases == s0.leases && s.active == s0.active[lease := true]
    ensures var q := CacheLease(s, lease.resultGuard.refreshToken, lease);
      && LeasesInv(q.leases, q.active) && q == s.(leases := q.leases, active := q.active)
      && q.active.Keys == s.active.Keys && |q.leases.order| <= s.config.CacheLimit()
      && StoredLease(q.leases, lease)
  {
    var t, limit := lease.resultGuard.refreshToken, s.config.CacheLimit();
    DisplaceKeeps(s, lease, s0);
    EvictLeasesKeeps(s.leases.Put(t, lease), Displace(s, lease), limit);
    s.leases.PutTrim(t, lease, limit);
    assert t in s.leases.at ==> s.leases.at[t] in s.active;
    hide LeasesInv, OrderedMap.Valid, OrderedMap.Put, OrderedMap.Trim, EvictLeases;
  }

  lemma CacheKeeps(s: State, token: string, session: Session)
    requires Inv(s)
    requires session.Live? ==> session.result in s.owner && session.result.refreshToken == token
    ensures Inv(Cache(s, token, session))
  {
    hide GraphInv, GuardsInv, LeasesInv, LeaseGuardsInv, OwnersInv, RotationsInv, Minus, Distinct;
    hide OrderedMap.Valid, OrderedMap.Put, OrderedMap.Trim;
    s.sessions.PutTrim(token, session, s.config.CacheLimit());
  }

  lemma RemoveSessionsKeeps(s: State, tokens: set<string>)
    requires Inv(s)
    ensures Inv(s.(sessions := s.sessions.Remove(tokens)))
  {
    hide GraphInv, GuardsInv, LeasesInv, LeaseGuardsInv, OwnersInv, RotationsInv;
    s.sessions.RemoveValid(tokens);
  }

  lemma AmbiguousKeeps(s: State, ambiguous: OrderedMap<int>)
    requires Inv(s) && ambiguous.Valid() && |ambiguous.order| <= s.config.CacheLimit()
    ensures Inv(s.(ambiguous := ambiguous))
  {
    hide GraphInv, GuardsInv, LeasesInv, LeaseGuardsInv, OwnersInv, SessionsInv, RotationsInv;
  }

  lemma PruneKeeps(s: State, now: int)
    requires Inv(s)
    ensures var q := PruneExpired(s, now);
      Inv(q) && q == s.(sessions := q.sessions, ambiguous := q.ambiguous)
  {
    hide GraphInv, GuardsInv, LeasesInv, LeaseGuardsInv, OwnersInv, SessionsInv, RotationsInv, Minus, Distinct;
    var late := set t | t in s.ambiguous.at && s.ambiguous.at[t] <= now;
    RemoveSessionsKeeps(s, set t | t in s.sessions.at && s.sessions.at[t].expiresAt <= now);
    s.ambiguous.RemoveValid(late);
    AmbiguousKeeps(s.(sessions := PruneExpired(s, now).sessions), s.ambiguous.Remove(late));
  }

  lemma QuarantineKeeps(s: State, token: string, now: int, later: int)
    requires Inv(s)
    ensures Inv(Quarantine(s, token, now, later))
  {
    hide GraphInv, GuardsInv, LeasesInv, LeaseGuardsInv, OwnersInv, SessionsInv, RotationsInv;
    hide OrderedMap.Valid, OrderedMap.Put, OrderedMap.Trim;
    var limit := s.config.CacheLimit();
    s.ambiguous.PutTrim(token, now + s.config.ambiguityHistoryTtl, limit);
    var a := s.ambiguous.Put(token, now + s.config.ambiguityHistoryTtl).Trim(limit);
    AmbiguousKeeps(s, a);
    CacheKeeps(s.(ambiguous := a), token, Ambiguous(later + s.config.ambiguousTokenGrace));
  }

  lemma QuarantineKnownKeeps(s: State, token: string, now: int, later: int)
    requires Inv(s)
    ensures Inv(QuarantineKnown(s, token, now, later))
  {
    hide GraphInv, GuardsInv, LeasesInv, LeaseGuardsInv, OwnersInv, SessionsInv, RotationsInv;
    hide OrderedMap.Valid, OrderedMap.Put, OrderedMap.Remove;
    if KnownAmbiguous(s, token, now) {
      var history := s.ambiguous.at[token];
      s.ambiguous.PutValid(token, history);
      AmbiguousKeeps(s, s.ambiguous.Put(token, history));
      CacheKeeps(s.(ambiguous := s.ambiguous.Put(token, history)), token,
                 Ambiguous(Min(later + s.config.ambiguousTokenGrace, history)));
    } else {
      s.ambiguous.RemoveValid({token});
      AmbiguousKeeps(s, s.ambiguous.Remove({token}));
    }
  }

  lemma SettleKeeps(s: State, i: nat, outcome: Outcome)
    requires Inv(s) && i in s.rotations
    requires outcome.SignedIn? ==> outcome.result in s.owner
    ensures Inv(Settle(s, i, outcome))
  {
    hide GraphInv, GuardsInv, LeasesInv, LeaseGuardsInv, OwnersInv, SessionsInv, OrderedMap.Valid;
  }

  lemma InvalidateAllKeeps(s: State, dying: set<TokenGuard>)
    requires Inv(s)
    ensures Inv(InvalidateAll(s, dying)) && Ages(s.graph, InvalidateAll(s, dying).graph)
  {
    var tokens := Tokens(dying);
    var q := InvalidateAll(s, dying);
    RetireStateKeeps(s, tokens);
    s.ambiguous.RemoveValid(tokens);
    RemoveSessionsKeeps(RetireLeases(s, tokens), tokens);
    AmbiguousKeeps(RetireLeases(s, tokens).(sessions := s.sessions.Remove(tokens)), s.ambiguous.Remove(tokens));
    CutKeeps(s.graph, dying, dying);
    CutGuardsKeep(s.graph, s.guards, dying);
    hide GraphInv, GuardsInv, LeasesInv, LeaseGuardsInv, OwnersInv, SessionsInv, RotationsInv, OrderedMap.Valid, OrderedMap.Remove;
    assert q.graph.Keys == s.graph.Keys;
  }

  lemma CutGuardsKeep(graph: Graph, guards: OrderedMap<TokenGuard>, dying: set<TokenGuard>)
    requires GuardsInv(graph, guards)
    ensures GuardsInv(Cut(graph, dying, dying), guards)
  {
    hide OrderedMap.Valid;
  }

  lemma LinkKeeps(graph: Graph, guards: OrderedMap<TokenGuard>, g: TokenGuard, h: TokenGuard)
    requires GraphInv(graph) && GuardsInv(graph, guards)
    requires g in graph && h in graph && !graph[g].dead && !graph[h].dead
    ensures GraphInv(Link(graph, g, h)) && GuardsInv(Link(graph, g, h), guards)
    ensures Ages(graph, Link(graph, g, h)) && Link(graph, g, h).Keys == graph.Keys
  {
    LinkGraphKeeps(graph, g, h);
    hide OrderedMap.Valid, Link, GraphInv;
    LinkedEdges(graph, g, h);
  }

  lemma LinkGraphKeeps(graph: Graph, g: TokenGuard, h: TokenGuard)
    requires GraphInv(graph) && g in graph && h in graph && !graph[g].dead && !graph[h].dead
    ensures GraphInv(Link(graph, g, h))
  {
    LinkedEdges(graph, g, h);
    var after := Link(graph, g, h);
    hide Link;
    forall x, y | x in after && y in after[x].succs ensures y in after && x in after[y].preds {
      assert y in graph[x].succs || (x == g && y == h);
    }
    forall x, y | x in after && y in after[x].preds ensures y in after && x in after[y].succs {
      assert y in graph[x].preds || (x == h && y == g);
    }
  }

  lemma LinkedEdges(graph: Graph, g: TokenGuard, h: TokenGuard)
    requires g in graph && h in graph
    ensures var after := Link(graph, g, h);
      && after.Keys == graph.Keys
      && (forall x :: x in graph ==>
            && after[x].dead == graph[x].dead
            && after[x].succs == graph[x].succs + (if x == g then {h} else {})
            && after[x].preds == graph[x].preds + (if x == h then {g} else {}))
  {
  }

  /** The new result gets its own lease, so no two results share one. */
  lemma OwnKeeps(owner: map<AuthenticatedResult, CookieLease>, leases: set<CookieLease>,
                 result: AuthenticatedResult, lease: CookieLease)
    requires OwnersInv(owner, leases) && lease !in leases && result !in owner
    requires lease.resultGuard.refreshToken == result.refreshToken
    ensures OwnersInv(owner[result := lease], leases + {lease})
  {
  }

  lemma MoreResultsKeep(s: State, results: set<AuthenticatedResult>)
    requires SessionsInv(s.sessions, s.owner.Keys) && s.owner.Keys <= results
    requires RotationsInv(s.inFlight, s.rotations, s.graph.Keys, s.owner.Keys)
    ensures SessionsInv(s.sessions, results) && RotationsInv(s.inFlight, s.rotations, s.graph.Keys, results)
  {
    hide OrderedMap.Valid;
  }

  lemma LinkResultKeeps(s: State, token: string, g: TokenGuard, h: TokenGuard)
    requires Inv(s) && g in s.graph && h in s.graph && !s.graph[g].dead && !s.graph[h].dead
    ensures Inv(LinkResult(s, token, g, h)) && Ages(s.graph, LinkResult(s, token, g, h).graph)
    ensures var q := LinkResult(s, token, g, h);
      q == s.(graph := q.graph, ambiguous := q.ambiguous) && q.graph.Keys == s.graph.Keys
  {
    LinkKeeps(s.graph, s.guards, g, h);
    s.ambiguous.RemoveValid({token});
    hide GraphInv, GuardsInv, LeasesInv, LeaseGuardsInv, OwnersInv, SessionsInv, RotationsInv, OrderedMap.Valid, OrderedMap.Remove, Link;
  }

  lemma LeaseResultKeeps(s: State, token: string, result: AuthenticatedResult, lease: CookieLease)
    requires Inv(s) && result !in s.owner && lease !in s.active
    requires lease.requestGuard in s.graph && lease.resultGuard in s.graph
    requires lease.resultGuard.refreshToken == result.refreshToken
    ensures var q := LeaseResult(s, token, result, lease);
      Inv(q) && q.owner == s.owner[result := lease] && q == s.(leases := q.leases, active := q.active, owner := q.owner)
  {
    hide GraphInv, GuardsInv, OwnersInv, SessionsInv, RotationsInv, OrderedMap.Valid;
    RetireStateKeeps(s, {token});
    var retired := RetireLeases(s, {token});
    var owned := retired.(active := retired.active[lease := true], owner := retired.owner[result := lease]);
    CacheLeaseKeeps(owned, lease, retired);
    OwnKeeps(retired.owner, retired.active.Keys, result, lease);
    MoreResultsKeep(retired, owned.owner.Keys);
    assert owned.active.Keys == retired.active.Keys + {lease};
    hide LeasesInv, CacheLease;
  }

  lemma InstallKeeps(s: State, i: nat, result: AuthenticatedResult, g: TokenGuard, h: TokenGuard,
                     lease: CookieLease, now: int, later: int)
    requires Inv(s) && i in s.rotations
    requires g in s.graph && h in s.graph && !s.graph[g].dead && !s.graph[h].dead && h.refreshToken == result.refreshToken
    requires result !in s.owner && lease !in s.active && lease.requestGuard == g && lease.resultGuard == h
    ensures var q := Install(s, i, result, g, h, lease, now, later);
      Inv(q) && Ages(s.graph, q.graph)
  {
    hide Inv, Ages, LinkResult, LeaseResult, OrderedMap.Put, OrderedMap.Trim;
    var token := s.rotations[i].token;
    LinkResultKeeps(s, token, g, h);
    var linked := LinkResult(s, token, g, h);
    LeaseResultKeeps(linked, token, result, lease);
    var leased := LeaseResult(linked, token, result, lease);
    CacheKeeps(leased, token, Stale(now + s.config.oldTokenGrace));
    CacheKeeps(Cache(leased, token, Stale(now + s.config.oldTokenGrace)), result.refreshToken,
               Live(later + s.config.sessionCacheTtl, result));
    SettleKeeps(CacheResult(leased, token, result, now, later), i, SignedIn(result));
  }
}
