// What each step of the session-refresh coordinator does, said of the tables it
// leaves: who is answered what, which entries are made with which times, which
// guards are linked and which evicted; and how far a logout reaches.
module SessionRefreshEffects {
  import opened InsertionOrderedMap
  import opened SessionRefreshState
  import opened SessionRefreshProofs
  import opened SessionRefreshTheorems

  // ---------------------------------------------------------------- bounded queues

  function Largest(a: int, b: int): int { if a >= b then a else b }

  /** The last `n` of a sequence. */
  function Newest(s: seq<string>, n: int): seq<string>
    requires n >= 0
  {
    if |s| <= n then s else s[|s| - n..]
  }

  /** `key` is now the newest entry, with this value; of the others the oldest are gone if there were too many. */
  ghost predicate Renewed<V>(before: OrderedMap<V>, after: OrderedMap<V>, key: string, value: V, limit: int)
    requires limit >= 1
  {
    && after.order == Newest(Minus(before.order, {key}) + [key], limit) && after.Valid()
    && key in after.at && after.at[key] == value
    && forall k :: k in after.at && k != key ==> k in before.at && after.at[k] == before.at[k]
  }

  lemma PutTrimRenews<V>(m: OrderedMap<V>, key: string, value: V, limit: nat)
    requires m.Valid() && limit >= 1
    ensures Renewed(m, m.Put(key, value).Trim(limit), key, value, limit)
  {
    hide Minus, Distinct, OrderedMap.Valid, OrderedMap.Trim;
    m.PutTrim(key, value, limit);
    m.PutValid(key, value);
    m.Put(key, value).TrimValid(limit);
  }

  /** Exactly the entries under these keys are gone; the others keep their values and their order. */
  ghost predicate Without<V>(before: OrderedMap<V>, after: OrderedMap<V>, gone: set<string>) {
    && after.order == Minus(before.order, gone)
    && (forall k :: k in after.at <==> k in before.at && k !in gone) && (forall k :: k in after.at ==> after.at[k] == before.at[k])
  }

  // ---------------------------------------------------------------- settling

  /** Rotation `i` is settled with this outcome, and no other rotation is touched. */
  ghost predicate SettledAs(s: State, t: State, i: nat, outcome: Outcome) {
    && i in s.rotations && t.rotations == s.rotations[i := s.rotations[i].(phase := Settled(outcome))] && t.inFlight == s.inFlight
  }

  /** The token of rotation `i` is quarantined: an ambiguous session, and a record of it for longer. */
  ghost predicate Quarantined(s: State, t: State, token: string, now: int, later: int) {
    var limit := Largest(1, s.config.maxCacheEntries);
    && Renewed(s.ambiguous, t.ambiguous, token, now + s.config.ambiguityHistoryTtl, limit)
    && Renewed(s.sessions, t.sessions, token, Ambiguous(later + s.config.ambiguousTokenGrace), limit)
    && t == s.(ambiguous := t.ambiguous, sessions := t.sessions, rotations := t.rotations)
  }

  lemma QuarantineFields(s: State, token: string, now: int, later: int)
    ensures var q, limit := Quarantine(s, token, now, later), s.config.CacheLimit();
      && q.ambiguous == s.ambiguous.Put(token, now + s.config.ambiguityHistoryTtl).Trim(limit)
      && q.sessions == s.sessions.Put(token, Ambiguous(later + s.config.ambiguousTokenGrace)).Trim(limit)
  {
    hide OrderedMap.Put, OrderedMap.Trim;
  }

  lemma QuarantineIs(s: State, token: string, now: int, later: int)
    requires Inv(s)
    ensures Quarantined(s, Quarantine(s, token, now, later), token, now, later)
  {
    hide Inv, Renewed, Quarantine, QuarantineKnown, LimitsInv, OrderedMap.Put, OrderedMap.Trim, OrderedMap.Valid;
    TablesValid(s);
    QuarantineFrame(s, token, now, later);
    QuarantineFields(s, token, now, later);
    PutTrimRenews(s.ambiguous, token, now + s.config.ambiguityHistoryTtl, s.config.CacheLimit());
    PutTrimRenews(s.sessions, token, Ambiguous(later + s.config.ambiguousTokenGrace), s.config.CacheLimit());
  }

  /** An upstream call that failed or timed out: the user is neither signed out nor in, and the token is quarantined. */
  lemma Rejected(s: State, i: nat, now: int, later: int)
    requires Inv(s) && Enabled(s, Reject(i, now, later))
    ensures var t, r := Step(s, Reject(i, now, later)), s.rotations[i];
      if Dead(s, r.guard) then SettledAs(s, t, i, Unauthorized) && t == s.(rotations := t.rotations)
      else SettledAs(s, t, i, Unavailable) && Quarantined(s, t, r.token, now, later)
  {
    QuarantineIs(s, s.rotations[i].token, now, later);
    hide Inv, Renewed, Quarantine;
  }

  /** A body without tokens likewise. */
  lemma BadBodied(s: State, i: nat, now: int, later: int)
    requires Inv(s) && Enabled(s, BadBody(i, now, later))
    ensures var t := Step(s, BadBody(i, now, later));
      SettledAs(s, t, i, Unavailable) && Quarantined(s, t, s.rotations[i].token, now, later)
  {
    QuarantineIs(s, s.rotations[i].token, now, later);
    hide Inv, Renewed, Quarantine;
  }

  // ---------------------------------------------------------------- the response

  /** Whether an ambiguity record of the token is still kept. */
  predicate Remembered(s: State, token: string, now: int) { token in s.ambiguous.at && now < s.ambiguous.at[token] }

  lemma RefusedFields(s: State, i: nat, now: int, later: int)
    requires i in s.rotations
    ensures var t, token := RefusedStep(s, i, now, later), s.rotations[i].token;
      if Remembered(s, token, now) then
        var end := s.ambiguous.at[token];
        && t.ambiguous == s.ambiguous.Put(token, end)
        && t.sessions == s.sessions.Put(token, Ambiguous(Min(later + s.config.ambiguousTokenGrace, end))).Trim(s.config.CacheLimit())
        && SettledAs(s, t, i, Unavailable)
        && t == s.(ambiguous := t.ambiguous, sessions := t.sessions, rotations := t.rotations)
      else
        var retired := RetireLeases(s, {token});
        && t.ambiguous == s.ambiguous.Remove({token}) && t.leases == retired.leases && t.active == retired.active
        && SettledAs(s, t, i, Unauthorized)
        && t == s.(ambiguous := t.ambiguous, leases := t.leases, active := t.active, rotations := t.rotations)
  {
    hide OrderedMap.Put, OrderedMap.Trim, OrderedMap.Remove;
  }

  lemma RefusedIs(s: State, i: nat, now: int, later: int)
    requires i in s.rotations && !Dead(s, s.rotations[i].guard)
    ensures RespondStep(s, i, Denied401, now, later) == RefusedStep(s, i, now, later)
  {
    hide RefusedStep;
  }

  /** Upstream refused a token whose last rotation was lost: nobody is signed out, and the record keeps its end. */
  lemma RefusalDoubted(s: State, i: nat, now: int, later: int)
    requires Inv(s) && Enabled(s, Respond(i, Denied401, now, later))
    requires !Dead(s, s.rotations[i].guard) && Remembered(s, s.rotations[i].token, now)
    ensures var t, token := Step(s, Respond(i, Denied401, now, later)), s.rotations[i].token;
      var end := s.ambiguous.at[token];
      && SettledAs(s, t, i, Unavailable) && t.ambiguous.at == s.ambiguous.at && t.ambiguous.order == Minus(s.ambiguous.order, {token}) + [token]
      && Renewed(s.sessions, t.sessions, token,
                 Ambiguous(if later + s.config.ambiguousTokenGrace <= end then later + s.config.ambiguousTokenGrace else end),
                 Largest(1, s.config.maxCacheEntries))
      && t == s.(ambiguous := t.ambiguous, sessions := t.sessions, rotations := t.rotations)
  {
    TablesValid(s);
    var token := s.rotations[i].token;
    var end := s.ambiguous.at[token];
    RefusedIs(s, i, now, later);
    RefusedFields(s, i, now, later);
    assert Step(s, Respond(i, Denied401, now, later)) == RespondStep(s, i, Denied401, now, later);
    hide Inv, Renewed, OrderedMap.Trim, OrderedMap.Valid, RefusedStep, RespondStep, Step, SettledAs;
    PutTrimRenews(s.sessions, token, Ambiguous(Min(later + s.config.ambiguousTokenGrace, end)), s.config.CacheLimit());
    assert s.ambiguous.Put(token, end).at == s.ambiguous.at;
  }

  lemma RemoveIs<V>(m: OrderedMap<V>, gone: set<string>)
    ensures Without(m, m.Remove(gone), gone)
  {
  }

  /** Upstream refused a token without such a record: the user is signed out, and the lease of the token is retired. */
  lemma RefusalBelieved(s: State, i: nat, now: int, later: int)
    requires Inv(s) && Enabled(s, Respond(i, Denied401, now, later))
    requires !Dead(s, s.rotations[i].guard) && !Remembered(s, s.rotations[i].token, now)
    ensures var t, token := Step(s, Respond(i, Denied401, now, later)), s.rotations[i].token;
      && SettledAs(s, t, i, Unauthorized) && Without(s.ambiguous, t.ambiguous, {token}) && Without(s.leases, t.leases, {token})
      && t.active.Keys == s.active.Keys
      && (forall l :: l in s.active ==> (t.active[l] <==> s.active[l] && l.resultGuard.refreshToken != token))
      && t == s.(ambiguous := t.ambiguous, leases := t.leases, active := t.active, rotations := t.rotations)
  {
    var token := s.rotations[i].token;
    assert LeasesInv(s.leases, s.active);
    RetireKeeps(s.leases, s.active, s, {token});
    RemoveIs(s.leases, {token});
    RemoveIs(s.ambiguous, {token});
    RefusedIs(s, i, now, later);
    RefusedFields(s, i, now, later);
    assert RetireLeases(s, {token}).leases == s.leases.Remove({token});
    assert Step(s, Respond(i, Denied401, now, later)) == RespondStep(s, i, Denied401, now, later);
    hide Inv, LeasesInv, OrderedMap.Remove, Without, RefusedStep, RespondStep, Step, SettledAs, RetireLeases;
  }

  /** Any other failure leaves everything as it was; so does a good response, until its body is there. */
  lemma OtherwiseResponded(s: State, i: nat, reply: Reply, now: int, later: int)
    requires Inv(s) && Enabled(s, Respond(i, reply, now, later)) && (reply.Denied401? ==> Dead(s, s.rotations[i].guard))
    ensures var t, r := Step(s, Respond(i, reply, now, later)), s.rotations[i];
      && t == s.(rotations := t.rotations)
      && if Dead(s, r.guard) then SettledAs(s, t, i, Unauthorized)
         else if reply.OtherFailure? then SettledAs(s, t, i, Unavailable)
         else t.rotations == s.rotations[i := Rotation(r.token, r.guard, AwaitingBody)]
  {
    hide Inv;
  }

  // ---------------------------------------------------------------- the end of a rotation, and statistics

  /** The token may be rotated again. */
  lemma Finished(s: State, i: nat)
    requires Inv(s) && Enabled(s, Finish(i))
    ensures var t := Step(s, Finish(i));
      && t == s.(inFlight := t.inFlight, rotations := t.rotations)
      && (forall j :: j in t.rotations <==> j in s.rotations && j != i) && (forall j :: j in t.rotations ==> t.rotations[j] == s.rotations[j])
      && (forall k :: k in t.inFlight <==> k in s.inFlight && s.inFlight[k] != i)
      && (forall k :: k in t.inFlight ==> t.inFlight[k] == s.inFlight[k])
  {
    hide GraphInv, GuardsInv, LeasesInv, LeaseGuardsInv, OwnersInv, SessionsInv, OrderedMap.Valid;
  }

  /** What has not expired stays. */
  ghost predicate Pruned(s: State, t: State, now: int) {
    && Without(s.sessions, t.sessions, set k | k in s.sessions.at && s.sessions.at[k].expiresAt <= now)
    && Without(s.ambiguous, t.ambiguous, set k | k in s.ambiguous.at && s.ambiguous.at[k] <= now)
  }

  lemma PruneIs(s: State, now: int)
    ensures var t := PruneExpired(s, now); Pruned(s, t, now) && t == s.(sessions := t.sessions, ambiguous := t.ambiguous)
  {
    hide Minus;
  }

  // ---------------------------------------------------------------- looking up a guard

  /** The guards that were stored and are not any more. */
  function Evicted(before: OrderedMap<TokenGuard>, after: OrderedMap<TokenGuard>): set<TokenGuard> {
    set k | k in before.at && k !in after.at :: before.at[k]
  }

  /** Guards in `gone` are dead and have no edges; the others are as they were, but for their edges to those. */
  ghost predicate CutOff(before: Graph, after: Graph, gone: set<TokenGuard>) {
    && before.Keys <= after.Keys
    && forall g :: g in before ==>
      after[g] == if g in gone then Node(true, {}, {}) else Node(before[g].dead, before[g].preds - gone, before[g].succs - gone)
  }

  lemma CutOne(before: Graph, oldest: TokenGuard, after: Graph, gone: set<TokenGuard>, all: set<TokenGuard>)
    requires CutOff(Cut(before, {oldest}, {oldest}), after, gone) && all == gone + {oldest}
    ensures CutOff(before, after, all)
  {
  }

  lemma {:induction false} EvictionIs(graph: Graph, guards: OrderedMap<TokenGuard>, limit: nat)
    requires GraphInv(graph) && GuardsInv(graph, guards)
    ensures var (after, kept) := EvictGuards(graph, guards, limit); CutOff(graph, after, Evicted(guards, kept)) && after.Keys == graph.Keys
    decreases |guards.order|
  {
    EvictGuardsKeeps(graph, guards, limit);
    var (after, kept) := EvictGuards(graph, guards, limit);
    if |guards.order| <= limit {
      assert Evicted(guards, kept) == {};
    } else {
      var oldest := guards.at[guards.order[0]];
      CutKeeps(graph, {oldest}, {oldest});
      EvictOneKeeps(graph, guards);
      EvictionIs(Cut(graph, {oldest}, {oldest}), guards.DropOldest(), limit);
      EvictedFirst(graph, guards, limit);
      hide GraphInv, GuardsInv, Cut, Evicted, OrderedMap.DropOldest;
      CutOne(graph, oldest, after, Evicted(guards.DropOldest(), kept), Evicted(guards, kept));
    }
  }

  lemma EvictedFirst(graph: Graph, guards: OrderedMap<TokenGuard>, limit: nat)
    requires GuardsInv(graph, guards) && |guards.order| > limit
    ensures guards.order[0] in guards.at
    ensures var kept, oldest := guards.Trim(limit), guards.order[0];
      Evicted(guards, kept) == Evicted(guards.DropOldest(), kept) + {guards.at[oldest]}
  {
    guards.DropOldestValid();
    guards.DropOldest().TrimValid(limit);
    assert guards.order[0] in guards.order && guards.Trim(limit) == guards.DropOldest().Trim(limit);
    assert guards.order[0] !in guards.DropOldest().at;
    hide GuardsInv;
  }

  /** The token's guard is the newest one in the map; if it is new, the oldest may have gone. */
  ghost predicate NewestGuard(s: State, guards: OrderedMap<TokenGuard>, token: string, made: TokenGuard) {
    if token in s.guards.at then guards.at == s.guards.at && guards.order == Minus(s.guards.order, {token}) + [token]
    else Renewed(s.guards, guards, token, made, Largest(2, 2 * Largest(1, s.config.maxCacheEntries)))
  }

  /** The token's guard is fetched: it was there, or it is new, has no edges, and what was evicted for it is dead and cut off. */
  ghost predicate Fetched(s: State, graph: Graph, guards: OrderedMap<TokenGuard>, token: string, made: TokenGuard) {
    && NewestGuard(s, guards, token, made)
    && if token in s.guards.at then graph == s.graph
       else CutOff(s.graph, graph, Evicted(s.guards, guards)) && graph.Keys == s.graph.Keys + {made} && graph[made] == Node(false, {}, {})
  }

  lemma EvictedAlike(before: OrderedMap<TokenGuard>, put: OrderedMap<TokenGuard>, after: OrderedMap<TokenGuard>, token: string)
    requires token !in before.at && token in after.at && put.at == before.at[token := after.at[token]]
    ensures Evicted(put, after) == Evicted(before, after)
  {
  }

  lemma CutOffMore(before: Graph, made: TokenGuard, after: Graph, gone: set<TokenGuard>)
    requires made !in before && made !in gone && CutOff(before[made := Node(false, {}, {})], after, gone)
    ensures CutOff(before, after, gone) && after[made] == Node(false, {}, {})
  {
  }

  lemma FetchNew(s: State, token: string, made: TokenGuard)
    requires Inv(s) && made !in s.graph && made.refreshToken == token && token !in s.guards.at
    ensures var q := GetGuard(s, token, made); Fetched(s, q.graph, q.guards, token, made)
  {
    hide EvictGuards, Minus, Distinct, OrderedMap.Valid, OrderedMap.Trim, Renewed, CutOff, Evicted, LeasesInv, OwnersInv, SessionsInv;
    hide RotationsInv, GuardsInv, GraphInv;
    TablesValid(s);
    var more, put, limit := s.graph[made := Node(false, {}, {})], s.guards.Put(token, made), s.config.GuardLimit();
    InsertGuardKeeps(s.graph, s.guards, made);
    EvictGuardsKeeps(more, put, limit);
    EvictionIs(more, put, limit);
    PutTrimRenews(s.guards, token, made, limit);
    var (graph, kept) := EvictGuards(more, put, limit);
    assert token in kept.at && kept.at[token] == made by { RenewedHas(s.guards, kept, token, made, limit); }
    EvictedAlike(s.guards, put, kept, token);
    assert made !in Evicted(s.guards, kept) by { EvictedOld(s.graph, s.guards, kept, made); }
    CutOffMore(s.graph, made, graph, Evicted(s.guards, kept));
  }

  lemma RenewedHas<V>(before: OrderedMap<V>, after: OrderedMap<V>, key: string, value: V, limit: int)
    requires limit >= 1 && Renewed(before, after, key, value, limit)
    ensures key in after.at && after.at[key] == value
  {
  }

  lemma EvictedOld(graph: Graph, before: OrderedMap<TokenGuard>, after: OrderedMap<TokenGuard>, made: TokenGuard)
    requires GuardsInv(graph, before) && made !in graph
    ensures made !in Evicted(before, after)
  {
  }

  lemma FetchIs(s: State, token: string, made: TokenGuard)
    requires Inv(s) && made !in s.graph && made.refreshToken == token
    ensures var q := GetGuard(s, token, made); Fetched(s, q.graph, q.guards, token, made)
  {
    if token in s.guards.at {
      hide Minus;
      assert s.guards.Put(token, s.guards.at[token]).at == s.guards.at;
    } else {
      FetchNew(s, token, made);
    }
  }

  // ---------------------------------------------------------------- a refresh

  predicate KnownDead(s: State, token: string) { token in s.guards.at && Dead(s, s.guards.at[token]) }

  predicate Unexpired(s: State, token: string, now: int) { token in s.sessions.at && now < s.sessions.at[token].expiresAt }

  /** Who is answered what: a dead guard comes first, then an unexpired session, then a rotation in flight. */
  lemma RefreshReplies(s: State, token: string, now: int, made: TokenGuard, i: nat)
    requires Inv(s) && Enabled(s, Refresh(token, now, made, i))
    ensures RefreshReplyOf(s, token, now, made, i) ==
      if KnownDead(s, token) then Answer(Unauthorized)
      else if Unexpired(s, token, now) then
        Answer(if s.sessions.at[token].Live? then SignedIn(s.sessions.at[token].result) else Unavailable)
      else if token in s.inFlight then Join(s.inFlight[token])
      else Start(i)
  {
    var p := PruneExpired(s, now);
    PruneKeeps(s, now);
    GetGuardKeeps(p, token, made);
    PrunedSession(s, token, now);
    hide Inv, PruneExpired, GetGuard, Ages;
  }

  lemma PrunedSession(s: State, token: string, now: int)
    ensures var p := PruneExpired(s, now);
      (token in p.sessions.at <==> Unexpired(s, token, now)) && (token in p.sessions.at ==> p.sessions.at[token] == s.sessions.at[token])
  {
    hide Minus;
  }

  /** `key` is the newest entry now, if it is there; nothing else changes. */
  ghost predicate Touched<V>(before: OrderedMap<V>, after: OrderedMap<V>, key: string) {
    after.at == before.at && after.order == if key in before.at then Minus(before.order, {key}) + [key] else before.order
  }

  /** What a refresh leaves in the tables, given the pruned tables `p`. */
  ghost predicate Looked(p: State, t: State, token: string, i: nat, reply: RefreshReply) {
    && (if reply.Answer? && reply.outcome.SignedIn? then Touched(p.sessions, t.sessions, token) && Touched(p.leases, t.leases, token)
        else t.sessions == p.sessions && t.leases == p.leases)
    && (if reply.Start? then
          && token in t.guards.at && t.inFlight == p.inFlight[token := i]
          && t.rotations == p.rotations[i := Rotation(token, t.guards.at[token], AwaitingResponse)]
        else t.inFlight == p.inFlight && t.rotations == p.rotations)
  }

  lemma LookedUp(q: State, token: string, guard: TokenGuard, i: nat)
    requires token in q.guards.at && q.guards.at[token] == guard
    ensures var t := AfterLookup(q, token, guard, i);
      && Looked(q, t, token, i, Lookup(q, token, guard, i))
      && t == q.(sessions := t.sessions, leases := t.leases, inFlight := t.inFlight, rotations := t.rotations)
  {
    hide Minus;
    if token in q.sessions.at { assert q.sessions.Put(token, q.sessions.at[token]).at == q.sessions.at; }
    if token in q.leases.at { assert q.leases.Put(token, q.leases.at[token]).at == q.leases.at; }
  }

  /** Expired entries go, the token's guard is fetched, and the session, the lease and the rotation are as the reply says. */
  lemma Refreshed(s: State, token: string, now: int, made: TokenGuard, i: nat)
    requires Inv(s) && Enabled(s, Refresh(token, now, made, i))
    ensures var t, reply := Step(s, Refresh(token, now, made, i)), RefreshReplyOf(s, token, now, made, i);
      && Fetched(s, t.graph, t.guards, token, made)
      && (exists p :: Pruned(s, p, now) && p == s.(sessions := p.sessions, ambiguous := p.ambiguous)
            && Looked(p, t, token, i, reply) && t.ambiguous == p.ambiguous)
      && t.active == s.active && t.owner == s.owner && t.config == s.config
  {
    var p := PruneExpired(s, now);
    var q, guard := GetGuard(p, token, made), GuardOf(p, token, made);
    PruneKeeps(s, now);
    PruneIs(s, now);
    GetGuardKeeps(p, token, made);
    FetchIs(p, token, made);
    LookedUp(q, token, guard, i);
    assert Step(s, Refresh(token, now, made, i)) == AfterLookup(q, token, guard, i);
    FetchedFrom(s, p, q.graph, q.guards, token, made);
    hide Inv, PruneExpired, GetGuard, Ages, Step, AfterLookup, Lookup, Touched, Fetched, Pruned;
    var t := AfterLookup(q, token, guard, i);
    assert Looked(p, t, token, i, Lookup(q, token, guard, i));
  }

  lemma FetchedFrom(s: State, p: State, graph: Graph, guards: OrderedMap<TokenGuard>, token: string, made: TokenGuard)
    requires p == s.(sessions := p.sessions, ambiguous := p.ambiguous) && Fetched(p, graph, guards, token, made)
    ensures Fetched(s, graph, guards, token, made)
  {
    hide Renewed, CutOff;
  }

  // ---------------------------------------------------------------- the end of a rotation that brought tokens

  /** One edge is new: from `g` to its successor `h`. */
  ghost predicate Linked(before: Graph, after: Graph, g: TokenGuard, h: TokenGuard) {
    && after.Keys == before.Keys
    && forall x :: x in before ==>
      && after[x].dead == before[x].dead
      && after[x].succs == before[x].succs + (if x == g then {h} else {})
      && after[x].preds == before[x].preds + (if x == h then {g} else {})
  }

  /** The guard of the new token: the stored one, or a new one. */
  function ResultGuard(s: State, result: AuthenticatedResult, made: TokenGuard): TokenGuard {
    if result.refreshToken in s.guards.at then s.guards.at[result.refreshToken] else made
  }

  /** Two entries are renewed, one after the other; the second counts if they have the same key. */
  ghost predicate RenewedTwice<V>(before: OrderedMap<V>, after: OrderedMap<V>, key: string, value: V, last: string, newer: V, limit: int)
    requires limit >= 1
  {
    && after.order == Newest(Minus(Newest(Minus(before.order, {key}) + [key], limit), {last}) + [last], limit) && after.Valid()
    && last in after.at && after.at[last] == newer
    && forall k :: k in after.at && k != last ==> if k == key then after.at[k] == value else k in before.at && after.at[k] == before.at[k]
  }

  lemma RenewedAgain<V>(before: OrderedMap<V>, mid: OrderedMap<V>, after: OrderedMap<V>, key: string, value: V, last: string, newer: V, limit: int)
    requires limit >= 1 && Renewed(before, mid, key, value, limit) && Renewed(mid, after, last, newer, limit)
    ensures RenewedTwice(before, after, key, value, last, newer, limit)
  {
    hide Minus, Newest, OrderedMap.Valid;
  }

  /** An entry is renewed after those under `gone` were removed. */
  ghost predicate RenewedWithout<V>(before: OrderedMap<V>, after: OrderedMap<V>, gone: set<string>, key: string, value: V, limit: int)
    requires limit >= 1
  {
    && after.order == Newest(Minus(Minus(before.order, gone), {key}) + [key], limit) && after.Valid()
    && key in after.at && after.at[key] == value
    && forall k :: k in after.at && k != key ==> k in before.at && k !in gone && after.at[k] == before.at[k]
  }

  lemma RemovedRenewed<V>(before: OrderedMap<V>, mid: OrderedMap<V>, after: OrderedMap<V>, gone: set<string>, key: string, value: V, limit: int)
    requires limit >= 1 && Without(before, mid, gone) && Renewed(mid, after, key, value, limit)
    ensures RenewedWithout(before, after, gone, key, value, limit)
  {
    hide Minus, Newest, OrderedMap.Valid;
  }

  /** The old token is stale for a while, the new one signs in; the old token's lease goes, and the new one is stored. */
  ghost predicate Installed(s: State, t: State, token: string, result: AuthenticatedResult, lease: CookieLease, now: int, later: int) {
    var limit := Largest(1, s.config.maxCacheEntries);
    && RenewedTwice(s.sessions, t.sessions, token, Stale(now + s.config.oldTokenGrace),
                    result.refreshToken, Live(later + s.config.sessionCacheTtl, result), limit)
    && RenewedWithout(s.leases, t.leases, {token}, result.refreshToken, lease, limit)
    && Without(s.ambiguous, t.ambiguous, {token}) && t.owner == s.owner[result := lease]
  }

  lemma CacheResultIs(s: State, token: string, result: AuthenticatedResult, now: int, later: int)
    requires s.sessions.Valid()
    ensures var t, limit := CacheResult(s, token, result, now, later), s.config.CacheLimit();
      && t == s.(sessions := t.sessions)
      && RenewedTwice(s.sessions, t.sessions, token, Stale(now + s.config.oldTokenGrace),
                      result.refreshToken, Live(later + s.config.sessionCacheTtl, result), limit)
  {
    hide Renewed, RenewedTwice, OrderedMap.Put, OrderedMap.Trim, OrderedMap.Valid;
    var stale, live, limit := Stale(now + s.config.oldTokenGrace), Live(later + s.config.sessionCacheTtl, result), s.config.CacheLimit();
    PutTrimRenews(s.sessions, token, stale, limit);
    var mid := s.sessions.Put(token, stale).Trim(limit);
    assert mid.Valid() by { RenewedValid(s.sessions, mid, token, stale, limit); }
    PutTrimRenews(mid, result.refreshToken, live, limit);
    RenewedAgain(s.sessions, mid, mid.Put(result.refreshToken, live).Trim(limit), token, stale, result.refreshToken, live, limit);
  }

  lemma RenewedValid<V>(before: OrderedMap<V>, after: OrderedMap<V>, key: string, value: V, limit: int)
    requires limit >= 1 && Renewed(before, after, key, value, limit)
    ensures after.Valid()
  {
  }

  lemma LeaseResultIs(s: State, token: string, result: AuthenticatedResult, lease: CookieLease)
    requires Inv(s) && result !in s.owner && lease !in s.active
    requires lease.requestGuard in s.graph && lease.resultGuard in s.graph && lease.resultGuard.refreshToken == result.refreshToken
    ensures var t, limit := LeaseResult(s, token, result, lease), s.config.CacheLimit();
      && t == s.(leases := t.leases, active := t.active, owner := s.owner[result := lease])
      && RenewedWithout(s.leases, t.leases, {token}, result.refreshToken, lease, limit)
  {
    LeaseResultKeeps(s, token, result, lease);
    LeaseResultLeases(s, token, result, lease);
    RemoveIs(s.leases, {token});
    assert s.leases.Valid() by { TablesValid(s); }
    hide Inv, Renewed, RenewedWithout, Without, LeaseResult, OrderedMap.Put, OrderedMap.Trim, OrderedMap.Valid;
    var mid, limit := s.leases.Remove({token}), s.config.CacheLimit();
    s.leases.RemoveValid({token});
    PutTrimRenews(mid, result.refreshToken, lease, limit);
    RemovedRenewed(s.leases, mid, mid.Put(result.refreshToken, lease).Trim(limit), {token}, result.refreshToken, lease, limit);
  }

  lemma LeaseResultLeases(s: State, token: string, result: AuthenticatedResult, lease: CookieLease)
    requires Inv(s) && result !in s.owner && lease !in s.active
    requires lease.requestGuard in s.graph && lease.resultGuard in s.graph && lease.resultGuard.refreshToken == result.refreshToken
    ensures LeaseResult(s, token, result, lease).leases
        == s.leases.Remove({token}).Put(result.refreshToken, lease).Trim(s.config.CacheLimit())
  {
    hide GraphInv, GuardsInv, OwnersInv, SessionsInv, RotationsInv, OrderedMap.Valid, OrderedMap.Put, OrderedMap.Trim, OrderedMap.Remove;
    hide EvictLeases, LeaseGuardsInv;
    RetireStateKeeps(s, {token});
    var retired := RetireLeases(s, {token});
    var owned := retired.(active := retired.active[lease := true], owner := retired.owner[result := lease]);
    DisplaceKeeps(owned, lease, retired);
    EvictLeasesKeeps(owned.leases.Put(result.refreshToken, lease), Displace(owned, lease), s.config.CacheLimit());
  }

  lemma LinkResultIs(s: State, token: string, g: TokenGuard, h: TokenGuard)
    requires g in s.graph && h in s.graph
    ensures var t := LinkResult(s, token, g, h);
      t == s.(graph := t.graph, ambiguous := t.ambiguous) && Linked(s.graph, t.graph, g, h) && Without(s.ambiguous, t.ambiguous, {token})
  {
    LinkedEdges(s.graph, g, h);
    RemoveIs(s.ambiguous, {token});
    hide Link, Without, OrderedMap.Remove;
  }

  /** What `rotate` leaves after its last check. */
  lemma InstallIs(s: State, i: nat, result: AuthenticatedResult, g: TokenGuard, h: TokenGuard, lease: CookieLease, now: int, later: int)
    requires Inv(s) && i in s.rotations && result !in s.owner && lease !in s.active
    requires g in s.graph && h in s.graph && !s.graph[g].dead && !s.graph[h].dead
    requires lease.requestGuard == g && lease.resultGuard == h && h.refreshToken == result.refreshToken
    ensures var t := Install(s, i, result, g, h, lease, now, later);
      && Linked(s.graph, t.graph, g, h) && t.guards == s.guards && t.config == s.config
      && SettledAs(s, t, i, SignedIn(result)) && Installed(s, t, s.rotations[i].token, result, lease, now, later)
  {
    hide Inv, Linked, Without, Renewed, RenewedTwice, RenewedWithout, LinkResult, LeaseResult, CacheResult;
    var token := s.rotations[i].token;
    LinkResultIs(s, token, g, h);
    LinkResultKeeps(s, token, g, h);
    var linked := LinkResult(s, token, g, h);
    LeaseResultIs(linked, token, result, lease);
    LeaseResultKeeps(linked, token, result, lease);
    var leased := LeaseResult(linked, token, result, lease);
    assert leased.sessions.Valid() by { TablesValid(leased); }
    CacheResultIs(leased, token, result, now, later);
  }

  /** What is left of a guard when those in `gone` were evicted; a new guard has no edges. */
  function Spared(before: Graph, gone: set<TokenGuard>, x: TokenGuard): Node {
    if x !in before then Node(false, {}, {})
    else if x in gone then Node(true, {}, {})
    else Node(before[x].dead, before[x].preds - gone, before[x].succs - gone)
  }

  /** The guards after a lookup: those evicted are dead and cut off, and if `linked`, `h` is a new successor of `g`. */
  ghost predicate GraphAfter(before: Graph, after: Graph, gone: set<TokenGuard>, linked: bool, g: TokenGuard, h: TokenGuard) {
    forall x :: x in after ==>
      var spared := Spared(before, gone, x);
      && after[x].dead == spared.dead
      && after[x].succs == spared.succs + (if linked && x == g then {h} else {})
      && after[x].preds == spared.preds + (if linked && x == h then {g} else {})
  }

  lemma FetchedGraph(s: State, graph: Graph, guards: OrderedMap<TokenGuard>, token: string, made: TokenGuard, g: TokenGuard, h: TokenGuard)
    requires Fetched(s, graph, guards, token, made) && made !in s.graph && GraphInv(s.graph)
    ensures GraphAfter(s.graph, graph, Evicted(s.guards, guards), false, g, h)
  {
    hide Renewed, Minus;
    if token in s.guards.at { assert Evicted(s.guards, guards) == {}; }
  }

  lemma LinkedDead(before: Graph, after: Graph, g: TokenGuard, h: TokenGuard)
    requires Linked(before, after, g, h)
    ensures forall x :: x in before ==> x in after && after[x].dead == before[x].dead
  {
  }

  lemma LinkedGraph(before: Graph, mid: Graph, after: Graph, gone: set<TokenGuard>, g: TokenGuard, h: TokenGuard)
    requires GraphAfter(before, mid, gone, false, g, h) && Linked(mid, after, g, h)
    ensures GraphAfter(before, after, gone, true, g, h)
  {
  }

  /**
   * The end of a rotation that brought tokens.  The guard of the new token is fetched.  If it and the request's guard are
   * alive, the user is signed in, the new guard is a successor of the request's and nobody else's, and session, lease and
   * records are as installed; otherwise the user is not signed in, and nothing is.
   */
  lemma Rotated(s: State, i: nat, result: AuthenticatedResult, made: TokenGuard, lease: CookieLease, now: int, later: int)
    requires Inv(s) && Enabled(s, GoodBody(i, result, made, lease, now, later))
    ensures var t := Step(s, GoodBody(i, result, made, lease, now, later));
      var g, h := s.rotations[i].guard, ResultGuard(s, result, made);
      && g in t.graph && h in t.graph && NewestGuard(s, t.guards, result.refreshToken, made)
      && GraphAfter(s.graph, t.graph, Evicted(s.guards, t.guards), !Dead(t, g) && !Dead(t, h), g, h)
      && if Dead(t, g) || Dead(t, h) then
           SettledAs(s, t, i, Unauthorized) && t == s.(graph := t.graph, guards := t.guards, rotations := t.rotations)
         else SettledAs(s, t, i, SignedIn(result)) && Installed(s, t, s.rotations[i].token, result, lease, now, later)
  {
    var g, h := s.rotations[i].guard, ResultGuard(s, result, made);
    RotatedGuard(s, i, result, made, lease, now, later);
    hide Inv, GetGuard, Fetched, Installed, Install, OrderedMap.Valid, GraphAfter, Evicted, Linked, NewestGuard;
    var q := GetGuard(s, result.refreshToken, made);
    GetGuardKeeps(s, result.refreshToken, made);
    FetchIs(s, result.refreshToken, made);
    assert NewestGuard(s, q.guards, result.refreshToken, made) by { FetchedNewest(s, q.graph, q.guards, result.refreshToken, made); }
    assert GraphInv(s.graph) by { GraphHolds(s); }
    FetchedGraph(s, q.graph, q.guards, result.refreshToken, made, g, h);
    if !q.graph[g].dead && !q.graph[h].dead {
      InstallIs(q, i, result, g, h, lease, now, later);
      var t := Install(q, i, result, g, h, lease, now, later);
      InstalledFrom(s, q, t, s.rotations[i].token, result, lease, now, later);
      LinkedGraph(s.graph, q.graph, t.graph, Evicted(s.guards, q.guards), g, h);
      LinkedDead(q.graph, t.graph, g, h);
    }
  }

  lemma RotatedGuard(s: State, i: nat, result: AuthenticatedResult, made: TokenGuard, lease: CookieLease, now: int, later: int)
    requires Inv(s) && Enabled(s, GoodBody(i, result, made, lease, now, later))
    ensures s.rotations[i].guard in s.graph && ResultGuard(s, result, made) == GuardOf(s, result.refreshToken, made)
    ensures lease.requestGuard == s.rotations[i].guard && lease.resultGuard == GuardOf(s, result.refreshToken, made)
  {
  }

  lemma GraphHolds(s: State)
    requires Inv(s)
    ensures GraphInv(s.graph)
  {
  }

  lemma FetchedNewest(s: State, graph: Graph, guards: OrderedMap<TokenGuard>, token: string, made: TokenGuard)
    requires Fetched(s, graph, guards, token, made)
    ensures NewestGuard(s, guards, token, made)
  {
  }

  lemma InstalledFrom(s: State, q: State, t: State, token: string, result: AuthenticatedResult, lease: CookieLease, now: int, later: int)
    requires q == s.(graph := q.graph, guards := q.guards) && Installed(q, t, token, result, lease, now, later)
    ensures Installed(s, t, token, result, lease, now, later)
  {
    hide RenewedTwice, RenewedWithout, Without;
  }

  // ---------------------------------------------------------------- how far a logout reaches

  /** These steps leave guards and edges alone. */
  lemma GraphStays(s: State, e: Event)
    requires Inv(s) && Enabled(s, e) && (e.Reject? || e.Respond? || e.BadBody? || e.Finish? || e.GetStats?)
    ensures Step(s, e).graph == s.graph && Step(s, e).guards == s.guards
  {
    hide Inv, Quarantine, RespondStep, PruneExpired, SettledAs, Quarantined, Renewed, Without, Pruned;
    match e
    case Reject(i, now, later) => RejectedGraph(s, i, now, later);
    case BadBody(i, now, later) => QuarantineFrame(s, s.rotations[i].token, now, later);
    case Respond(i, reply, now, later) => RespondedGraph(s, i, reply, now, later);
    case Finish(i) =>
    case GetStats(now) => PruneIs(s, now);
  }

  lemma RejectedGraph(s: State, i: nat, now: int, later: int)
    requires i in s.rotations
    ensures RejectStep(s, i, now, later).graph == s.graph && RejectStep(s, i, now, later).guards == s.guards
  {
    hide Quarantine;
    QuarantineFrame(s, s.rotations[i].token, now, later);
  }

  lemma RespondedGraph(s: State, i: nat, reply: Reply, now: int, later: int)
    requires i in s.rotations
    ensures RespondStep(s, i, reply, now, later).graph == s.graph && RespondStep(s, i, reply, now, later).guards == s.guards
  {
    hide RefusedStep, SettledAs, RetireLeases;
    RefusedFields(s, i, now, later);
  }

  lemma InvalidateIs(s: State, token: string, made: TokenGuard)
    requires Enabled(s, Invalidate(token, made))
    ensures Step(s, Invalidate(token, made)) == InvalidateStep(s, token, made) && made !in s.graph && made.refreshToken == token
  {
    hide InvalidateStep;
  }

  lemma InvalidatedNode(s: State, token: string, made: TokenGuard, g: TokenGuard)
    requires Inv(s) && Enabled(s, Invalidate(token, made)) && g in GetGuard(s, token, made).graph
    ensures var q, t := GetGuard(s, token, made), Step(s, Invalidate(token, made)); var family := Family(q.graph, GuardOf(s, token, made));
      && g in t.graph && t.graph[g].dead == (q.graph[g].dead || g in family)
      && (g !in family ==> t.graph[g].succs == q.graph[g].succs - family)
  {
    hide Inv, GetGuard, Family, InvalidateStep, Step, Enabled, GuardOf;
    InvalidateIs(s, token, made);
    InvalidateKillsFamily(s, token, made, g);
  }

  lemma InvalidatedEdge(s: State, token: string, made: TokenGuard, g: TokenGuard, h: TokenGuard)
    requires Inv(s) && Enabled(s, Invalidate(token, made)) && g in s.graph && h in s.graph[g].succs && h in s.graph
    ensures var t := Step(s, Invalidate(token, made));
      g in t.graph && h in t.graph && (!Dead(t, g) && !Dead(t, h) ==> h in t.graph[g].succs)
  {
    assert made !in s.graph && made.refreshToken == token;
    hide Inv, GetGuard, Family, Fetched, Step, Enabled, GuardOf;
    var q := GetGuard(s, token, made);
    FetchIs(s, token, made);
    FetchedEdge(s, q.graph, q.guards, token, made, g, h);
    InvalidatedNode(s, token, made, g);
    InvalidatedNode(s, token, made, h);
  }

  lemma FetchedEdge(s: State, graph: Graph, guards: OrderedMap<TokenGuard>, token: string, made: TokenGuard, g: TokenGuard, h: TokenGuard)
    requires Fetched(s, graph, guards, token, made) && g in s.graph && h in s.graph[g].succs && h in s.graph
    ensures g in graph && h in graph && (!graph[g].dead && !graph[h].dead ==> h in graph[g].succs)
  {
    hide NewestGuard;
  }

  /** An edge between two guards stays while both are alive. */
  lemma EdgeStaysStep(s: State, e: Event, g: TokenGuard, h: TokenGuard)
    requires Inv(s) && Enabled(s, e) && g in s.graph && h in s.graph[g].succs
    ensures var t := Step(s, e); g in t.graph && h in t.graph && (!Dead(t, g) && !Dead(t, h) ==> h in t.graph[g].succs)
  {
    assert h in s.graph;
    StepKeeps(s, e);
    hide Inv, Step;
    match e
    case Refresh(token, now, made, i) =>
      Refreshed(s, token, now, made, i);
      FetchedEdge(s, Step(s, e).graph, Step(s, e).guards, token, made, g, h);
    case GoodBody(_, _, _, _, _, _) => RotatedEdge(s, e, g, h);
    case Invalidate(token, made) => InvalidatedEdge(s, token, made, g, h);
    case _ => GraphStays(s, e);
  }

  lemma RotatedEdge(s: State, e: Event, g: TokenGuard, h: TokenGuard)
    requires Inv(s) && Enabled(s, e) && e.GoodBody? && g in s.graph && h in s.graph[g].succs && h in s.graph
    ensures var t := Step(s, e); g in t.graph && h in t.graph && (!Dead(t, g) && !Dead(t, h) ==> h in t.graph[g].succs)
  {
    StepKeeps(s, e);
    Rotated(s, e.i, e.result, e.made, e.lease, e.now, e.later);
    var r, k := s.rotations[e.i].guard, ResultGuard(s, e.result, e.made);
    var t := Step(s, e);
    hide Inv, Step, Enabled, NewestGuard, Installed, SettledAs, Evicted, ResultGuard;
    SparedEdge(s.graph, t.graph, Evicted(s.guards, t.guards), !Dead(t, r) && !Dead(t, k), r, k, g, h);
  }

  lemma SparedEdge(before: Graph, after: Graph, gone: set<TokenGuard>, linked: bool, r: TokenGuard, k: TokenGuard, g: TokenGuard, h: TokenGuard)
    requires GraphAfter(before, after, gone, linked, r, k) && Ages(before, after) && g in before && h in before && h in before[g].succs
    ensures g in after && h in after && (!after[g].dead && !after[h].dead ==> h in after[g].succs)
  {
  }

  lemma {:induction false} EdgeStays(s: State, es: seq<Event>, t: State, g: TokenGuard, h: TokenGuard)
    requires Inv(s) && Run(s, es, t) && g in s.graph && h in s.graph && (Dead(s, g) || Dead(s, h) || h in s.graph[g].succs)
    ensures g in t.graph && h in t.graph && (!Dead(t, g) && !Dead(t, h) ==> h in t.graph[g].succs)
    decreases |es|
  {
    if es != [] {
      StepKeeps(s, es[0]);
      if h in s.graph[g].succs { EdgeStaysStep(s, es[0], g, h); }
      hide Inv, Step, Enabled;
      EdgeStays(Step(s, es[0]), es[1..], t, g, h);
    }
  }

  lemma LogoutKillsSuccessor(s: State, token: string, made: TokenGuard, g: TokenGuard, h: TokenGuard)
    requires Inv(s) && Enabled(s, Invalidate(token, made)) && g in s.graph && !Dead(s, g) && g.refreshToken == token
    requires h in s.graph && (Dead(s, h) || h in s.graph[g].succs)
    ensures Dead(Step(s, Invalidate(token, made)), h)
  {
    assert Stored(s.guards, g);
    GetGuardKeeps(s, token, made);
    FamilyClosed(s.graph, g);
    InvalidateKillsFamily(s, token, made, h);
    hide Inv, GetGuard, Family, InvalidateStep;
  }

  /**
   * A rotation leads from one token to another.  Whenever the user logs out with the old token while its guard is alive,
   * whatever happened in between, the guard of the new one is dead, and for as long as it is stored the new token is refused.
   */
  lemma LogoutReachesResult(s: State, e: Event, es: seq<Event>, t: State, made: TokenGuard, fs: seq<Event>, u: State,
                            now: int, other: TokenGuard, j: nat)
    requires Inv(s) && e.GoodBody? && Enabled(s, e)
    requires Step(s, e).rotations[e.i].phase == Settled(SignedIn(e.result)) && Run(Step(s, e), es, t)
    requires var r := s.rotations[e.i]; !Dead(t, r.guard) && Enabled(t, Invalidate(r.token, made))
    requires Run(Step(t, Invalidate(s.rotations[e.i].token, made)), fs, u)
    ensures var h := ResultGuard(s, e.result, e.made);
      && Dead(Step(t, Invalidate(s.rotations[e.i].token, made)), h) && Dead(u, h)
      && (Stored(u.guards, h) ==> RefreshReplyOf(u, e.result.refreshToken, now, other, j) == Answer(Unauthorized))
  {
    var r, h, after := s.rotations[e.i], ResultGuard(s, e.result, e.made), Step(s, e);
    Rotated(s, e.i, e.result, e.made, e.lease, e.now, e.later);
    GuardToken(s, e);
    assert h in after.graph[r.guard].succs;
    StepKeeps(s, e);
    RunKeeps(after, es, t);
    hide Step, Inv, Run, GraphAfter, NewestGuard, Installed, Enabled;
    EdgeStays(after, es, t, r.guard, h);
    LogoutKillsSuccessor(t, r.token, made, r.guard, h);
    var out := Step(t, Invalidate(r.token, made));
    StepKeeps(t, Invalidate(r.token, made));
    RunKeeps(out, fs, u);
    StillDead(out.graph, u.graph, h);
    if Stored(u.guards, h) {
      hide *;
      StoredRefuses(u, e.result.refreshToken, h, now, other, j);
    }
  }

  lemma StoredRefuses(u: State, token: string, h: TokenGuard, now: int, other: TokenGuard, j: nat)
    requires Stored(u.guards, h) && h.refreshToken == token && Dead(u, h)
    ensures RefreshReplyOf(u, token, now, other, j) == Answer(Unauthorized)
  {
    RefusesDead(u, token, now, other, j);
  }

  lemma GuardToken(s: State, e: Event)
    requires Inv(s) && e.GoodBody? && Enabled(s, e)
    ensures s.rotations[e.i].guard.refreshToken == s.rotations[e.i].token
    ensures ResultGuard(s, e.result, e.made).refreshToken == e.result.refreshToken
  {
    assert Flying(s.inFlight, e.i, s.rotations[e.i], s.graph.Keys, s.owner.Keys);
  }

  // ---------------------------------------------------------------- cookies, and what is held

  /** A rotation that signed the user in earns the cookie, unless it brought the same token again. */
  lemma RotationEarnsCookie(s: State, e: Event)
    requires Inv(s) && e.GoodBody? && Enabled(s, e) && Step(s, e).rotations[e.i].phase == Settled(SignedIn(e.result))
    ensures var token := s.rotations[e.i].token;
      ShouldSetCookie(Step(s, e), token, SignedIn(e.result)) <==> e.result.refreshToken != token
  {
    assert e.lease.requestGuard == s.rotations[e.i].guard && e.lease.resultGuard == ResultGuard(s, e.result, e.made);
    hide Inv, Step, GraphAfter, NewestGuard, Installed, Evicted, ResultGuard, ShouldSetCookie, Enabled;
    StepKeeps(s, e);
    Rotated(s, e.i, e.result, e.made, e.lease, e.now, e.later);
    var t, token := Step(s, e), s.rotations[e.i].token;
    CookieMeans(t, token, SignedIn(e.result));
    if Installed(s, t, token, e.result, e.lease, e.now, e.later) { InstalledHas(s, t, token, e.result, e.lease, e.now, e.later); }
  }

  lemma InstalledHas(s: State, t: State, token: string, result: AuthenticatedResult, lease: CookieLease, now: int, later: int)
    requires Installed(s, t, token, result, lease, now, later)
    ensures result in t.owner && t.owner[result] == lease
    ensures result.refreshToken in t.leases.at && t.leases.at[result.refreshToken] == lease
  {
    hide RenewedTwice, Without, Minus;
  }

  /** A cookie is set only for a sign-in with another token, whose lease is the stored one and whose guards are alive. */
  lemma CookieMeans(s: State, token: string, outcome: Outcome)
    requires Inv(s)
    ensures ShouldSetCookie(s, token, outcome) <==>
      && outcome.SignedIn? && outcome.result.refreshToken != token && outcome.result in s.owner
      && var l := s.owner[outcome.result];
        && !s.graph[l.requestGuard].dead && !s.graph[l.resultGuard].dead
        && outcome.result.refreshToken in s.leases.at && s.leases.at[outcome.result.refreshToken] == l
  {
    hide GraphInv, GuardsInv, SessionsInv, RotationsInv, OrderedMap.Valid;
  }

  /** The roots are the guards that are stored, and those named by a stored lease or by the lease of a live session. */
  lemma RootsAre(s: State, g: TokenGuard)
    requires Inv(s)
    ensures g in Roots(s) <==>
      || (exists k :: k in s.guards.at && s.guards.at[k] == g)
      || (exists k :: k in s.leases.at && (s.leases.at[k].requestGuard == g || s.leases.at[k].resultGuard == g))
      || (exists k :: k in s.sessions.at && s.sessions.at[k].Live?
            && (s.owner[s.sessions.at[k].result].requestGuard == g || s.owner[s.sessions.at[k].result].resultGuard == g))
  {
    hide GraphInv, GuardsInv, LeasesInv, RotationsInv, OrderedMap.Valid;
  }
}
