// The main results about the session-refresh coordinator: an invariant of every
// reachable state, and what an invalidated token guard rules out from then on,
// whatever refreshes, rotations, timeouts and invalidations follow.
module SessionRefreshTheorems {
  import opened InsertionOrderedMap
  import opened SessionRefreshState
  import opened SessionRefreshProofs

  /** Leases are bound to results once and for all. */
  ghost predicate Owns(before: map<AuthenticatedResult, CookieLease>, after: map<AuthenticatedResult, CookieLease>) {
    forall r :: r in before ==> r in after && after[r] == before[r]
  }

  ghost predicate Advances(s: State, t: State) {
    Inv(t) && Ages(s.graph, t.graph) && Owns(s.owner, t.owner)
  }

  // ---------------------------------------------------------------- the invariant of every reachable state

  /** A new coordinator satisfies the invariant. */
  lemma InitKeeps(config: Config)
    ensures Inv(Init(config))
  {
  }

  lemma TouchKeeps(s: State, token: string)
    requires Inv(s)
    ensures token in s.sessions.at ==> Inv(s.(sessions := s.sessions.Put(token, s.sessions.at[token])))
    ensures token in s.leases.at ==> Inv(s.(leases := s.leases.Put(token, s.leases.at[token])))
  {
    hide Minus, Distinct, GraphInv, GuardsInv, RotationsInv, OwnersInv;
    if token in s.sessions.at {
      s.sessions.PutValid(token, s.sessions.at[token]);
      assert s.sessions.Put(token, s.sessions.at[token]).at == s.sessions.at;
    }
    if token in s.leases.at {
      s.leases.PutValid(token, s.leases.at[token]);
      assert s.leases.Put(token, s.leases.at[token]).at == s.leases.at;
    }
  }

  lemma StartKeeps(s: State, token: string, g: TokenGuard, i: nat)
    requires Inv(s) && token !in s.inFlight && i !in s.rotations && g in s.graph && g.refreshToken == token
    ensures Inv(s.(inFlight := s.inFlight[token := i],
                   rotations := s.rotations[i := Rotation(token, g, AwaitingResponse)]))
  {
    hide GraphInv, GuardsInv, LeasesInv, LeaseGuardsInv, OwnersInv, SessionsInv, OrderedMap.Valid;
  }

  lemma RefreshKeeps(s: State, token: string, now: int, made: TokenGuard, i: nat)
    requires Inv(s) && made !in s.graph && made.refreshToken == token && i !in s.rotations
    ensures Advances(s, RefreshStep(s, token, now, made, i))
  {
    hide Inv, Ages, PruneExpired, GetGuard, OrderedMap.Put;
    PruneKeeps(s, now);
    var p := PruneExpired(s, now);
    GetGuardKeeps(p, token, made);
    var q := GetGuard(p, token, made);
    TouchKeeps(q, token);
    if token in q.sessions.at {
      TouchKeeps(q.(sessions := q.sessions.Put(token, q.sessions.at[token])), token);
    } else if token !in q.inFlight {
      StartKeeps(q, token, GuardOf(p, token, made), i);
    }
  }

  lemma AwaitBodyKeeps(s: State, i: nat)
    requires Inv(s) && i in s.rotations
    ensures Inv(s.(rotations := s.rotations[i := s.rotations[i].(phase := AwaitingBody)]))
  {
    hide GraphInv, GuardsInv, LeasesInv, LeaseGuardsInv, OwnersInv, SessionsInv, OrderedMap.Valid;
  }

  lemma RespondKeeps(s: State, i: nat, reply: Reply, now: int, later: int)
    requires Inv(s) && i in s.rotations
    ensures Advances(s, RespondStep(s, i, reply, now, later))
  {
    hide Inv, OrderedMap.Put, OrderedMap.Trim;
    var r := s.rotations[i];
    if Dead(s, r.guard) || reply.OtherFailure? {
      SettleKeeps(s, i, if Dead(s, r.guard) then Unauthorized else Unavailable);
    } else if reply.Ok? {
      AwaitBodyKeeps(s, i);
    } else {
      QuarantineKnownKeeps(s, r.token, now, later);
      var q := QuarantineKnown(s, r.token, now, later);
      RetireStateKeeps(q, {r.token});
      SettleKeeps(q, i, Unavailable);
      SettleKeeps(RetireLeases(q, {r.token}), i, Unauthorized);
    }
  }

  lemma GoodBodyKeeps(s: State, i: nat, result: AuthenticatedResult, made: TokenGuard, lease: CookieLease, now: int, later: int)
    requires Inv(s) && Enabled(s, GoodBody(i, result, made, lease, now, later))
    ensures Advances(s, GoodBodyStep(s, i, result, made, lease, now, later))
  {
    hide Inv, GetGuard, Install, LinkResult, LeaseResult, CacheResult;
    GetGuardKeeps(s, result.refreshToken, made);
    var q := GetGuard(s, result.refreshToken, made);
    var g, h := s.rotations[i].guard, GuardOf(s, result.refreshToken, made);
    if q.graph[g].dead || q.graph[h].dead {
      SettleKeeps(q, i, Unauthorized);
    } else {
      InstallKeeps(q, i, result, g, h, lease, now, later);
      AgesTransitive(s.graph, q.graph, Install(q, i, result, g, h, lease, now, later).graph);
      InstallFrame(q, i, result, g, h, lease, now, later);
    }
  }

  lemma AgesTransitive(a: Graph, b: Graph, c: Graph)
    requires Ages(a, b) && Ages(b, c)
    ensures Ages(a, c)
  {
  }

  lemma InstallFrame(s: State, i: nat, result: AuthenticatedResult, g: TokenGuard, h: TokenGuard,
                     lease: CookieLease, now: int, later: int)
    requires i in s.rotations && g in s.graph && h in s.graph
    ensures var q := Install(s, i, result, g, h, lease, now, later);
      && q.owner == s.owner[result := lease] && q.inFlight == s.inFlight
      && q.rotations == s.rotations[i := s.rotations[i].(phase := Settled(SignedIn(result)))]
  {
    hide EvictLeases, OrderedMap.Put, OrderedMap.Trim, OrderedMap.Remove;
  }

  lemma FinishKeeps(s: State, i: nat)
    requires Inv(s) && i in s.rotations
    ensures Inv(FinishStep(s, i))
  {
    hide GraphInv, GuardsInv, LeasesInv, LeaseGuardsInv, OwnersInv, SessionsInv, OrderedMap.Valid;
  }

  /** Every step keeps the invariant, revives no guard and rebinds no lease. */
  lemma StepKeeps(s: State, e: Event)
    requires Inv(s) && Enabled(s, e)
    ensures Advances(s, Step(s, e))
  {
    hide Inv, RespondStep, RefreshStep, GoodBodyStep, Quarantine, PruneExpired;
    match e
    case Refresh(token, now, made, i) => RefreshKeeps(s, token, now, made, i);
    case Reject(i, now, later) =>
      QuarantineFrame(s, s.rotations[i].token, now, later);
      QuarantineKeeps(s, s.rotations[i].token, now, later);
      SettleKeeps(s, i, Unauthorized);
      SettleKeeps(Quarantine(s, s.rotations[i].token, now, later), i, Unavailable);
    case Respond(i, reply, now, later) => RespondKeeps(s, i, reply, now, later);
    case BadBody(i, now, later) =>
      QuarantineFrame(s, s.rotations[i].token, now, later);
      QuarantineKeeps(s, s.rotations[i].token, now, later);
      SettleKeeps(Quarantine(s, s.rotations[i].token, now, later), i, Unavailable);
    case GoodBody(i, result, made, lease, now, later) => GoodBodyKeeps(s, i, result, made, lease, now, later);
    case Finish(i) => FinishKeeps(s, i);
    case Invalidate(token, made) =>
      GetGuardKeeps(s, token, made);
      var q := GetGuard(s, token, made);
      InvalidateAllKeeps(q, Family(q.graph, GuardOf(s, token, made)));
      hide GetGuard, Cut, Family;
    case GetStats(now) => PruneKeeps(s, now);
  }

  lemma {:induction false} RunKeeps(s: State, es: seq<Event>, t: State)
    requires Inv(s) && Run(s, es, t)
    ensures Advances(s, t)
    decreases |es|
  {
    hide Inv, Ages;
    if es == [] {
      hide *;
      AgesReflexive(s.graph);
    } else {
      StepKeeps(s, es[0]);
      RunKeeps(Step(s, es[0]), es[1..], t);
      AgesTransitive(s.graph, Step(s, es[0]).graph, t.graph);
    }
  }

  lemma AgesReflexive(a: Graph)
    ensures Ages(a, a)
  {
  }

  // ---------------------------------------------------------------- what an invalidated guard rules out

  ghost predicate Unsettled(s: State, i: nat) {
    i in s.rotations && !s.rotations[i].phase.Settled? && Dead(s, s.rotations[i].guard)
  }

  /** A rotation whose guard died before its last check: still waiting, or settled without a session. */
  ghost predicate Denied(s: State, i: nat) {
    && i in s.rotations && Dead(s, s.rotations[i].guard)
    && (s.rotations[i].phase.Settled? ==> !s.rotations[i].phase.outcome.SignedIn?)
  }

  ghost function EventRotation(e: Event): (i: int) {
    match e
    case Reject(i, _, _) => i
    case Respond(i, _, _, _) => i
    case BadBody(i, _, _) => i
    case GoodBody(i, _, _, _, _, _) => i
    case Finish(i) => i
    case _ => -1
  }

  /** Every session and lease of `t` was there in `s`: nothing was installed in between. */
  ghost predicate NothingInstalled(s: State, t: State) {
    && (forall k :: k in t.sessions.at && t.sessions.at[k].Live? ==> k in s.sessions.at && s.sessions.at[k] == t.sessions.at[k])
    && (forall k :: k in t.leases.at ==> k in s.leases.at && s.leases.at[k] == t.leases.at[k])
    && t.owner == s.owner
  }

  lemma QuarantineInstallsNothing(s: State, token: string, now: int, later: int)
    requires Inv(s)
    ensures NothingInstalled(s, Quarantine(s, token, now, later))
    ensures NothingInstalled(s, QuarantineKnown(s, token, now, later))
  {
    hide GraphInv, GuardsInv, LeasesInv, LeaseGuardsInv, OwnersInv, RotationsInv;
    hide OrderedMap.Valid, OrderedMap.Put, OrderedMap.Trim;
    var limit, a := s.config.CacheLimit(), s.config.ambiguousTokenGrace;
    s.sessions.PutTrim(token, Ambiguous(later + a), limit);
    if KnownAmbiguous(s, token, now) {
      s.sessions.PutTrim(token, Ambiguous(Min(later + a, s.ambiguous.at[token])), limit);
    }
  }

  /** A rotation whose guard is dead installs no session and no lease, and signs nobody in. */
  lemma DeadGuardInstallsNothing(s: State, e: Event, i: nat)
    requires Inv(s) && Enabled(s, e) && Unsettled(s, i) && EventRotation(e) == i
    ensures NothingInstalled(s, Step(s, e)) && Denied(Step(s, e), i)
  {
    hide Inv, Ages, GetGuard, Quarantine;
    match e {
      case BadBody(_, now, later) =>
        QuarantineInstallsNothing(s, s.rotations[i].token, now, later);
        QuarantineFrame(s, s.rotations[i].token, now, later);
      case GoodBody(_, result, made, lease, now, later) =>
        GetGuardKeeps(s, result.refreshToken, made);
        StillDead(s.graph, GetGuard(s, result.refreshToken, made).graph, s.rotations[i].guard);
      case Reject(_, now, later) =>
      case Respond(_, reply, now, later) =>
      case _ => assert false;
    }
  }

  lemma StillDead(before: Graph, after: Graph, g: TokenGuard)
    requires Ages(before, after) && g in before && before[g].dead
    ensures g in after && after[g].dead
  {
  }

  lemma QuarantineFrame(s: State, token: string, now: int, later: int)
    ensures var q := Quarantine(s, token, now, later);
      q == s.(ambiguous := q.ambiguous, sessions := q.sessions)
    ensures var q := QuarantineKnown(s, token, now, later);
      q == s.(ambiguous := q.ambiguous, sessions := q.sessions)
  {
    hide OrderedMap.Put, OrderedMap.Trim;
  }

  /** Other rotations leave a denied rotation alone. */
  lemma DeniedStep(s: State, e: Event, i: nat)
    requires Inv(s) && Enabled(s, e) && Denied(s, i) && e != Finish(i)
    ensures Denied(Step(s, e), i)
  {
    if EventRotation(e) == i {
      DeadGuardInstallsNothing(s, e, i);
    } else {
      StepKeeps(s, e);
      RotationFrame(s, e, i);
      hide Inv, Step, Ages;
      assert Ages(s.graph, Step(s, e).graph);
      StillDead(s.graph, Step(s, e).graph, s.rotations[i].guard);
    }
  }

  lemma GoodBodyFrame(s: State, j: nat, result: AuthenticatedResult, made: TokenGuard, lease: CookieLease,
                      now: int, later: int, i: nat)
    requires Inv(s) && Enabled(s, GoodBody(j, result, made, lease, now, later)) && i in s.rotations && i != j
    ensures var t := GoodBodyStep(s, j, result, made, lease, now, later);
      i in t.rotations && t.rotations[i] == s.rotations[i]
  {
    hide Inv, Install, GetGuard;
    GetGuardKeeps(s, result.refreshToken, made);
    var q := GetGuard(s, result.refreshToken, made);
    InstallFrame(q, j, result, s.rotations[j].guard, GuardOf(s, result.refreshToken, made), lease, now, later);
  }

  lemma RespondFrame(s: State, j: nat, reply: Reply, now: int, later: int, i: nat)
    requires i in s.rotations && j in s.rotations && i != j
    ensures var t := RespondStep(s, j, reply, now, later); i in t.rotations && t.rotations[i] == s.rotations[i]
  {
    hide QuarantineKnown;
    QuarantineFrame(s, s.rotations[j].token, now, later);
  }

  lemma RotationFrame(s: State, e: Event, i: nat)
    requires Inv(s) && Enabled(s, e) && i in s.rotations && EventRotation(e) != i
    ensures i in Step(s, e).rotations && Step(s, e).rotations[i] == s.rotations[i]
  {
    hide Inv, Ages, PruneExpired, GetGuard, Quarantine, RespondStep, GoodBodyStep, Family, Cut, OrderedMap.Put;
    match e {
      case Refresh(token, now, made, _) =>
        PruneKeeps(s, now);
        GetGuardKeeps(PruneExpired(s, now), token, made);
      case Reject(j, now, later) => QuarantineFrame(s, s.rotations[j].token, now, later);
      case BadBody(j, now, later) => QuarantineFrame(s, s.rotations[j].token, now, later);
      case Respond(j, reply, now, later) => RespondFrame(s, j, reply, now, later, i);
      case GoodBody(j, result, made, lease, now, later) => GoodBodyFrame(s, j, result, made, lease, now, later, i);
      case Invalidate(token, made) => GetGuardKeeps(s, token, made);
      case GetStats(now) => PruneKeeps(s, now);
      case Finish(_) =>
    }
  }

  /** Once its guard is dead, a rotation that has not settled never signs anyone in, however the run goes on. */
  lemma {:induction false} DeadRotationNeverSignsIn(s: State, es: seq<Event>, t: State, i: nat)
    requires Inv(s) && Run(s, es, t) && Denied(s, i) && Finish(i) !in es
    ensures Denied(t, i)
    decreases |es|
  {
    if es != [] {
      assert es[0] in es;
      DeniedStep(s, es[0], i);
      StepKeeps(s, es[0]);
      hide Inv, Step, Denied, Enabled;
      DeadRotationNeverSignsIn(Step(s, es[0]), es[1..], t, i);
    }
  }

  ghost predicate NamesDeadGuard(s: State, result: AuthenticatedResult) {
    result in s.owner && (Dead(s, s.owner[result].requestGuard) || Dead(s, s.owner[result].resultGuard))
  }

  /** Once a guard of its lease is dead, a result never earns a refresh cookie again. */
  lemma CookieRefusedForever(s: State, es: seq<Event>, t: State, requestToken: string, result: AuthenticatedResult)
    requires Inv(s) && Run(s, es, t) && NamesDeadGuard(s, result)
    ensures !ShouldSetCookie(t, requestToken, SignedIn(result))
  {
    RunKeeps(s, es, t);
    hide Inv, Run;
  }

  // ---------------------------------------------------------------- invalidation

  lemma {:induction false} FamilyFromHere(graph: Graph, g: TokenGuard, h: TokenGuard, k: TokenGuard, n: nat)
    requires Reaches(graph, g, h, n) && h in graph && k in graph[h].succs
    ensures Reaches(graph, g, k, n + 1)
    decreases n
  {
    if n == 0 {
      assert Reaches(graph, k, k, 0);
    } else {
      var m :| m in graph[g].succs && Reaches(graph, m, h, n - 1);
      FamilyFromHere(graph, m, h, k, n - 1);
    }
  }

  /** The family holds its root and everything its members' successor edges lead to. */
  lemma FamilyClosed(graph: Graph, g: TokenGuard)
    requires GraphInv(graph) && g in graph
    ensures g in Family(graph, g)
    ensures forall h, k :: h in Family(graph, g) && k in graph[h].succs ==> k in Family(graph, g)
  {
    assert Reaches(graph, g, g, 0);
    forall h, k | h in Family(graph, g) && k in graph[h].succs ensures k in Family(graph, g) {
      var n: nat :| Reaches(graph, g, h, n);
      FamilyFromHere(graph, g, h, k, n);
    }
  }

  /** Every set that holds the root and is closed under successors holds the family. */
  lemma {:induction false} FamilyLeast(graph: Graph, g: TokenGuard, closed: set<TokenGuard>, h: TokenGuard, n: nat)
    requires g in closed && Reaches(graph, g, h, n)
    requires forall x, y :: x in closed && x in graph && y in graph[x].succs ==> y in closed
    ensures h in closed
    decreases n
  {
    if n > 0 {
      var m :| m in graph[g].succs && Reaches(graph, m, h, n - 1);
      FamilyLeast(graph, m, closed, h, n - 1);
    }
  }

  /** Exactly the family of the token's guard dies, and loses its edges; the others only lose their edges to it. */
  lemma InvalidateKillsFamily(s: State, token: string, made: TokenGuard, h: TokenGuard)
    requires Inv(s) && made !in s.graph && made.refreshToken == token
    requires h in GetGuard(s, token, made).graph
    ensures var q := GetGuard(s, token, made);
      var family := Family(q.graph, GuardOf(s, token, made));
      var t := InvalidateStep(s, token, made);
      && h in t.graph && (Dead(t, h) <==> Dead(q, h) || h in family)
      && (h in family ==> t.graph[h] == Node(true, {}, {}))
      && (h !in family ==> t.graph[h].succs == q.graph[h].succs - family && t.graph[h].preds == q.graph[h].preds)
  {
    hide GetGuard, Ages;
    GetGuardKeeps(s, token, made);
    var q, g := GetGuard(s, token, made), GuardOf(s, token, made);
    FamilyClosed(q.graph, g);
    hide Family, GuardsInv, LeasesInv, LeaseGuardsInv, OwnersInv, SessionsInv, RotationsInv, OrderedMap.Valid, GetGuard, Minus;
    var family := Family(q.graph, g);
    if h !in family {
      forall p | p in q.graph[h].preds ensures p !in family {
        assert h in q.graph[p].succs;
      }
    }
    hide Inv;
  }

  /** Exactly the tokens of the family lose their sessions, ambiguity records and leases. */
  lemma InvalidateForgetsFamily(s: State, token: string, made: TokenGuard, k: string)
    requires Inv(s) && made !in s.graph && made.refreshToken == token
    ensures var q := GetGuard(s, token, made);
      var doomed := k in Tokens(Family(q.graph, GuardOf(s, token, made)));
      var t := InvalidateStep(s, token, made);
      && (k in t.sessions.at <==> k in s.sessions.at && !doomed) && (k in t.sessions.at ==> t.sessions.at[k] == s.sessions.at[k])
      && (k in t.ambiguous.at <==> k in s.ambiguous.at && !doomed) && (k in t.ambiguous.at ==> t.ambiguous.at[k] == s.ambiguous.at[k])
      && (k in t.leases.at <==> k in s.leases.at && !doomed) && (k in t.leases.at ==> t.leases.at[k] == s.leases.at[k])
      && (k in s.leases.at && doomed ==> s.leases.at[k] in t.active && !t.active[s.leases.at[k]])
  {
    GetGuardKeeps(s, token, made);
    hide GuardsInv, GraphInv, LeaseGuardsInv, OwnersInv, SessionsInv, RotationsInv, OrderedMap.Valid, GetGuard, Family, Tokens, Minus;
  }

  /** After a token is invalidated, no result of its family ever sets a cookie. */
  lemma LogoutRevokesFamily(s: State, token: string, made: TokenGuard, es: seq<Event>, t: State,
                            result: AuthenticatedResult, requestToken: string)
    requires Inv(s) && Enabled(s, Invalidate(token, made)) && Run(Step(s, Invalidate(token, made)), es, t)
    requires result in s.owner
    requires var q := GetGuard(s, token, made); var family := Family(q.graph, GuardOf(s, token, made));
      s.owner[result].requestGuard in family || s.owner[result].resultGuard in family
    ensures !ShouldSetCookie(t, requestToken, SignedIn(result))
  {
    hide Inv, Ages, GetGuard, Run, Family, InvalidateAll, ShouldSetCookie;
    StepKeeps(s, Invalidate(token, made));
    var q := GetGuard(s, token, made);
    var family := Family(q.graph, GuardOf(s, token, made));
    var g := if s.owner[result].requestGuard in family then s.owner[result].requestGuard else s.owner[result].resultGuard;
    InFamilyGraph(q.graph, GuardOf(s, token, made), g);
    InvalidateKillsFamily(s, token, made, g);
    CookieRefusedForever(Step(s, Invalidate(token, made)), es, t, requestToken, result);
  }

  lemma InFamilyGraph(graph: Graph, g: TokenGuard, h: TokenGuard)
    requires h in Family(graph, g)
    ensures h in graph
  {
  }

  /** After a logout, for as long as the coordinator remembers the token's guard, a refresh of the token is refused. */
  lemma LogoutDeniesRefresh(s: State, token: string, made: TokenGuard, es: seq<Event>, t: State,
                            now: int, other: TokenGuard, i: nat)
    requires Inv(s) && Enabled(s, Invalidate(token, made)) && Run(Step(s, Invalidate(token, made)), es, t)
    requires Stored(t.guards, GuardOf(s, token, made))
    ensures RefreshReplyOf(t, token, now, other, i) == Answer(Unauthorized)
  {
    var g, after := GuardOf(s, token, made), Step(s, Invalidate(token, made));
    GetGuardKeeps(s, token, made);
    FamilyClosed(GetGuard(s, token, made).graph, g);
    InvalidateKillsFamily(s, token, made, g);
    StepKeeps(s, Invalidate(token, made));
    RunKeeps(after, es, t);
    hide Inv, GetGuard, Run, Family, InvalidateAll;
    StillDead(after.graph, t.graph, g);
    hide *;
    RefusesDead(t, token, now, other, i);
  }

  lemma RefusesDead(t: State, token: string, now: int, other: TokenGuard, i: nat)
    requires token in t.guards.at && Dead(t, t.guards.at[token])
    ensures RefreshReplyOf(t, token, now, other, i) == Answer(Unauthorized)
  {
    hide Minus;
  }

  // ---------------------------------------------------------------- what the invariant is good for

  /** Single flight: a token has at most one rotation in flight. */
  lemma OneRotationPerToken(s: State, i: nat, j: nat)
    requires Inv(s) && i in s.rotations && j in s.rotations && i != j
    ensures s.rotations[i].token != s.rotations[j].token
  {
    hide GraphInv, GuardsInv, LeasesInv, OwnersInv, SessionsInv, OrderedMap.Valid;
    assert Flying(s.inFlight, i, s.rotations[i], s.graph.Keys, s.owner.Keys);
    assert Flying(s.inFlight, j, s.rotations[j], s.graph.Keys, s.owner.Keys);
  }

  /** At most one result of a refresh token may set the cookie, and only while both its guards are stored. */
  lemma OneCookiePerToken(s: State, t1: string, t2: string, r1: AuthenticatedResult, r2: AuthenticatedResult)
    requires Inv(s) && r1.refreshToken == r2.refreshToken
    requires ShouldSetCookie(s, t1, SignedIn(r1)) && ShouldSetCookie(s, t2, SignedIn(r2))
    ensures r1 == r2 && Stored(s.guards, s.owner[r1].requestGuard) && Stored(s.guards, s.owner[r1].resultGuard)
  {
    hide GraphInv, RotationsInv, SessionsInv, OrderedMap.Valid;
  }

  ghost predicate EdgeClosed(graph: Graph, gs: set<TokenGuard>) {
    forall g, h :: g in gs && g in graph && h in graph[g].preds + graph[g].succs ==> h in gs
  }

  /** Following edges from the guards that are held anywhere leads to no further guard. */
  lemma RootsClosed(s: State)
    requires Inv(s)
    ensures EdgeClosed(s.graph, Roots(s)) && Roots(s) <= s.graph.Keys
  {
    hide RotationsInv, LeasesInv, SessionsInv, OwnersInv, LeaseGuardsInv, OrderedMap.Valid;
    RootsInGraph(s);
    var stored := set t | t in s.guards.at :: s.guards.at[t];
    forall g, h | g in s.graph && h in s.graph[g].preds + s.graph[g].succs ensures h in stored {
      assert Stored(s.guards, h);
    }
  }

  lemma RootsInGraph(s: State)
    requires Inv(s)
    ensures Roots(s) <= s.graph.Keys
  {
    hide RotationsInv, GraphInv, OrderedMap.Valid;
  }

  lemma {:induction false} ImageSize(keys: set<string>, f: map<string, TokenGuard>, image: set<TokenGuard>)
    requires keys <= f.Keys && image == set t | t in keys :: f[t]
    ensures |image| <= |keys|
    decreases keys
  {
    if keys == {} {
      assert image == {};
    } else {
      var k :| k in keys;
      var rest := keys - {k};
      var smaller := set t | t in rest :: f[t];
      ImageSize(rest, f, smaller);
      assert image == smaller + {f[k]};
    }
  }

  lemma {:induction false} KeysSize(order: seq<string>, keys: set<string>)
    requires forall k :: k in keys ==> k in order
    ensures |keys| <= |order|
    decreases |order|
  {
    if order == [] {
      assert keys == {};
    } else {
      KeysSize(order[1..], keys - {order[0]});
      assert keys <= (keys - {order[0]}) + {order[0]};
    }
  }

  lemma KeysOf<V>(m: OrderedMap<V>, keys: set<string>)
    requires m.Valid() && keys <= m.at.Keys
    ensures |keys| <= |m.order|
  {
    KeysSize(m.order, keys);
  }

  lemma UnionSize(a: set<TokenGuard>, b: set<TokenGuard>, n: nat, m: nat)
    requires |a| <= n && |b| <= m
    ensures |a + b| <= n + m
  {
    assert a + b == a + (b - a);
  }

  lemma StoredBound(guards: OrderedMap<TokenGuard>, limit: nat)
    requires guards.Valid() && |guards.order| <= limit
    ensures |set t | t in guards.at :: guards.at[t]| <= limit
  {
    KeysOf(guards, guards.at.Keys);
    ImageSize(guards.at.Keys, guards.at, set t | t in guards.at :: guards.at[t]);
  }

  /** The two guards of each of at most `limit` leases. */
  lemma LeaseBound(leases: map<string, CookieLease>, limit: nat)
    requires |leases.Keys| <= limit
    ensures |(set t | t in leases :: leases[t].requestGuard)| <= limit
    ensures |(set t | t in leases :: leases[t].resultGuard)| <= limit
  {
    ImageSize(leases.Keys, map t | t in leases :: leases[t].requestGuard, set t | t in leases :: leases[t].requestGuard);
    ImageSize(leases.Keys, map t | t in leases :: leases[t].resultGuard, set t | t in leases :: leases[t].resultGuard);
  }

  /** The leases of the results of the live sessions. */
  ghost function SessionLeases(s: State): map<string, CookieLease> {
    map t | t in LeasedSessions(s) :: s.owner[s.sessions.at[t].result]
  }

  lemma RootsByLease(s: State)
    ensures var live := SessionLeases(s);
      Roots(s) == (set t | t in s.guards.at :: s.guards.at[t])
        + (set t | t in s.leases.at :: s.leases.at[t].requestGuard) + (set t | t in s.leases.at :: s.leases.at[t].resultGuard)
        + (set t | t in live :: live[t].requestGuard) + (set t | t in live :: live[t].resultGuard)
  {
    var live := SessionLeases(s);
    hide LeasedSessions;
    assert live.Keys == LeasedSessions(s);
  }

  /** The coordinator never keeps more than six guards alive per cache entry. */
  lemma ReachableBound(s: State)
    requires Inv(s)
    ensures |Roots(s)| <= 6 * s.config.CacheLimit()
  {
    TablesValid(s);
    hide Inv, Roots, SessionLeases, LeasedSessions, OrderedMap.Valid;
    var limit, live := s.config.CacheLimit(), SessionLeases(s);
    RootsByLease(s);
    StoredBound(s.guards, 2 * limit);
    KeysOf(s.leases, s.leases.at.Keys);
    LeaseBound(s.leases.at, limit);
    SessionLeaseBound(s, limit);
    LeaseBound(live, limit);
    var a := set t | t in s.guards.at :: s.guards.at[t];
    var b := set t | t in s.leases.at :: s.leases.at[t].requestGuard;
    var c := set t | t in s.leases.at :: s.leases.at[t].resultGuard;
    var d := set t | t in live :: live[t].requestGuard;
    UnionSize(a, b, 2 * limit, limit);
    UnionSize(a + b, c, 3 * limit, limit);
    UnionSize(a + b + c, d, 4 * limit, limit);
    UnionSize(a + b + c + d, set t | t in live :: live[t].resultGuard, 5 * limit, limit);
  }

  lemma SessionLeaseBound(s: State, limit: nat)
    requires s.sessions.Valid() && |s.sessions.order| <= limit
    ensures |SessionLeases(s).Keys| <= limit
  {
    KeysOf(s.sessions, SessionLeases(s).Keys);
  }

  lemma TablesValid(s: State)
    requires Inv(s)
    ensures s.guards.Valid() && s.leases.Valid() && s.sessions.Valid() && s.ambiguous.Valid() && LimitsInv(s)
  {
    hide GraphInv, LeaseGuardsInv, RotationsInv, OrderedMap.Valid;
  }
}
