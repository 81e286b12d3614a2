// The coordinator itself, on the heap: leases, families and guards are objects
// that its methods link, retire and forget in place.  What each method leaves
// behind, every lease, guard and queue entry of it, is exactly the state that
// the step of SessionRefreshState of the same name describes.
module SessionRefreshCoordinator {
  import opened InsertionOrderedMap
  import opened SessionRefreshState
  import opened SessionRefreshProofs
  import opened SessionRefreshTheorems

  lemma RemoveTwice<V>(m: OrderedMap<V>, a: set<string>, b: set<string>)
    ensures m.Remove(a).Remove(b) == m.Remove(a + b)
  {
    MinusMinus(m.order, a, b);
    assert m.at - a - b == m.at - (a + b);
  }

  lemma RemoveNothing<V>(m: OrderedMap<V>)
    ensures m.Remove({}) == m
  {
    MinusNothing(m.order, {});
  }

  lemma CutTwice(graph: Graph, a: set<TokenGuard>, b: set<TokenGuard>)
    ensures Cut(Cut(graph, a, a), b, b) == Cut(graph, a + b, a + b)
  {
    forall g | g in graph ensures Cut(Cut(graph, a, a), b, b)[g] == Cut(graph, a + b, a + b)[g] {
      assert graph[g].preds - a - b == graph[g].preds - (a + b);
      assert graph[g].succs - a - b == graph[g].succs - (a + b);
    }
  }

  lemma RetireTwice(s: State, a: set<string>, b: set<string>)
    ensures RetireLeases(RetireLeases(s, a), b) == RetireLeases(s, a + b)
  {
    RemoveTwice(s.leases, a, b);
    var one, two := RetireLeases(RetireLeases(s, a), b).active, RetireLeases(s, a + b).active;
    hide Minus;
    assert one == two;
  }

  /** Invalidating a set of guards one at a time comes to invalidating them all at once. */
  lemma InvalidateOneMore(s: State, done: set<TokenGuard>, guard: TokenGuard)
    ensures InvalidateAll(InvalidateAll(s, done), {guard}) == InvalidateAll(s, done + {guard})
  {
    var a, b := Tokens(done), Tokens({guard});
    assert Tokens(done + {guard}) == a + b;
    RemoveTwice(s.sessions, a, b);
    RemoveTwice(s.ambiguous, a, b);
    CutTwice(s.graph, done, {guard});
    RetireTwice(s, a, b);
    hide Cut, Tokens, Minus, OrderedMap.Remove;
  }

  lemma InvalidateNone(s: State)
    ensures InvalidateAll(s, {}) == s
  {
    RemoveNothing(s.sessions);
    RemoveNothing(s.ambiguous);
    RemoveNothing(s.leases);
    assert Tokens({}) == {};
    forall g | g in s.graph ensures Cut(s.graph, {}, {})[g] == s.graph[g] {
      assert s.graph[g].preds - {} == s.graph[g].preds && s.graph[g].succs - {} == s.graph[g].succs;
    }
    assert Cut(s.graph, {}, {}) == s.graph;
  }

  /** `retireRefreshCookieLease` touches one lease object at most. */
  lemma RetireOne(s: State, token: string)
    requires LeasesInv(s.leases, s.active)
    ensures RetireLeases(s, {token}) ==
      if token in s.leases.at
      then s.(leases := s.leases.Remove({token}), active := s.active[s.leases.at[token] := false])
      else s
  {
    hide Minus, Distinct;
    var active := RetireLeases(s, {token}).active;
    if token in s.leases.at {
      assert active == s.active[s.leases.at[token] := false];
    } else {
      assert active == s.active;
      MinusNothing(s.leases.order, {token});
      assert s.leases.at - {token} == s.leases.at;
    }
  }

  lemma StoredLeasesKnown(s: State, token: string)
    requires LeasesInv(s.leases, s.active) && token in s.leases.at
    ensures s.leases.at[token] in s.active
  {
  }

  function Kill(graph: Graph, g: TokenGuard): Graph
    requires g in graph
  {
    graph[g := graph[g].(dead := true)]
  }

  lemma KillThenCut(graph: Graph, g: TokenGuard)
    requires g in graph
    ensures Cut(Kill(graph, g), {g}, {}) == Cut(graph, {g}, {g})
  {
  }

  lemma StoredGuardKnown(graph: Graph, guards: OrderedMap<TokenGuard>, token: string)
    requires GraphInv(graph) && GuardsInv(graph, guards) && token in guards.at
    ensures EdgesInv(graph) && guards.at[token] in graph
  {
  }

  lemma CutKeys(graph: Graph, g: TokenGuard)
    ensures Cut(graph, {g}, {}).Keys == graph.Keys
  {
  }

  lemma KillKeepsEdges(graph: Graph, g: TokenGuard)
    requires EdgesInv(graph) && g in graph
    ensures EdgesInv(Kill(graph, g))
  {
  }

  /** Cutting a guard off touches its neighbours only. */
  lemma CutAtNeighbours(graph: Graph, g: TokenGuard)
    requires EdgesInv(graph) && g in graph
    ensures graph[g].preds <= graph.Keys && graph[g].succs <= graph.Keys
    ensures forall x :: x in graph ==>
      Cut(graph, {g}, {})[x] ==
        Node(graph[x].dead,
             if x == g then {} else if x in graph[g].succs then graph[x].preds - {g} else graph[x].preds,
             if x == g then {} else if x in graph[g].preds then graph[x].succs - {g} else graph[x].succs)
  {
    forall x | x in graph && x != g ensures
      && (x !in graph[g].succs ==> graph[x].preds - {g} == graph[x].preds)
      && (x !in graph[g].preds ==> graph[x].succs - {g} == graph[x].succs)
    {
      assert x in graph[g].succs <==> g in graph[x].preds;
      assert x in graph[g].preds <==> g in graph[x].succs;
    }
  }

  ghost predicate InFamily(graph: Graph, g: TokenGuard, h: TokenGuard) { exists n: nat :: Reaches(graph, g, h, n) }

  lemma FamilyOfSuccessor(graph: Graph, g: TokenGuard, m: TokenGuard, h: TokenGuard)
    requires g in graph && m in graph[g].succs && InFamily(graph, m, h)
    ensures InFamily(graph, g, h)
  {
    var n: nat :| Reaches(graph, m, h, n);
    assert Reaches(graph, g, h, n + 1);
  }

  lemma EdgeTarget(s: State, g: TokenGuard, h: TokenGuard)
    requires Inv(s) && g in s.graph && h in s.graph[g].succs
    ensures h in s.graph
  {
    hide OrderedMap.Valid, LeasesInv, OwnersInv, SessionsInv, RotationsInv, GuardsInv;
  }

  /** What a visit relies on, whatever part of the graph has been cut before it. */
  lemma WalkKeeps(start: State, visited: set<TokenGuard>, guard: TokenGuard)
    requires Inv(start) && guard in start.graph && guard !in visited
    ensures var s := InvalidateAll(start, visited);
      && EdgesInv(s.graph) && LeasesInv(s.leases, s.active)
      && s.graph[guard].succs == start.graph[guard].succs - visited
    ensures InFamily(start.graph, guard, guard)
  {
    InvalidateAllKeeps(start, visited);
    assert Reaches(start.graph, guard, guard, 0);
    hide OrderedMap.Valid, LeasesInv, OwnersInv, SessionsInv, RotationsInv, GuardsInv, EdgesInv;
  }

  lemma GetKeeps(s: State, token: string, guard: TokenGuard)
    requires Inv(s) && guard == GuardOf(s, token, guard) && guard.refreshToken == token
    requires token !in s.guards.at ==> guard !in s.graph
    ensures Inv(GetGuard(s, token, guard)) && guard in GetGuard(s, token, guard).graph
    ensures EdgesInv(GetGuard(s, token, guard).graph)
  {
    hide Minus, Distinct, LeasesInv, OwnersInv, SessionsInv, RotationsInv;
    if token in s.guards.at {
      s.guards.PutValid(token, guard);
      assert s.guards.Put(token, guard).at == s.guards.at;
    } else {
      GetGuardKeeps(s, token, guard);
    }
  }

  /** A set that holds the root, is closed under successors and holds nothing unreached is the family. */
  lemma WalkFindsFamily(s: State, guard: TokenGuard, done: set<TokenGuard>)
    requires guard in done && done <= s.graph.Keys
    requires forall g :: g in done ==> s.graph[g].succs <= done
    requires forall g :: g in done ==> InFamily(s.graph, guard, g)
    ensures done == Family(s.graph, guard)
  {
    forall h | h in Family(s.graph, guard) ensures h in done {
      var n: nat :| Reaches(s.graph, guard, h, n);
      FamilyLeast(s.graph, guard, done, h, n);
    }
  }

  lemma FlyingGuard(s: State, i: nat)
    requires Inv(s) && i in s.rotations
    ensures s.rotations[i].guard in s.graph
  {
    assert Flying(s.inFlight, i, s.rotations[i], s.graph.Keys, s.owner.Keys);
  }

  lemma LinkLeasesAlone(s: State, token: string, g: TokenGuard, h: TokenGuard)
    requires g in s.graph && h in s.graph
    ensures LinkResult(s, token, g, h).leases == s.leases && LinkResult(s, token, g, h).active == s.active
  {
    hide Link, OrderedMap.Remove;
  }

  lemma StateLeases(s: State)
    requires Inv(s)
    ensures LeasesInv(s.leases, s.active)
  {
  }

  lemma LeasesKnown(s: State)
    requires LeasesInv(s.leases, s.active)
    ensures s.leases.Valid() && forall t :: t in s.leases.at ==> s.leases.at[t] in s.active
  {
  }

  lemma GuardsStored(s: State, token: string)
    requires Inv(s)
    ensures StoredInGraph(s, token)
  {
  }

  /** A worklist walk in progress: everything is either reached or still to be visited. */
  ghost predicate Covers(roots: set<TokenGuard>, reachable: set<TokenGuard>, pending: seq<TokenGuard>) {
    && reachable <= roots && (forall g :: g in pending ==> g in roots)
    && (forall g :: g in roots ==> g in reachable || g in pending)
  }

  lemma StartCovers(roots: set<TokenGuard>, pending: seq<TokenGuard>)
    requires forall g :: g in pending <==> g in roots
    ensures Covers(roots, {}, pending)
  {
  }

  lemma Popped(roots: set<TokenGuard>, reachable: set<TokenGuard>, pending: seq<TokenGuard>)
    requires Covers(roots, reachable, pending) && pending != []
    ensures var guard, rest := pending[|pending| - 1], pending[..|pending| - 1];
      guard in roots && Covers(roots, reachable + {guard}, rest) && (guard in reachable ==> Covers(roots, reachable, rest))
  {
    assert pending == pending[..|pending| - 1] + [pending[|pending| - 1]];
  }

  lemma Covered(roots: set<TokenGuard>, reachable: set<TokenGuard>, rest: seq<TokenGuard>, guard: TokenGuard, more: seq<TokenGuard>)
    requires Covers(roots, reachable + {guard}, rest) && guard in roots && guard !in reachable
    requires forall g :: g in more ==> g in roots
    ensures Covers(roots, reachable + {guard}, rest + more)
    ensures roots - (reachable + {guard}) < roots - reachable
  {
    assert guard in roots - reachable && guard !in roots - (reachable + {guard});
  }

  lemma CoversAll(roots: set<TokenGuard>, reachable: set<TokenGuard>)
    requires Covers(roots, reachable, [])
    ensures roots == reachable
  {
  }

  lemma ClosedAt(graph: Graph, gs: set<TokenGuard>, g: TokenGuard)
    requires EdgeClosed(graph, gs) && g in gs && g in graph
    ensures graph[g].preds <= gs && graph[g].succs <= gs
  {
    forall h | h in graph[g].preds + graph[g].succs ensures h in gs {
    }
  }

  /** The members of a set, in some order. */
  method Elements(gs: set<TokenGuard>) returns (r: seq<TokenGuard>)
    ensures forall g :: g in r <==> g in gs
  {
    r := [];
    var rest := gs;
    while rest != {}
      invariant rest <= gs && forall g :: g in r <==> g in gs - rest
      decreases rest
    {
      var g :| g in rest;
      rest := rest - {g};
      r := r + [g];
    }
  }

  class Coordinator {
    const config: Config
    var sessions: OrderedMap<Session>
    var inFlight: map<string, nat>
    var refreshCookieLeases: OrderedMap<CookieLease>
    var refreshTokenGuards: OrderedMap<TokenGuard>
    var ambiguousTokens: OrderedMap<int>
    var resultRefreshCookieLeases: map<AuthenticatedResult, CookieLease>
    var rotations: map<nat, Rotation>   // the calls of `rotate` that have not finished
    ghost var allGuards: set<TokenGuard>
    ghost var allLeases: set<CookieLease>

    ghost function GraphView(): Graph
      reads this`allGuards, allGuards
    {
      map g | g in allGuards :: Node(g.invalidated, g.predecessors, g.successors)
    }

    ghost function LeaseView(): map<CookieLease, bool>
      reads this`allLeases, allLeases
    {
      map l | l in allLeases :: l.active
    }

    ghost function View(): State
      reads this, allGuards, allLeases
    {
      State(config, GraphView(), refreshTokenGuards, sessions, ambiguousTokens, refreshCookieLeases,
            LeaseView(), resultRefreshCookieLeases, inFlight, rotations)
    }

    constructor (config: Config)
      ensures View() == Init(config)
      ensures fresh(allGuards) && fresh(allLeases)
    {
      this.config := config;
      sessions, ambiguousTokens := OrderedMap([], map[]), OrderedMap([], map[]);
      refreshCookieLeases, refreshTokenGuards := OrderedMap([], map[]), OrderedMap([], map[]);
      inFlight, resultRefreshCookieLeases, rotations := map[], map[], map[];
      allGuards, allLeases := {}, {};
    }

    method CacheSession(refreshToken: string, session: Session)
      modifies this`sessions
      ensures View() == Cache(old(View()), refreshToken, session)
    {
      sessions := sessions.Put(refreshToken, session);
      ghost var put := sessions;
      while |sessions.order| > config.CacheLimit()
        invariant sessions.Trim(config.CacheLimit()) == put.Trim(config.CacheLimit())
        decreases |sessions.order|
      {
        sessions := sessions.DropOldest();
      }
    }

    method SeverRefreshTokenGuardLinks(guard: TokenGuard)
      requires EdgesInv(GraphView()) && guard in allGuards
      modifies allGuards`predecessors, allGuards`successors
      ensures GraphView() == Cut(old(GraphView()), {guard}, {})
    {
      ghost var graph := GraphView();
      CutAtNeighbours(graph, guard);
      hide EdgesInv, Cut;
      assert guard.predecessors == graph[guard].preds && guard.successors == graph[guard].succs;
      forall p | p in guard.predecessors {
        p.successors := p.successors - {guard};
      }
      forall q | q in guard.successors {
        q.predecessors := q.predecessors - {guard};
      }
      guard.predecessors := {};
      guard.successors := {};
      assert Cut(graph, {guard}, {}).Keys == allGuards by { CutKeys(graph, guard); }
    }

    method MarkInvalidated(guard: TokenGuard)
      requires guard in allGuards
      modifies guard`invalidated
      ensures GraphView() == Kill(old(GraphView()), guard)
    {
      guard.invalidated := true;
    }

    method SetInactive(lease: CookieLease)
      requires lease in allLeases
      modifies lease
      ensures LeaseView() == old(LeaseView())[lease := false]
    {
      lease.active := false;
    }

    method RetireRefreshCookieLease(refreshToken: string)
      requires LeasesInv(refreshCookieLeases, LeaseView())
      modifies this`refreshCookieLeases, allLeases
      ensures View() == RetireLeases(old(View()), {refreshToken})
    {
      ghost var s := View();
      RetireOne(s, refreshToken);
      hide LeasesInv, RetireLeases, OrderedMap.Remove, GraphView, LeaseView;
      if refreshToken in refreshCookieLeases.at {
        assert refreshCookieLeases.at[refreshToken] in allLeases by {
          StoredLeasesKnown(s, refreshToken);
          KnownLeases();
        }
        SetInactive(refreshCookieLeases.at[refreshToken]);
        refreshCookieLeases := refreshCookieLeases.Remove({refreshToken});
      }
    }

    /** The two lines that eviction and invalidation have in common. */
    method InvalidateAndSever(guard: TokenGuard)
      requires EdgesInv(GraphView()) && guard in allGuards
      modifies allGuards
      ensures GraphView() == Cut(old(GraphView()), {guard}, {guard})
    {
      hide EdgesInv, Cut, Kill;
      KillKeepsEdges(GraphView(), guard);
      KillThenCut(GraphView(), guard);
      MarkInvalidated(guard);
      SeverRefreshTokenGuardLinks(guard);
    }

    method EvictOldestGuards()
      requires GraphInv(GraphView()) && GuardsInv(GraphView(), refreshTokenGuards)
      modifies this`refreshTokenGuards, allGuards
      ensures (GraphView(), refreshTokenGuards) == old(EvictGuards(GraphView(), refreshTokenGuards, config.GuardLimit()))
    {
      hide GraphInv, GuardsInv, EdgesInv, Cut, GraphView;
      ghost var result := EvictGuards(GraphView(), refreshTokenGuards, config.GuardLimit());
      while |refreshTokenGuards.order| > config.GuardLimit()
        invariant GraphInv(GraphView()) && GuardsInv(GraphView(), refreshTokenGuards)
        invariant EvictGuards(GraphView(), refreshTokenGuards, config.GuardLimit()) == result
        decreases |refreshTokenGuards.order|
      {
        EvictOneKeeps(GraphView(), refreshTokenGuards);
        var oldestGuard := refreshTokenGuards.at[refreshTokenGuards.order[0]];
        CutKeeps(GraphView(), {oldestGuard}, {oldestGuard});
        assert EdgesInv(GraphView()) && oldestGuard in allGuards by {
          StoredGuardKnown(GraphView(), refreshTokenGuards, refreshTokenGuards.order[0]);
          KnownGuards();
        }
        InvalidateAndSever(oldestGuard);
        refreshTokenGuards := refreshTokenGuards.DropOldest();
      }
    }

    lemma KnownGuards()
      ensures GraphView().Keys == View().graph.Keys == allGuards
    {
    }

    lemma KnownLeases()
      ensures LeaseView().Keys == allLeases
    {
    }

    method CreateGuard(refreshToken: string) returns (guard: TokenGuard)
      modifies this`allGuards
      ensures fresh(guard) && guard.refreshToken == refreshToken && allGuards == old(allGuards) + {guard}
      ensures GraphView() == old(GraphView())[guard := Node(false, {}, {})]
    {
      guard := new TokenGuard(refreshToken);
      allGuards := allGuards + {guard};
    }

    /** `getRefreshTokenGuard`: touch the token's guard, or make one and evict the oldest guards. */
    method GetRefreshTokenGuard(refreshToken: string) returns (guard: TokenGuard)
      requires Inv(View())
      modifies this`refreshTokenGuards, this`allGuards, allGuards
      ensures View() == GetGuard(old(View()), refreshToken, guard)
      ensures guard == GuardOf(old(View()), refreshToken, guard) && guard.refreshToken == refreshToken
      ensures allGuards == old(allGuards) + {guard}
      ensures if refreshToken in old(refreshTokenGuards.at) then guard in old(allGuards) else fresh(guard)
    {
      ghost var s := View();
      hide GraphInv, EdgesInv, LeasesInv, LeaseGuardsInv, OwnersInv, SessionsInv, RotationsInv;
      hide GraphView, LeaseView, EvictGuards, OrderedMap.Put;
      KnownGuards();
      if refreshToken in refreshTokenGuards.at {
        guard := refreshTokenGuards.at[refreshToken];
        refreshTokenGuards := refreshTokenGuards.Put(refreshToken, guard);
        return;
      }
      guard := CreateGuard(refreshToken);
      assert guard !in s.graph;
      InsertGuardKeeps(s.graph, s.guards, guard);
      refreshTokenGuards := refreshTokenGuards.Put(refreshToken, guard);
      EvictOldestGuards();
    }

    /** One visit of `invalidateRefreshTokenGuard`, before it turns to the successors. */
    method InvalidateOne(guard: TokenGuard)
      requires EdgesInv(GraphView()) && LeasesInv(refreshCookieLeases, LeaseView()) && guard in allGuards
      modifies this`sessions, this`ambiguousTokens, this`refreshCookieLeases, allGuards, allLeases
      ensures View() == InvalidateAll(old(View()), {guard})
    {
      ghost var s := View();
      hide EdgesInv, LeasesInv, GraphView, LeaseView, Cut;
      assert Tokens({guard}) == {guard.refreshToken};
      sessions := sessions.Remove({guard.refreshToken});
      ambiguousTokens := ambiguousTokens.Remove({guard.refreshToken});
      RetireRefreshCookieLease(guard.refreshToken);
      InvalidateAndSever(guard);
    }

    /**
     * `invalidateRefreshTokenGuard`: a depth-first walk along successor edges that cuts the edges
     * as it goes.  `start` is the state in which the outermost call began.
     */
    method InvalidateRefreshTokenGuard(guard: TokenGuard, visited: set<TokenGuard>, ghost start: State)
      returns (done: set<TokenGuard>)
      requires Inv(start) && start.graph.Keys == allGuards && guard in allGuards && visited <= allGuards
      requires View() == InvalidateAll(start, visited)
      modifies this`sessions, this`ambiguousTokens, this`refreshCookieLeases, allGuards, allLeases
      ensures View() == InvalidateAll(start, done) && visited + {guard} <= done <= allGuards
      ensures forall g :: g in done && g !in visited ==> start.graph[g].succs <= done
      ensures forall g :: g in done && g !in visited ==> InFamily(start.graph, guard, g)
      decreases allGuards - visited
    {
      hide Inv, GraphView, LeaseView, InvalidateAll;
      if guard in visited {
        return visited;
      }
      var successors := guard.successors;
      WalkKeeps(start, visited, guard);
      ViewParts();
      assert successors == start.graph[guard].succs - visited by { GuardView(guard); }
      InvalidateOne(guard);
      InvalidateOneMore(start, visited, guard);
      done := visited + {guard};
      while successors != {}
        invariant View() == InvalidateAll(start, done) && visited + {guard} <= done <= allGuards
        invariant start.graph[guard].succs <= done + successors && successors <= start.graph[guard].succs
        invariant forall g :: g in done && g !in visited && g != guard ==> start.graph[g].succs <= done
        invariant forall g :: g in done && g !in visited ==> InFamily(start.graph, guard, g)
        decreases |successors|
      {
        var successor :| successor in successors;
        successors := successors - {successor};
        ghost var before := done;
        assert guard in allGuards - visited && guard !in allGuards - done;
        assert successor in allGuards by { EdgeTarget(start, guard, successor); }
        done := InvalidateRefreshTokenGuard(successor, done, start);
        forall g | g in done && g !in before ensures InFamily(start.graph, guard, g) {
          FamilyOfSuccessor(start.graph, guard, successor, g);
        }
      }
    }

    lemma ViewParts()
      ensures View().graph == GraphView() && View().leases == refreshCookieLeases && View().active == LeaseView()
    {
    }

    lemma GuardView(guard: TokenGuard)
      requires guard in allGuards
      ensures guard in GraphView()
      ensures GraphView()[guard] == Node(guard.invalidated, guard.predecessors, guard.successors)
    {
    }

    /** `invalidateRefreshToken`: the walk kills exactly the family of the token's guard. */
    method InvalidateRefreshToken(refreshToken: string) returns (ghost guard: TokenGuard)
      requires Inv(View())
      modifies this`sessions, this`ambiguousTokens, this`refreshCookieLeases, this`refreshTokenGuards, this`allGuards,
        allGuards, allLeases
      ensures View() == InvalidateStep(old(View()), refreshToken, guard)
      ensures guard == GuardOf(old(View()), refreshToken, guard)
      ensures refreshToken in old(refreshTokenGuards.at) || fresh(guard)
    {
      hide Inv, GraphView, LeaseView, InvalidateAll, GetGuard;
      ghost var s := View();
      KnownGuards();
      assert s.graph.Keys == allGuards;
      var found := GetRefreshTokenGuard(refreshToken);
      guard := found;
      ghost var start := View();
      GetKeeps(s, refreshToken, found);
      KnownGuards();
      KnownLeases();
      assert start.graph.Keys == allGuards;
      InvalidateNone(start);
      var done := InvalidateRefreshTokenGuard(found, {}, start);
      WalkFindsFamily(start, found, done);
    }

    method PruneSessions(now: int)
      requires sessions.Valid()
      modifies this`sessions
      ensures var all := old(sessions); sessions == all.Remove(set t | t in all.at && all.at[t].expiresAt <= now)
    {
      hide Minus, Distinct;
      var all, gone := sessions, {};
      RemoveNothing(all);
      for n := 0 to |all.order|
        invariant sessions == all.Remove(gone)
        invariant forall j :: 0 <= j < n ==> all.order[j] in all.at
        invariant gone == set j | 0 <= j < n && all.at[all.order[j]].expiresAt <= now :: all.order[j]
      {
        assert all.order[n] in all.order;
        if all.at[all.order[n]].expiresAt <= now {
          RemoveTwice(all, gone, {all.order[n]});
          sessions := sessions.Remove({all.order[n]});
          gone := gone + {all.order[n]};
        }
      }
      assert gone == set t | t in all.at && all.at[t].expiresAt <= now;
    }

    method PruneAmbiguous(now: int)
      requires ambiguousTokens.Valid()
      modifies this`ambiguousTokens
      ensures var all := old(ambiguousTokens); ambiguousTokens == all.Remove(set t | t in all.at && all.at[t] <= now)
    {
      hide Minus, Distinct;
      var all, gone := ambiguousTokens, {};
      RemoveNothing(all);
      for n := 0 to |all.order|
        invariant ambiguousTokens == all.Remove(gone)
        invariant forall j :: 0 <= j < n ==> all.order[j] in all.at
        invariant gone == set j | 0 <= j < n && all.at[all.order[j]] <= now :: all.order[j]
      {
        assert all.order[n] in all.order;
        if all.at[all.order[n]] <= now {
          RemoveTwice(all, gone, {all.order[n]});
          ambiguousTokens := ambiguousTokens.Remove({all.order[n]});
          gone := gone + {all.order[n]};
        }
      }
      assert gone == set t | t in all.at && all.at[t] <= now;
    }

    /** `pruneExpired`: two passes, over the sessions and over the ambiguity records. */
    method PruneExpired(now: int)
      requires sessions.Valid() && ambiguousTokens.Valid()
      modifies this`sessions, this`ambiguousTokens
      ensures View() == SessionRefreshState.PruneExpired(old(View()), now)
    {
      hide GraphView, LeaseView, OrderedMap.Remove;
      PruneSessions(now);
      PruneAmbiguous(now);
    }

    method EvictOldestLeases()
      requires refreshCookieLeases.Valid()
      requires forall t :: t in refreshCookieLeases.at ==> refreshCookieLeases.at[t] in allLeases
      modifies this`refreshCookieLeases, allLeases
      ensures (refreshCookieLeases, LeaseView()) == old(EvictLeases(refreshCookieLeases, LeaseView(), config.CacheLimit()))
    {
      hide Minus, Distinct, GraphView, LeaseView;
      ghost var result := EvictLeases(refreshCookieLeases, LeaseView(), config.CacheLimit());
      while |refreshCookieLeases.order| > config.CacheLimit()
        invariant refreshCookieLeases.Valid()
        invariant forall t :: t in refreshCookieLeases.at ==> refreshCookieLeases.at[t] in allLeases
        invariant EvictLeases(refreshCookieLeases, LeaseView(), config.CacheLimit()) == result
        decreases |refreshCookieLeases.order|
      {
        assert refreshCookieLeases.order[0] in refreshCookieLeases.order;
        refreshCookieLeases.DropOldestValid();
        SetInactive(refreshCookieLeases.at[refreshCookieLeases.order[0]]);
        refreshCookieLeases := refreshCookieLeases.DropOldest();
      }
    }

    /** `cacheRefreshCookieLease`, for the lease that `rotate` has just made. */
    method CacheRefreshCookieLease(refreshToken: string, lease: CookieLease)
      requires refreshCookieLeases.Valid() && lease in allLeases
      requires forall t :: t in refreshCookieLeases.at ==> refreshCookieLeases.at[t] in allLeases
      modifies this`refreshCookieLeases, allLeases
      ensures View() == CacheLease(old(View()), refreshToken, lease)
    {
      hide Minus, Distinct, GraphView, LeaseView, EvictLeases;
      refreshCookieLeases.PutValid(refreshToken, lease);
      if refreshToken in refreshCookieLeases.at && refreshCookieLeases.at[refreshToken] != lease {
        SetInactive(refreshCookieLeases.at[refreshToken]);
      }
      refreshCookieLeases := refreshCookieLeases.Put(refreshToken, lease);
      EvictOldestLeases();
    }

    method QuarantineAmbiguousToken(refreshToken: string, now: int, later: int)
      modifies this`sessions, this`ambiguousTokens
      ensures View() == Quarantine(old(View()), refreshToken, now, later)
    {
      hide GraphView, LeaseView, OrderedMap.Put;
      ambiguousTokens := ambiguousTokens.Put(refreshToken, now + config.ambiguityHistoryTtl);
      ghost var put := ambiguousTokens;
      while |ambiguousTokens.order| > config.CacheLimit()
        invariant ambiguousTokens.Trim(config.CacheLimit()) == put.Trim(config.CacheLimit()) && sessions == old(sessions)
        decreases |ambiguousTokens.order|
      {
        ambiguousTokens := ambiguousTokens.DropOldest();
      }
      CacheSession(refreshToken, Ambiguous(later + config.ambiguousTokenGrace));
    }

    method QuarantineKnownAmbiguousToken(refreshToken: string, now: int, later: int) returns (known: bool)
      modifies this`sessions, this`ambiguousTokens
      ensures View() == QuarantineKnown(old(View()), refreshToken, now, later)
      ensures known == KnownAmbiguous(old(View()), refreshToken, now)
    {
      hide GraphView, LeaseView, OrderedMap.Put, OrderedMap.Remove;
      if refreshToken !in ambiguousTokens.at || ambiguousTokens.at[refreshToken] <= now {
        ambiguousTokens := ambiguousTokens.Remove({refreshToken});
        return false;
      }
      var historyExpiresAt := ambiguousTokens.at[refreshToken];
      ambiguousTokens := ambiguousTokens.Put(refreshToken, historyExpiresAt);
      CacheSession(refreshToken, Ambiguous(Min(later + config.ambiguousTokenGrace, historyExpiresAt)));
      return true;
    }

    /** `shouldSetRefreshCookie`. */
    method ShouldSetRefreshCookie(requestRefreshToken: string, result: Outcome) returns (answer: bool)
      requires Inv(View())
      ensures answer == ShouldSetCookie(View(), requestRefreshToken, result)
    {
      hide OrderedMap.Valid, RotationsInv, SessionsInv, GuardsInv, GraphInv;
      if !result.SignedIn? || result.result.refreshToken == requestRefreshToken
         || result.result !in resultRefreshCookieLeases {
        return false;
      }
      var lease := resultRefreshCookieLeases[result.result];
      assert lease in View().active;
      assert lease.requestGuard in View().graph && lease.resultGuard in View().graph;
      answer := lease.active && !lease.requestGuard.invalidated && !lease.resultGuard.invalidated
        && result.result.refreshToken in refreshCookieLeases.at
        && refreshCookieLeases.at[result.result.refreshToken] == lease;
    }

    /** `touchRefreshCookieLease`. */
    method TouchRefreshCookieLease(refreshToken: string)
      modifies this`refreshCookieLeases
      ensures refreshCookieLeases ==
        if refreshToken in old(refreshCookieLeases.at)
        then old(refreshCookieLeases).Put(refreshToken, old(refreshCookieLeases.at)[refreshToken])
        else old(refreshCookieLeases)
    {
      if refreshToken in refreshCookieLeases.at {
        refreshCookieLeases := refreshCookieLeases.Put(refreshToken, refreshCookieLeases.at[refreshToken]);
      }
    }

    method Settle(i: nat, outcome: Outcome)
      requires i in rotations
      modifies this`rotations
      ensures View() == SessionRefreshState.Settle(old(View()), i, outcome)
    {
      hide GraphView, LeaseView;
      rotations := rotations[i := rotations[i].(phase := Settled(outcome))];
    }

    /** `refresh` once the token's guard is known. */
    method Answer(refreshToken: string, guard: TokenGuard, i: nat) returns (reply: RefreshReply)
      requires guard in allGuards && i !in rotations
      modifies this`sessions, this`refreshCookieLeases, this`inFlight, this`rotations
      ensures reply == Lookup(old(View()), refreshToken, guard, i)
      ensures View() == AfterLookup(old(View()), refreshToken, guard, i)
    {
      GuardView(guard);
      hide GraphView, LeaseView, OrderedMap.Put;
      if guard.invalidated {
        return RefreshReply.Answer(Unauthorized);
      }
      if refreshToken in sessions.at {
        match sessions.at[refreshToken] {
          case Live(_, result) =>
            sessions := sessions.Put(refreshToken, sessions.at[refreshToken]);
            TouchRefreshCookieLease(refreshToken);
            return RefreshReply.Answer(SignedIn(result));
          case _ => return RefreshReply.Answer(Unavailable);
        }
      }
      if refreshToken in inFlight {
        return Join(inFlight[refreshToken]);
      }
      inFlight := inFlight[refreshToken := i];
      rotations := rotations[i := Rotation(refreshToken, guard, AwaitingResponse)];
      return Start(i);
    }

    /** `refresh`, up to the point where it answers, waits for a rotation in flight, or starts one. */
    method Refresh(refreshToken: string, now: int, i: nat) returns (reply: RefreshReply, ghost made: TokenGuard)
      requires Inv(View()) && i !in rotations
      modifies this`sessions, this`ambiguousTokens, this`refreshCookieLeases, this`refreshTokenGuards, this`allGuards,
        this`inFlight, this`rotations, allGuards
      ensures View() == RefreshStep(old(View()), refreshToken, now, made, i)
      ensures reply == RefreshReplyOf(old(View()), refreshToken, now, made, i)
    {
      ghost var s := View();
      hide Inv, OrderedMap.Valid, GraphView, LeaseView, SessionRefreshState.PruneExpired, GetGuard, Lookup, AfterLookup;
      TablesValid(s);
      PruneKeeps(s, now);
      PruneExpired(now);
      var guard := GetRefreshTokenGuard(refreshToken);
      made := guard;
      KnownGuards();
      reply := Answer(refreshToken, guard, i);
    }

    /** The upstream call of a rotation failed or timed out. */
    method RotateRejected(i: nat, now: int, later: int)
      requires Inv(View()) && i in rotations
      modifies this`sessions, this`ambiguousTokens, this`rotations
      ensures View() == RejectStep(old(View()), i, now, later)
    {
      var guard := rotations[i].guard;
      FlyingGuard(View(), i);
      hide Inv, LeaseView, OrderedMap.Put, OrderedMap.Trim;
      if guard.invalidated {
        Settle(i, Unauthorized);
      } else {
        QuarantineAmbiguousToken(rotations[i].token, now, later);
        Settle(i, Unavailable);
      }
    }

    /** The upstream refused the token. */
    method RotateDenied(i: nat, now: int, later: int)
      requires i in rotations && LeasesInv(refreshCookieLeases, LeaseView())
      modifies this`sessions, this`ambiguousTokens, this`refreshCookieLeases, this`rotations, allLeases
      ensures View() == RefusedStep(old(View()), i, now, later)
    {
      hide LeasesInv, GraphView, LeaseView, RetireLeases, QuarantineKnown;
      ghost var s := View();
      QuarantineFrame(s, rotations[i].token, now, later);
      var known := QuarantineKnownAmbiguousToken(rotations[i].token, now, later);
      if known {
        Settle(i, Unavailable);
      } else {
        RetireRefreshCookieLease(rotations[i].token);
        Settle(i, Unauthorized);
      }
    }

    /** The upstream call of a rotation returned a response. */
    method RotateResponded(i: nat, reply: Reply, now: int, later: int)
      requires Inv(View()) && i in rotations
      modifies this`sessions, this`ambiguousTokens, this`refreshCookieLeases, this`rotations, allLeases
      ensures View() == RespondStep(old(View()), i, reply, now, later)
    {
      hide Inv, LeasesInv, GraphView, LeaseView, RefusedStep;
      var r := rotations[i];
      FlyingGuard(View(), i);
      StateLeases(View());
      KnownGuards();
      ViewParts();
      GuardView(r.guard);
      if r.guard.invalidated {
        Settle(i, Unauthorized);
        return;
      }
      match reply {
        case Ok => rotations := rotations[i := r.(phase := AwaitingBody)];
        case OtherFailure => Settle(i, Unavailable);
        case Denied401 => RotateDenied(i, now, later);
      }
    }

    /** The `finally` callback of a rotation. */
    method Finish(i: nat) returns (outcome: Outcome)
      requires i in rotations && rotations[i].phase.Settled?
      modifies this`inFlight, this`rotations
      ensures View() == FinishStep(old(View()), i) && outcome == old(rotations)[i].phase.outcome
    {
      hide GraphView, LeaseView;
      outcome := rotations[i].phase.outcome;
      inFlight := inFlight - {rotations[i].token};
      rotations := rotations - {i};
    }

    /** The response body of a rotation has no tokens in it. */
    method RotateBadBody(i: nat, now: int, later: int)
      requires i in rotations
      modifies this`sessions, this`ambiguousTokens, this`rotations
      ensures View() == BadBodyStep(old(View()), i, now, later)
    {
      hide GraphView, LeaseView, OrderedMap.Put, OrderedMap.Trim;
      QuarantineAmbiguousToken(rotations[i].token, now, later);
      Settle(i, Unavailable);
    }

    method LinkGuards(guard: TokenGuard, resultGuard: TokenGuard)
      requires guard in allGuards && resultGuard in allGuards
      modifies guard`successors, resultGuard`predecessors
      ensures guard in old(GraphView()) && resultGuard in old(GraphView())
      ensures GraphView() == Link(old(GraphView()), guard, resultGuard)
    {
      guard.successors := guard.successors + {resultGuard};
      resultGuard.predecessors := resultGuard.predecessors + {guard};
    }

    method CreateLease(guard: TokenGuard, resultGuard: TokenGuard) returns (lease: CookieLease)
      modifies this`allLeases
      ensures fresh(lease) && lease.requestGuard == guard && lease.resultGuard == resultGuard
      ensures allLeases == old(allLeases) + {lease} && LeaseView() == old(LeaseView())[lease := true]
    {
      lease := new CookieLease(guard, resultGuard);
      allLeases := allLeases + {lease};
    }

    /** Link the two guards of a rotation and forget that its token was ambiguous. */
    method RecordLink(token: string, guard: TokenGuard, resultGuard: TokenGuard)
      requires guard in allGuards && resultGuard in allGuards
      modifies this`ambiguousTokens, guard`successors, resultGuard`predecessors
      ensures guard in old(View()).graph && resultGuard in old(View()).graph
      ensures View() == LinkResult(old(View()), token, guard, resultGuard)
    {
      KnownGuards();
      hide GraphView, LeaseView, Link, OrderedMap.Remove;
      LinkGuards(guard, resultGuard);
      ambiguousTokens := ambiguousTokens.Remove({token});
    }

    /** Replace the lease of a rotated token by a new one, stored under the result's token. */
    method RecordLease(token: string, result: AuthenticatedResult, guard: TokenGuard, resultGuard: TokenGuard)
      returns (lease: CookieLease)
      requires LeasesInv(refreshCookieLeases, LeaseView())
      modifies this`refreshCookieLeases, this`allLeases, this`resultRefreshCookieLeases, allLeases
      ensures fresh(lease) && lease.requestGuard == guard && lease.resultGuard == resultGuard
      ensures View() == LeaseResult(old(View()), token, result, lease)
    {
      ghost var s := View();
      hide LeasesInv, GraphView, LeaseView, RetireLeases, CacheLease, OrderedMap.Valid;
      RetireRefreshCookieLease(token);
      RetireKeeps(s.leases, s.active, s, {token});
      LeasesKnown(View());
      KnownLeases();
      lease := CreateLease(guard, resultGuard);
      resultRefreshCookieLeases := resultRefreshCookieLeases[result := lease];
      CacheRefreshCookieLease(result.refreshToken, lease);
    }

    method RecordSessions(token: string, result: AuthenticatedResult, now: int, later: int)
      modifies this`sessions
      ensures View() == CacheResult(old(View()), token, result, now, later)
    {
      hide GraphView, LeaseView, Cache;
      CacheSession(token, Stale(now + config.oldTokenGrace));
      CacheSession(result.refreshToken, Live(later + config.sessionCacheTtl, result));
    }

    /** `rotate` after its last check. */
    method InstallResult(i: nat, result: AuthenticatedResult, guard: TokenGuard, resultGuard: TokenGuard, now: int, later: int)
      returns (lease: CookieLease)
      requires i in rotations && guard in allGuards && resultGuard in allGuards
      requires LeasesInv(refreshCookieLeases, LeaseView())
      modifies this`sessions, this`ambiguousTokens, this`refreshCookieLeases, this`allLeases,
        this`resultRefreshCookieLeases, this`rotations, allGuards, allLeases
      ensures fresh(lease) && lease.requestGuard == guard && lease.resultGuard == resultGuard
      ensures guard in old(View()).graph && resultGuard in old(View()).graph
      ensures View() == Install(old(View()), i, result, guard, resultGuard, lease, now, later)
    {
      ghost var s := View();
      var token := rotations[i].token;
      KnownGuards();
      hide LeasesInv, GraphView, LeaseView, LeaseResult, CacheResult, LinkResult;
      RecordLink(token, guard, resultGuard);
      LinkLeasesAlone(s, token, guard, resultGuard);
      ViewParts();
      lease := RecordLease(token, result, guard, resultGuard);
      RecordSessions(token, result, now, later);
      Settle(i, SignedIn(result));
    }

    /** The response body of a rotation carries an access and a refresh token. */
    method RotateGoodBody(i: nat, accessToken: string, refreshToken: string, now: int, later: int)
      returns (result: AuthenticatedResult, ghost made: TokenGuard, ghost lease: CookieLease?)
      requires Inv(View()) && i in rotations
      modifies this`sessions, this`ambiguousTokens, this`refreshCookieLeases, this`refreshTokenGuards, this`allGuards,
        this`allLeases, this`resultRefreshCookieLeases, this`rotations, allGuards, allLeases
      ensures fresh(result) && result.accessToken == accessToken && result.refreshToken == refreshToken
      ensures old(rotations[i].guard in View().graph && StoredInGraph(View(), refreshToken))
      ensures lease != null ==> fresh(lease) && View() == GoodBodyStep(old(View()), i, result, made, lease, now, later)
      ensures lease == null ==>
        var q := GetGuard(old(View()), refreshToken, made);
        && (Dead(q, old(rotations[i].guard)) || Dead(q, GuardOf(old(View()), refreshToken, made)))
        && View() == SessionRefreshState.Settle(q, i, Unauthorized)
    {
      ghost var s := View();
      hide Inv, GraphView, LeaseView, GetGuard, Install;
      result := new AuthenticatedResult(accessToken, refreshToken);
      KnownGuards();
      FlyingGuard(s, i);
      GuardsStored(s, refreshToken);
      var guard := rotations[i].guard;
      var resultGuard := GetRefreshTokenGuard(refreshToken);
      made := resultGuard;
      GetKeeps(s, refreshToken, resultGuard);
      GuardView(guard);
      GuardView(resultGuard);
      if guard.invalidated || resultGuard.invalidated {
        lease := null;
        Settle(i, Unauthorized);
        return;
      }
      StateLeases(View());
      lease := InstallResult(i, result, guard, resultGuard, now, later);
    }

    method CollectRoots() returns (roots: set<TokenGuard>)
      ensures roots == Roots(View())
    {
      hide GraphView, LeaseView;
      var leased := set t | t in sessions.at && sessions.at[t].Live? && sessions.at[t].result in resultRefreshCookieLeases;
      assert leased == LeasedSessions(View());
      roots := (set t | t in refreshTokenGuards.at :: refreshTokenGuards.at[t])
        + (set t | t in refreshCookieLeases.at :: refreshCookieLeases.at[t].requestGuard)
        + (set t | t in refreshCookieLeases.at :: refreshCookieLeases.at[t].resultGuard)
        + (set t | t in leased :: resultRefreshCookieLeases[sessions.at[t].result].requestGuard)
        + (set t | t in leased :: resultRefreshCookieLeases[sessions.at[t].result].resultGuard);
    }

    /** The guards one edge away, in either direction. */
    method Neighbours(guard: TokenGuard) returns (next: seq<TokenGuard>)
      requires guard in allGuards
      ensures guard in GraphView()
      ensures forall g :: g in next <==> g in GraphView()[guard].preds + GraphView()[guard].succs
    {
      var before := Elements(guard.predecessors);
      var after := Elements(guard.successors);
      next := before + after;
    }

    /** A worklist walk over both kinds of edges, from `roots` that no edge leads out of. */
    method Reach(roots: set<TokenGuard>) returns (reachable: set<TokenGuard>)
      requires roots <= allGuards && EdgeClosed(GraphView(), roots)
      ensures reachable == roots
    {
      ghost var graph := GraphView();
      hide *;
      reachable := {};
      var pending := Elements(roots);
      StartCovers(roots, pending);
      while pending != []
        invariant Covers(roots, reachable, pending)
        decreases roots - reachable, |pending|
      {
        var guard, rest := pending[|pending| - 1], pending[..|pending| - 1];
        Popped(roots, reachable, pending);
        if guard in reachable {
          pending := rest;
        } else {
          var next := Neighbours(guard);
          ClosedAt(graph, roots, guard);
          Covered(roots, reachable, rest, guard, next);
          reachable := reachable + {guard};
          pending := rest + next;
        }
      }
      CoversAll(roots, reachable);
    }

    /** `countReachableTokenGuards`: count what is reached from every guard held anywhere. */
    method CountReachableTokenGuards() returns (count: nat)
      requires Inv(View())
      ensures count == |Roots(View())| && count <= 6 * config.CacheLimit()
    {
      hide Inv, Roots, EdgeClosed, GraphView, LeaseView;
      RootsClosed(View());
      ReachableBound(View());
      KnownGuards();
      ViewParts();
      var roots := CollectRoots();
      var reachable := Reach(roots);
      count := |reachable|;
    }

    /** `getStats`: the sizes after pruning, every one of them bounded. */
    method GetStats(now: int)
      returns (ambiguousEntries: nat, cachedEntries: nat, inFlightEntries: nat, reachableTokenGuards: nat, tokenGuards: nat)
      requires Inv(View())
      modifies this`sessions, this`ambiguousTokens
      ensures View() == SessionRefreshState.PruneExpired(old(View()), now)
      ensures ambiguousEntries == |ambiguousTokens.order| <= config.CacheLimit()
      ensures cachedEntries == |sessions.order| <= config.CacheLimit()
      ensures tokenGuards == |refreshTokenGuards.order| <= config.GuardLimit()
      ensures reachableTokenGuards == |Roots(View())| <= 6 * config.CacheLimit()
      ensures inFlightEntries == |inFlight.Keys|
    {
      hide Inv, GraphView, LeaseView, Roots, SessionRefreshState.PruneExpired, OrderedMap.Valid;
      TablesValid(View());
      PruneKeeps(View(), now);
      PruneExpired(now);
      TablesValid(View());
      reachableTokenGuards := CountReachableTokenGuards();
      ambiguousEntries, cachedEntries := |ambiguousTokens.order|, |sessions.order|;
      inFlightEntries, tokenGuards := |inFlight.Keys|, |refreshTokenGuards.order|;
    }
  }
}
