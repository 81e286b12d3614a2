// The dashboard session-refresh coordinator as a state machine: one step for
// each stretch of code that runs without giving up control, that is, between
// two `await` points of `refresh`, `rotate` and their callers.  Object
// identities (token guards, cookie leases, results) stand for themselves.
module SessionRefreshState {
  import opened InsertionOrderedMap

  class AuthenticatedResult {
    const accessToken: string
    const refreshToken: string

    constructor (accessToken: string, refreshToken: string)
      ensures this.accessToken == accessToken && this.refreshToken == refreshToken
    {
      this.accessToken, this.refreshToken := accessToken, refreshToken;
    }
  }

  class TokenGuard {
    const refreshToken: string
    var invalidated: bool
    var predecessors: set<TokenGuard>
    var successors: set<TokenGuard>

    constructor (refreshToken: string)
      ensures this.refreshToken == refreshToken
      ensures !invalidated && predecessors == {} && successors == {}
    {
      this.refreshToken := refreshToken;
      invalidated, predecessors, successors := false, {}, {};
    }
  }

  class CookieLease {
    var active: bool
    const requestGuard: TokenGuard
    const resultGuard: TokenGuard

    constructor (requestGuard: TokenGuard, resultGuard: TokenGuard)
      ensures active && this.requestGuard == requestGuard && this.resultGuard == resultGuard
    {
      active, this.requestGuard, this.resultGuard := true, requestGuard, resultGuard;
    }
  }

  datatype Session =
    | Live(expiresAt: int, result: AuthenticatedResult)
    | Stale(expiresAt: int)
    | Ambiguous(expiresAt: int)

  datatype Outcome = SignedIn(result: AuthenticatedResult) | Unauthorized | Unavailable

  /** Where a rotation waits: for the upstream response, for its body, or for its `finally` callback. */
  datatype Phase = AwaitingResponse | AwaitingBody | Settled(outcome: Outcome)

  datatype Rotation = Rotation(token: string, guard: TokenGuard, phase: Phase)

  datatype Config = Config(
    maxCacheEntries: int,
    ambiguityHistoryTtl: int,
    ambiguousTokenGrace: int,
    oldTokenGrace: int,
    sessionCacheTtl: int)
  {
    function CacheLimit(): nat { if maxCacheEntries > 1 then maxCacheEntries else 1 }
    function GuardLimit(): nat { if CacheLimit() * 2 > 2 then CacheLimit() * 2 else 2 }
  }

  /** What a guard object holds. */
  datatype Node = Node(dead: bool, preds: set<TokenGuard>, succs: set<TokenGuard>)

  type Graph = map<TokenGuard, Node>

  datatype State = State(
    config: Config,
    graph: Graph,                              // every guard ever created
    guards: OrderedMap<TokenGuard>,            // refreshTokenGuards
    sessions: OrderedMap<Session>,
    ambiguous: OrderedMap<int>,                // ambiguousTokens
    leases: OrderedMap<CookieLease>,           // refreshCookieLeases
    active: map<CookieLease, bool>,            // every lease ever created
    owner: map<AuthenticatedResult, CookieLease>,  // resultRefreshCookieLeases
    inFlight: map<string, nat>,
    rotations: map<nat, Rotation>)

  function Init(config: Config): State {
    var none := OrderedMap([], map[]);
    State(config, map[], none, OrderedMap([], map[]), OrderedMap([], map[]), OrderedMap([], map[]), map[], map[], map[], map[])
  }

  // ---------------------------------------------------------------- the invariant

  /** Predecessor and successor edges are each other's inverses. */
  ghost predicate EdgesInv(graph: Graph) {
    && (forall g, h :: g in graph && h in graph[g].succs ==> h in graph && g in graph[h].preds)
    && (forall g, h :: g in graph && h in graph[g].preds ==> h in graph && g in graph[h].succs)
  }

  ghost predicate GraphInv(graph: Graph) {
    && EdgesInv(graph)
    && (forall g :: g in graph && graph[g].dead ==> graph[g].preds == {} && graph[g].succs == {})
  }

  ghost predicate GuardsInv(graph: Graph, guards: OrderedMap<TokenGuard>) {
    && guards.Valid()
    && (forall t :: t in guards.at ==> guards.at[t] in graph && guards.at[t].refreshToken == t)
    && (forall g :: g in graph && !graph[g].dead ==> Stored(guards, g))
  }

  ghost predicate Stored(guards: OrderedMap<TokenGuard>, g: TokenGuard) {
    g.refreshToken in guards.at && guards.at[g.refreshToken] == g
  }

  ghost predicate LeasesInv(leases: OrderedMap<CookieLease>, active: map<CookieLease, bool>) {
    && leases.Valid()
    && (forall t :: t in leases.at ==> leases.at[t] in active && leases.at[t].resultGuard.refreshToken == t)
    && (forall l :: l in active ==> (active[l] <==> StoredLease(leases, l)))
  }

  ghost predicate LeaseGuardsInv(leases: set<CookieLease>, guards: set<TokenGuard>) {
    forall l :: l in leases ==> l.requestGuard in guards && l.resultGuard in guards
  }

  ghost predicate StoredLease(leases: OrderedMap<CookieLease>, l: CookieLease) {
    l.resultGuard.refreshToken in leases.at && leases.at[l.resultGuard.refreshToken] == l
  }

  /** Each result has its own lease, for its own refresh token. */
  ghost predicate OwnersInv(owner: map<AuthenticatedResult, CookieLease>, leases: set<CookieLease>) {
    && (forall r :: r in owner ==> owner[r] in leases && owner[r].resultGuard.refreshToken == r.refreshToken)
    && (forall q, r :: q in owner && r in owner && owner[q] == owner[r] ==> q == r)
  }

  ghost predicate SessionsInv(sessions: OrderedMap<Session>, results: set<AuthenticatedResult>) {
    && sessions.Valid()
    && (forall t :: t in sessions.at && sessions.at[t].Live? ==>
          sessions.at[t].result in results && sessions.at[t].result.refreshToken == t)
  }

  ghost predicate LimitsInv(s: State) {
    && |s.guards.order| <= s.config.GuardLimit()
    && |s.sessions.order| <= s.config.CacheLimit()
    && |s.ambiguous.order| <= s.config.CacheLimit()
    && |s.leases.order| <= s.config.CacheLimit()
  }

  /** The rotations in flight are exactly the ones listed under their tokens: one per token. */
  ghost predicate RotationsInv(inFlight: map<string, nat>, rotations: map<nat, Rotation>,
                               guards: set<TokenGuard>, results: set<AuthenticatedResult>) {
    && (forall t :: t in inFlight ==> inFlight[t] in rotations && rotations[inFlight[t]].token == t)
    && (forall i :: i in rotations ==> Flying(inFlight, i, rotations[i], guards, results))
  }

  ghost predicate Flying(inFlight: map<string, nat>, i: nat, r: Rotation,
                         guards: set<TokenGuard>, results: set<AuthenticatedResult>) {
    && r.token in inFlight && inFlight[r.token] == i
    && r.guard in guards && r.guard.refreshToken == r.token
    && (r.phase.Settled? && r.phase.outcome.SignedIn? ==> r.phase.outcome.result in results)
  }

  ghost predicate Inv(s: State) {
    && GraphInv(s.graph) && GuardsInv(s.graph, s.guards)
    && LeasesInv(s.leases, s.active) && LeaseGuardsInv(s.active.Keys, s.graph.Keys)
    && OwnersInv(s.owner, s.active.Keys) && SessionsInv(s.sessions, s.owner.Keys)
    && s.ambiguous.Valid() && LimitsInv(s)
    && RotationsInv(s.inFlight, s.rotations, s.graph.Keys, s.owner.Keys)
  }

  // ---------------------------------------------------------------- the small operations

  /** Kill the guards of `dying` and cut every edge at one of the guards of `cut`. */
  function Cut(graph: Graph, cut: set<TokenGuard>, dying: set<TokenGuard>): Graph {
    map g | g in graph ::
      Node(graph[g].dead || g in dying,
           if g in cut then {} else graph[g].preds - cut,
           if g in cut then {} else graph[g].succs - cut)
  }

  function Tokens(gs: set<TokenGuard>): set<string> { set g | g in gs :: g.refreshToken }

  /** Evict the oldest guard, invalidated and unlinked, while there are more than `limit`. */
  function EvictGuards(graph: Graph, guards: OrderedMap<TokenGuard>, limit: nat): (r: (Graph, OrderedMap<TokenGuard>))
    ensures r.0.Keys == graph.Keys
    decreases |guards.order|
  {
    if |guards.order| <= limit || guards.order[0] !in guards.at then (graph, guards)
    else
      var oldest := guards.at[guards.order[0]];
      EvictGuards(Cut(graph, {oldest}, {oldest}), guards.DropOldest(), limit)
  }

  /** `getRefreshTokenGuard`; `made` is the guard object it creates when the token has none. */
  function GetGuard(s: State, token: string, made: TokenGuard): State {
    if token in s.guards.at then s.(guards := s.guards.Put(token, s.guards.at[token]))
    else
      var (graph, guards) :=
        EvictGuards(s.graph[made := Node(false, {}, {})], s.guards.Put(token, made), s.config.GuardLimit());
      s.(graph := graph, guards := guards)
  }

  /** The guard that `getRefreshTokenGuard` returns. */
  function GuardOf(s: State, token: string, made: TokenGuard): TokenGuard {
    if token in s.guards.at then s.guards.at[token] else made
  }

  function RetireLeases(s: State, tokens: set<string>): State {
    s.(leases := s.leases.Remove(tokens),
       active := map l | l in s.active ::
         s.active[l] && !(exists t :: t in tokens && t in s.leases.at && s.leases.at[t] == l))
  }

  /** Invalidate every guard of `dying`, with its session, ambiguity record and lease. */
  function InvalidateAll(s: State, dying: set<TokenGuard>): State {
    var tokens := Tokens(dying);
    RetireLeases(s, tokens).(
      graph := Cut(s.graph, dying, dying),
      sessions := s.sessions.Remove(tokens),
      ambiguous := s.ambiguous.Remove(tokens))
  }

  /** Retire the oldest lease while there are more than `limit`. */
  function EvictLeases(leases: OrderedMap<CookieLease>, active: map<CookieLease, bool>, limit: nat)
    : (OrderedMap<CookieLease>, map<CookieLease, bool>)
    decreases |leases.order|
  {
    if |leases.order| <= limit || leases.order[0] !in leases.at then (leases, active)
    else EvictLeases(leases.DropOldest(), active[leases.at[leases.order[0]] := false], limit)
  }

  function CacheLease(s: State, token: string, lease: CookieLease): State {
    var displaced :=
      if token in s.leases.at && s.leases.at[token] != lease then s.active[s.leases.at[token] := false] else s.active;
    var (leases, active) := EvictLeases(s.leases.Put(token, lease), displaced, s.config.CacheLimit());
    s.(leases := leases, active := active)
  }

  function Cache(s: State, token: string, session: Session): State {
    s.(sessions := s.sessions.Put(token, session).Trim(s.config.CacheLimit()))
  }

  function PruneExpired(s: State, now: int): State {
    s.(sessions := s.sessions.Remove(set t | t in s.sessions.at && s.sessions.at[t].expiresAt <= now),
       ambiguous := s.ambiguous.Remove(set t | t in s.ambiguous.at && s.ambiguous.at[t] <= now))
  }

  /** `quarantineAmbiguousToken`, which reads the clock twice. */
  function Quarantine(s: State, token: string, now: int, later: int): State {
    var a := s.ambiguous.Put(token, now + s.config.ambiguityHistoryTtl).Trim(s.config.CacheLimit());
    Cache(s.(ambiguous := a), token, Ambiguous(later + s.config.ambiguousTokenGrace))
  }

  predicate KnownAmbiguous(s: State, token: string, now: int) {
    token in s.ambiguous.at && s.ambiguous.at[token] > now
  }

  function Min(a: int, b: int): int { if a <= b then a else b }

  /** `quarantineKnownAmbiguousToken`; its boolean result is `KnownAmbiguous`. */
  function QuarantineKnown(s: State, token: string, now: int, later: int): State {
    if !KnownAmbiguous(s, token, now) then s.(ambiguous := s.ambiguous.Remove({token}))
    else
      var history := s.ambiguous.at[token];
      Cache(s.(ambiguous := s.ambiguous.Put(token, history)), token,
            Ambiguous(Min(later + s.config.ambiguousTokenGrace, history)))
  }

  function Settle(s: State, i: nat, outcome: Outcome): State
    requires i in s.rotations
  {
    s.(rotations := s.rotations[i := s.rotations[i].(phase := Settled(outcome))])
  }

  // ---------------------------------------------------------------- the steps

  datatype Reply = Ok | Denied401 | OtherFailure

  datatype Event =
    | Refresh(token: string, now: int, made: TokenGuard, i: nat)
    | Reject(i: nat, now: int, later: int)
    | Respond(i: nat, reply: Reply, now: int, later: int)
    | BadBody(i: nat, now: int, later: int)
    | GoodBody(i: nat, result: AuthenticatedResult, made: TokenGuard, lease: CookieLease, now: int, later: int)
    | Finish(i: nat)
    | Invalidate(token: string, made: TokenGuard)
    | GetStats(now: int)

  /** `refresh` answers at once (Answer), shares a rotation in flight, or starts one. */
  datatype RefreshReply = Answer(outcome: Outcome) | Join(i: nat) | Start(i: nat)

  /** What `refresh` does once `guard` is known to be the token's guard. */
  function Lookup(q: State, token: string, guard: TokenGuard, i: nat): RefreshReply {
    if Dead(q, guard) then Answer(Unauthorized)
    else if token in q.sessions.at then
      match q.sessions.at[token]
      case Live(_, result) => Answer(SignedIn(result))
      case _ => Answer(Unavailable)
    else if token in q.inFlight then Join(q.inFlight[token])
    else Start(i)
  }

  function AfterLookup(q: State, token: string, guard: TokenGuard, i: nat): State {
    match Lookup(q, token, guard, i)
    case Answer(SignedIn(_)) =>
      var touched := q.(sessions := q.sessions.Put(token, q.sessions.at[token]));
      if token in q.leases.at then touched.(leases := q.leases.Put(token, q.leases.at[token])) else touched
    case Start(_) =>
      q.(inFlight := q.inFlight[token := i],
         rotations := q.rotations[i := Rotation(token, guard, AwaitingResponse)])
    case _ => q
  }

  function RefreshReplyOf(s: State, token: string, now: int, made: TokenGuard, i: nat): RefreshReply {
    var p := PruneExpired(s, now);
    Lookup(GetGuard(p, token, made), token, GuardOf(p, token, made), i)
  }

  function RefreshStep(s: State, token: string, now: int, made: TokenGuard, i: nat): State {
    var p := PruneExpired(s, now);
    AfterLookup(GetGuard(p, token, made), token, GuardOf(p, token, made), i)
  }

  predicate Dead(s: State, g: TokenGuard) { g in s.graph && s.graph[g].dead }

  function RejectStep(s: State, i: nat, now: int, later: int): State
    requires i in s.rotations
  {
    var r := s.rotations[i];
    if Dead(s, r.guard) then Settle(s, i, Unauthorized)
    else Settle(Quarantine(s, r.token, now, later), i, Unavailable)
  }

  function RefusedStep(s: State, i: nat, now: int, later: int): State
    requires i in s.rotations
  {
    var token := s.rotations[i].token;
    var q := QuarantineKnown(s, token, now, later);
    if KnownAmbiguous(s, token, now) then Settle(q, i, Unavailable)
    else Settle(RetireLeases(q, {token}), i, Unauthorized)
  }

  function RespondStep(s: State, i: nat, reply: Reply, now: int, later: int): State
    requires i in s.rotations
  {
    var r := s.rotations[i];
    if Dead(s, r.guard) then Settle(s, i, Unauthorized)
    else
      match reply
      case Ok => s.(rotations := s.rotations[i := r.(phase := AwaitingBody)])
      case OtherFailure => Settle(s, i, Unavailable)
      case Denied401 => RefusedStep(s, i, now, later)
  }

  function BadBodyStep(s: State, i: nat, now: int, later: int): State
    requires i in s.rotations
  {
    Settle(Quarantine(s, s.rotations[i].token, now, later), i, Unavailable)
  }

  function Link(graph: Graph, g: TokenGuard, h: TokenGuard): Graph
    requires g in graph && h in graph
  {
    var one := graph[g := graph[g].(succs := graph[g].succs + {h})];
    one[h := one[h].(preds := one[h].preds + {g})]
  }

  /** Record that the rotation of `token` led from guard `g` to guard `h`. */
  function LinkResult(s: State, token: string, g: TokenGuard, h: TokenGuard): State
    requires g in s.graph && h in s.graph
  {
    s.(graph := Link(s.graph, g, h), ambiguous := s.ambiguous.Remove({token}))
  }

  function LeaseResult(s: State, token: string, result: AuthenticatedResult, lease: CookieLease): State {
    var retired := RetireLeases(s, {token});
    CacheLease(retired.(active := retired.active[lease := true], owner := retired.owner[result := lease]),
               result.refreshToken, lease)
  }

  /** The old token goes stale, then the new one becomes live (also when both are the same token). */
  function CacheResult(s: State, token: string, result: AuthenticatedResult, now: int, later: int): State {
    Cache(Cache(s, token, Stale(now + s.config.oldTokenGrace)),
          result.refreshToken, Live(later + s.config.sessionCacheTtl, result))
  }

  /** The body of `rotate` after its last check. */
  function Install(s: State, i: nat, result: AuthenticatedResult, g: TokenGuard, h: TokenGuard,
                   lease: CookieLease, now: int, later: int): State
    requires i in s.rotations && g in s.graph && h in s.graph
  {
    var token := s.rotations[i].token;
    var leased := LeaseResult(LinkResult(s, token, g, h), token, result, lease);
    Settle(CacheResult(leased, token, result, now, later), i, SignedIn(result))
  }

  function GoodBodyStep(s: State, i: nat, result: AuthenticatedResult, made: TokenGuard,
                        lease: CookieLease, now: int, later: int): State
    requires i in s.rotations && s.rotations[i].guard in s.graph && StoredInGraph(s, result.refreshToken)
  {
    var g := s.rotations[i].guard;
    var h := GuardOf(s, result.refreshToken, made);
    var q := GetGuard(s, result.refreshToken, made);
    if q.graph[g].dead || q.graph[h].dead then Settle(q, i, Unauthorized)
    else Install(q, i, result, g, h, lease, now, later)
  }

  predicate StoredInGraph(s: State, token: string) { token in s.guards.at ==> s.guards.at[token] in s.graph }

  function FinishStep(s: State, i: nat): State
    requires i in s.rotations
  {
    s.(inFlight := s.inFlight - {s.rotations[i].token}, rotations := s.rotations - {i})
  }

  // ---------------------------------------------------------------- invalidation

  /** `h` is reached from `g` along `n` successor edges. */
  ghost predicate Reaches(graph: Graph, g: TokenGuard, h: TokenGuard, n: nat) {
    if n == 0 then g == h else g in graph && exists m :: m in graph[g].succs && Reaches(graph, m, h, n - 1)
  }

  ghost function Family(graph: Graph, g: TokenGuard): set<TokenGuard> {
    set h | h in graph && exists n: nat :: Reaches(graph, g, h, n)
  }

  ghost function InvalidateStep(s: State, token: string, made: TokenGuard): State {
    var q := GetGuard(s, token, made);
    InvalidateAll(q, Family(q.graph, GuardOf(s, token, made)))
  }

  // ---------------------------------------------------------------- runs

  /** When an event can happen: rotations are in the phase it resumes, new objects are new. */
  ghost predicate Enabled(s: State, e: Event) {
    match e
    case Refresh(token, _, made, i) =>
      made !in s.graph && made.refreshToken == token && i !in s.rotations
    case Reject(i, _, _) => i in s.rotations && s.rotations[i].phase.AwaitingResponse?
    case Respond(i, _, _, _) => i in s.rotations && s.rotations[i].phase.AwaitingResponse?
    case BadBody(i, _, _) => i in s.rotations && s.rotations[i].phase.AwaitingBody?
    case GoodBody(i, result, made, lease, _, _) =>
      && i in s.rotations && s.rotations[i].phase.AwaitingBody? && s.rotations[i].guard in s.graph
      && StoredInGraph(s, result.refreshToken)
      && made !in s.graph && made.refreshToken == result.refreshToken
      && result !in s.owner && lease !in s.active
      && lease.requestGuard == s.rotations[i].guard
      && lease.resultGuard == GuardOf(s, result.refreshToken, made)
    case Finish(i) => i in s.rotations && s.rotations[i].phase.Settled?
    case Invalidate(token, made) => made !in s.graph && made.refreshToken == token
    case GetStats(_) => true
  }

  ghost function Step(s: State, e: Event): State
    requires Enabled(s, e)
  {
    match e
    case Refresh(token, now, made, i) => RefreshStep(s, token, now, made, i)
    case Reject(i, now, later) => RejectStep(s, i, now, later)
    case Respond(i, reply, now, later) => RespondStep(s, i, reply, now, later)
    case BadBody(i, now, later) => BadBodyStep(s, i, now, later)
    case GoodBody(i, result, made, lease, now, later) => GoodBodyStep(s, i, result, made, lease, now, later)
    case Finish(i) => FinishStep(s, i)
    case Invalidate(token, made) => InvalidateStep(s, token, made)
    case GetStats(now) => PruneExpired(s, now)
  }

  /** `t` is reached from `s` by the events of `es`, in that order. */
  ghost predicate Run(s: State, es: seq<Event>, t: State)
    decreases |es|
  {
    if es == [] then s == t else Enabled(s, es[0]) && Run(Step(s, es[0]), es[1..], t)
  }

  // ---------------------------------------------------------------- queries

  /** `shouldSetRefreshCookie`. */
  predicate ShouldSetCookie(s: State, requestToken: string, outcome: Outcome) {
    && outcome.SignedIn? && outcome.result.refreshToken != requestToken
    && outcome.result in s.owner
    && var lease := s.owner[outcome.result];
      && lease in s.active && s.active[lease]
      && !Dead(s, lease.requestGuard) && !Dead(s, lease.resultGuard)
      && outcome.result.refreshToken in s.leases.at && s.leases.at[outcome.result.refreshToken] == lease
  }

  /** The guards `countReachableTokenGuards` starts from. */
  function Roots(s: State): set<TokenGuard> {
    (set t | t in s.guards.at :: s.guards.at[t])
    + (set t | t in s.leases.at :: s.leases.at[t].requestGuard)
    + (set t | t in s.leases.at :: s.leases.at[t].resultGuard)
    + (set t | t in LeasedSessions(s) :: s.owner[s.sessions.at[t].result].requestGuard)
    + (set t | t in LeasedSessions(s) :: s.owner[s.sessions.at[t].result].resultGuard)
  }

  function LeasedSessions(s: State): (ts: set<string>)
    ensures forall t :: t in ts <==> t in s.sessions.at && s.sessions.at[t].Live? && s.sessions.at[t].result in s.owner
  {
    set t | t in s.sessions.at && s.sessions.at[t].Live? && s.sessions.at[t].result in s.owner
  }
}
