// Two runs that end badly: replacement memories can close a cycle of merges, and
// a rollback can leave a memory retired that has moved to another application.
module ConsolidationFindings {
  import opened Consolidation
  import opened ConsolidationTheorems
  import opened Wrappers

  const APP := "app"
  const DONE := Export("job", true, true)

  /** In these runs every memory's hash is its own name. */
  function Fresh(m: string): Row { Row(APP, true, false, m, Active, None) }

  function TwoHashes(m: string, n: string): Hashes { map[m := m, n := n] }

  lemma FitsTwo(rows: Rows, p: Proposal, m: string, n: string)
    requires p.sources == [m, n] && p.app == APP && !p.kind.ExactDuplicate?
    requires m in rows && n in rows && rows[m] == Fresh(m) && rows[n] == Fresh(n)
    ensures SourcesFit(rows, p, TwoHashes(m, n))
  {
    assert TwoHashes(m, n).Keys == {m, n} == set x | x in p.sources;
  }

  lemma TargetsTwo(p: Proposal, m: string, n: string)
    requires p.sources == [m, n] && m != n
    ensures p.canonical == Some(m) ==> Targets(p) == [n]
    ensures p.canonical != Some(m) && p.canonical != Some(n) ==> Targets(p) == [m, n]
  {
    assert p.sources[1..] == [n] && p.sources[1..][1..] == [];
    assert Without([], p.canonical) == [];
    assert Without([n], p.canonical) == if p.canonical == Some(n) then [] else [n];
  }

  /** Both sections of an undisturbed, successful `shadow_approved`. */
  function AfterShadow(s: World, attempt: nat, id: nat): World
    requires id in s.proposals
  {
    var p := s.proposals[id];
    s.(rows := Retire(s.rows, id, p),
       proposals := s.proposals[id := ClearAttempt(p).(exportId := Some(DONE.id), notBefore := Some(s.now), status := ShadowedStatus)],
       used := s.used + {attempt},
       retired := s.retired + (map m | m in Targets(p) :: s.tick), tick := s.tick + 1)
  }

  /** The first section: the attempt holds the lease. */
  function Begun(s: World, attempt: nat, id: nat): World
    requires id in s.proposals
  {
    var p := s.proposals[id];
    s.(proposals := s.proposals[id := p.(attempt := Some(attempt), expires := Some(s.now + 600), status := Exporting)],
       shadows := s.shadows[attempt := Shadow(id, p.hashes)], used := s.used + {attempt})
  }

  lemma ShadowBegins(s: World, attempt: nat, id: nat)
    requires id in s.proposals && attempt !in s.used
    requires s.proposals[id].status.Approved? && SourcesFit(s.rows, s.proposals[id], s.proposals[id].hashes)
    ensures Enabled(s, BeginShadow(attempt, id, 600, true)) && Step(s, BeginShadow(attempt, id, 600, true)) == Begun(s, attempt, id)
  {
    hide SourcesFit;
  }

  lemma ShadowEnds(s: World, attempt: nat, id: nat)
    requires id in s.proposals && attempt !in s.shadows
    requires SourcesFit(s.rows, s.proposals[id], s.proposals[id].hashes)
    ensures ShadowedStep(Begun(s, attempt, id), attempt, DONE, true, 0) == AfterShadow(s, attempt, id)
  {
    var p, exporting := s.proposals[id], Begun(s, attempt, id).proposals[id];
    assert SourcesFit(s.rows, exporting, p.hashes) && Targets(exporting) == Targets(p);
    assert Retire(s.rows, id, exporting) == Retire(s.rows, id, p);
    hide SourcesFit, Retire, Targets;
    assert Begun(s, attempt, id).shadows - {attempt} == s.shadows;
  }

  lemma ShadowSteps(s: World, attempt: nat, id: nat)
    requires id in s.proposals && attempt !in s.used && attempt !in s.shadows
    requires s.proposals[id].status.Approved? && SourcesFit(s.rows, s.proposals[id], s.proposals[id].hashes)
    ensures Enabled(s, BeginShadow(attempt, id, 600, true))
    ensures var begun := Step(s, BeginShadow(attempt, id, 600, true));
      Enabled(begun, EndShadow(attempt, DONE, true, 0)) && Step(begun, EndShadow(attempt, DONE, true, 0)) == AfterShadow(s, attempt, id)
  {
    ShadowBegins(s, attempt, id);
    ShadowEnds(s, attempt, id);
    hide SourcesFit, AfterShadow, ShadowedStep, ShadowStep;
  }

  lemma ShadowTwo(s: World, attempt: nat, id: nat, es: seq<Event>, t: World)
    requires id in s.proposals && attempt !in s.used && attempt !in s.shadows
    requires s.proposals[id].status.Approved? && SourcesFit(s.rows, s.proposals[id], s.proposals[id].hashes)
    requires Run(AfterShadow(s, attempt, id), es, t)
    ensures Run(s, [BeginShadow(attempt, id, 600, true), EndShadow(attempt, DONE, true, 0)] + es, t)
  {
    ShadowSteps(s, attempt, id);
    hide Step, Enabled, AfterShadow, SourcesFit;
    var begun := Step(s, BeginShadow(attempt, id, 600, true));
    RunCons(begun, EndShadow(attempt, DONE, true, 0), es, t);
    RunCons(s, BeginShadow(attempt, id, 600, true), [EndShadow(attempt, DONE, true, 0)] + es, t);
    assert [BeginShadow(attempt, id, 600, true), EndShadow(attempt, DONE, true, 0)] + es
        == [BeginShadow(attempt, id, 600, true)] + ([EndShadow(attempt, DONE, true, 0)] + es);
  }

  // ---------------------------------------------------------------- a replacement closes a cycle

  function Near(m: string, n: string): Proposal { NewProposal(APP, NearDuplicate, [m, n], None, true) }

  function Decision(m: string, n: string, c: string): Proposal {
    Near(m, n).(hashes := TwoHashes(m, n), canonical := Some(c), canonicalHash := Some(c), status := Approved)
  }

  function Memories(): Rows { map["a" := Fresh("a"), "b" := Fresh("b"), "r" := Fresh("r")] }

  /** Memories "a" and "b" are to be replaced by "r", and "r" itself is to be merged into "a". */
  function Decided(): World {
    Start(0).(rows := Memories(), proposals := map[0 := Decision("a", "b", "r"), 1 := Decision("a", "r", "a")])
  }

  function Proposing(): seq<Event> {
    [Upsert("a", APP, "a", false), Upsert("b", APP, "b", false), Propose(0, APP, NearDuplicate, ["a", "b"], None, true)]
  }

  function Replacing(): seq<Event> {
    [Replace(0, 0, TwoHashes("a", "b"), true), Upsert("r", APP, "r", false), Replaced(0, "r", "r")]
  }

  function Merging(): seq<Event> {
    [Propose(1, APP, NearDuplicate, ["a", "r"], None, true),
     ApproveIt(1, Approval(ReviewRequired, TwoHashes("a", "r"), Some("a")), true)]
  }

  lemma MergingSteps()
    ensures var s6 := Decided().(proposals := map[0 := Decision("a", "b", "r")]);
      var s7 := s6.(proposals := s6.proposals[1 := Near("a", "r")]);
      && Enabled(s6, Merging()[0]) && Step(s6, Merging()[0]) == s7 && Enabled(s7, Merging()[1]) && Step(s7, Merging()[1]) == Decided()
  {
    FitsTwo(Memories(), Near("a", "r"), "a", "r");
    hide SourcesFit;
  }

  lemma DecideSecond(es: seq<Event>, t: World)
    requires Run(Decided(), es, t)
    ensures Run(Decided().(proposals := map[0 := Decision("a", "b", "r")]), Merging() + es, t)
  {
    var s6 := Decided().(proposals := map[0 := Decision("a", "b", "r")]);
    var s7 := s6.(proposals := s6.proposals[1 := Near("a", "r")]);
    MergingSteps();
    hide Step, Run, Enabled, Decided, Decision;
    RunPair(s6, Merging()[0], Merging()[1], es, t);
    assert Merging() == [Merging()[0], Merging()[1]];
  }

  lemma RunPair(s: World, d: Event, e: Event, es: seq<Event>, t: World)
    requires Enabled(s, d) && Enabled(Step(s, d), e) && Run(Step(Step(s, d), e), es, t)
    ensures Run(s, [d, e] + es, t)
  {
    hide Step, Run, Enabled;
    RunCons(Step(s, d), e, es, t);
    RunCons(s, d, [e] + es, t);
    assert [d, e] + es == [d] + ([e] + es);
  }

  function Proposed(): World {
    Start(0).(rows := map["a" := Fresh("a"), "b" := Fresh("b")], proposals := map[0 := Near("a", "b")])
  }

  lemma ReplacedSteps()
    ensures var s4 := Proposed().(replacing := map[0 := (0, TwoHashes("a", "b"))]); var s5 := s4.(rows := Memories());
      && Enabled(Proposed(), Replacing()[0]) && Step(Proposed(), Replacing()[0]) == s4
      && Enabled(s4, Replacing()[1]) && Step(s4, Replacing()[1]) == s5
      && Enabled(s5, Replacing()[2]) && Step(s5, Replacing()[2]) == Decided().(proposals := map[0 := Decision("a", "b", "r")])
  {
    FitsTwo(Proposed().rows, Near("a", "b"), "a", "b");
    FitsTwo(Memories(), Near("a", "b"), "a", "b");
    hide SourcesFit;
  }

  lemma DecideFirst(es: seq<Event>, t: World)
    requires Run(Decided().(proposals := map[0 := Decision("a", "b", "r")]), es, t)
    ensures Run(Proposed(), Replacing() + es, t)
  {
    var s4 := Proposed().(replacing := map[0 := (0, TwoHashes("a", "b"))]);
    ReplacedSteps();
    hide Step, Run, Enabled, Decided, Decision, Proposed, Memories;
    RunPair(s4, Replacing()[1], Replacing()[2], es, t);
    RunCons(Proposed(), Replacing()[0], [Replacing()[1], Replacing()[2]] + es, t);
    assert Replacing() + es == [Replacing()[0]] + ([Replacing()[1], Replacing()[2]] + es);
  }

  lemma ProposingSteps()
    ensures var s1 := Start(0).(rows := map["a" := Fresh("a")]); var s2 := s1.(rows := s1.rows["b" := Fresh("b")]);
      && Enabled(Start(0), Proposing()[0]) && Step(Start(0), Proposing()[0]) == s1
      && Enabled(s1, Proposing()[1]) && Step(s1, Proposing()[1]) == s2
  {
  }

  lemma ProposingLast()
    ensures var s2 := Start(0).(rows := map["a" := Fresh("a")]["b" := Fresh("b")]);
      Enabled(s2, Proposing()[2]) && Step(s2, Proposing()[2]) == Proposed()
  {
  }

  lemma ProposeFirst(es: seq<Event>, t: World)
    requires Run(Proposed(), es, t)
    ensures Run(Start(0), Proposing() + es, t)
  {
    var s1 := Start(0).(rows := map["a" := Fresh("a")]);
    ProposingSteps();
    ProposingLast();
    hide Step, Run, Enabled, Proposed, Fresh;
    RunPair(s1, Proposing()[1], Proposing()[2], es, t);
    RunCons(Start(0), Proposing()[0], [Proposing()[1], Proposing()[2]] + es, t);
    assert Proposing() + es == [Proposing()[0]] + ([Proposing()[1], Proposing()[2]] + es);
  }

  /** The merge of "r" into "a" is shadowed first, then the replacement of "a" and "b" by "r". */
  function Shadowings(): seq<Event> {
    [BeginShadow(0, 1, 600, true), EndShadow(0, DONE, true, 0), BeginShadow(1, 0, 600, true), EndShadow(1, DONE, true, 0)]
  }

  function Looped(): World { AfterShadow(AfterShadow(Decided(), 0, 1), 1, 0) }

  lemma FirstShadowing()
    ensures var t := AfterShadow(Decided(), 0, 1);
      && "a" in t.rows && "b" in t.rows && t.rows["a"] == Fresh("a") && t.rows["b"] == Fresh("b")
      && "r" in t.rows && Gone(t.rows, "r") && t.rows["r"].shadowedBy == Some(1)
      && t.proposals.Keys == {0, 1} && t.proposals[0] == Decision("a", "b", "r") && t.proposals[1].canonical == Some("a")
      && 1 !in t.used && 1 !in t.shadows && SourcesFit(Decided().rows, Decision("a", "r", "a"), TwoHashes("a", "r"))
  {
    FitsTwo(Decided().rows, Decision("a", "r", "a"), "a", "r");
    TargetsTwo(Decision("a", "r", "a"), "a", "r");
  }

  lemma SecondShadowing(s: World)
    requires s.proposals.Keys == {0, 1} && s.proposals[0] == Decision("a", "b", "r")
    requires "a" in s.rows && "b" in s.rows && s.rows["a"] == Fresh("a") && s.rows["b"] == Fresh("b")
    requires "r" in s.rows && Gone(s.rows, "r") && s.rows["r"].shadowedBy == Some(1)
    ensures var t := AfterShadow(s, 1, 0);
      && Gone(t.rows, "a") && t.rows["a"].shadowedBy == Some(0) && Gone(t.rows, "r") && t.rows["r"].shadowedBy == Some(1)
      && t.proposals[0].canonical == Some("r") && t.proposals[1] == s.proposals[1]
      && SourcesFit(s.rows, s.proposals[0], TwoHashes("a", "b"))
  {
    FitsTwo(s.rows, Decision("a", "b", "r"), "a", "b");
    TargetsTwo(Decision("a", "b", "r"), "a", "b");
  }

  function ShadowTwice(): seq<Event> { [BeginShadow(1, 0, 600, true), EndShadow(1, DONE, true, 0)] + [] }

  lemma ShadowingsRun()
    ensures Run(Decided(), Shadowings(), Looped())
    ensures var t := Looped();
      && Gone(t.rows, "a") && t.rows["a"].shadowedBy == Some(0) && Gone(t.rows, "r") && t.rows["r"].shadowedBy == Some(1)
      && t.proposals[0].canonical == Some("r") && t.proposals[1].canonical == Some("a")
  {
    hide SourcesFit, AfterShadow, Run, Gone, ShadowTwice, Shadowings;
    FirstShadowing();
    SecondShadowing(AfterShadow(Decided(), 0, 1));
    ShadowingOrder();
    SecondRun(AfterShadow(Decided(), 0, 1));
    ShadowTwo(Decided(), 0, 1, ShadowTwice(), Looped());
  }

  lemma ShadowingOrder()
    ensures Shadowings() == [BeginShadow(0, 1, 600, true), EndShadow(0, DONE, true, 0)] + ShadowTwice()
  {
  }

  lemma SecondRun(t: World)
    requires 0 in t.proposals && t.proposals[0] == Decision("a", "b", "r") && 1 !in t.used && 1 !in t.shadows
    requires SourcesFit(t.rows, t.proposals[0], TwoHashes("a", "b"))
    ensures Run(t, ShadowTwice(), AfterShadow(t, 1, 0))
  {
    hide SourcesFit, AfterShadow, Run;
    EmptyRun(AfterShadow(t, 1, 0));
    ShadowTwo(t, 1, 0, [], AfterShadow(t, 1, 0));
  }

  /** With a replacement memory as canonical, a run of the service can lead "a" to "r" and "r" back to "a". */
  lemma ReplacementClosesCycle()
    ensures Run(Start(0), Proposing() + (Replacing() + (Merging() + Shadowings())), Looped())
    ensures Cyclic(LinksOf(Looped().rows, Looped().proposals))
  {
    ShadowingsRun();
    CycleOfTwo(Looped());
    hide *;
    DecideSecond(Shadowings(), Looped());
    DecideFirst(Merging() + Shadowings(), Looped());
    ProposeFirst(Replacing() + (Merging() + Shadowings()), Looped());
  }

  lemma CycleOfTwo(t: World)
    requires Gone(t.rows, "a") && Gone(t.rows, "r") && t.rows["a"].shadowedBy == Some(0) && t.rows["r"].shadowedBy == Some(1)
    requires 0 in t.proposals && 1 in t.proposals
    requires t.proposals[0].canonical == Some("r") && t.proposals[1].canonical == Some("a")
    ensures Cyclic(LinksOf(t.rows, t.proposals))
  {
    var links := LinksOf(t.rows, t.proposals);
    assert PointsSomewhere(t.rows, t.proposals, "a") && PointsSomewhere(t.rows, t.proposals, "r");
    assert links["a"] == "r" && links["r"] == "a";
    assert Follow(links, "a", 2) == Follow(links, "r", 1) == Follow(links, "a", 0);
  }

  // ---------------------------------------------------------------- a rollback misses a memory that moved

  /** "b" is merged into "a", then moves to another application, and the proposal is rolled back. */
  function Moving(): seq<Event> { [Upsert("b", "other", "b", false), Rollback(0)] }

  function Moved(s: World): World
    requires 0 in s.proposals
  {
    RollbackStep(UpsertStep(s, "b", "other", "b", false), 0)
  }

  lemma MovesAndRollsBack(s: World)
    requires 0 in s.proposals && s.proposals[0].status.ShadowedStatus? && s.proposals[0].app == APP
    requires "b" in s.rows && s.rows["b"] == Row(APP, true, false, "b", RowState.Merged, Some(0))
    ensures Run(s, Moving(), Moved(s)) && Moved(s).proposals[0].status.RolledBack?
    ensures Moved(s).rows["b"] == Row("other", true, false, "b", RowState.Merged, Some(0))
  {
    var t1 := Step(s, Moving()[0]);
    assert Step(t1, Moving()[1]) == Moved(s);
    hide RollbackStep, UpsertStep;
    RunCons(t1, Moving()[1], [], Moved(s));
    RunCons(s, Moving()[0], [Moving()[1]], Moved(s));
    assert Moving() == [Moving()[0]] + [Moving()[1]] && [Moving()[1]] == [Moving()[1]] + [];
  }

  /** "b" is to be merged into "a". */
  function Chosen(): World { Proposed().(proposals := map[0 := Decision("a", "b", "a")]) }

  function Choosing(): Event { ApproveIt(0, Approval(ReviewRequired, TwoHashes("a", "b"), Some("a")), true) }

  lemma ChoosingStep()
    ensures Enabled(Proposed(), Choosing()) && Step(Proposed(), Choosing()) == Chosen()
    ensures SourcesFit(Chosen().rows, Decision("a", "b", "a"), TwoHashes("a", "b"))
  {
    FitsTwo(Proposed().rows, Near("a", "b"), "a", "b");
    FitsTwo(Chosen().rows, Decision("a", "b", "a"), "a", "b");
    hide SourcesFit;
  }

  lemma ChosenShadowed()
    ensures var s := AfterShadow(Chosen(), 0, 0);
      && s.proposals.Keys == {0} && s.proposals[0].status.ShadowedStatus? && s.proposals[0].app == APP
      && "b" in s.rows && s.rows["b"] == Row(APP, true, false, "b", RowState.Merged, Some(0))
  {
    TargetsTwo(Decision("a", "b", "a"), "a", "b");
  }

  function MergeAndMove(): seq<Event> { [BeginShadow(0, 0, 600, true), EndShadow(0, DONE, true, 0)] + Moving() }

  /** A run of the service after which a live memory is still retired by a proposal that has been rolled back. */
  lemma RollbackMissesMoved()
    ensures var t := Moved(AfterShadow(Chosen(), 0, 0));
      && Run(Start(0), Proposing() + ([Choosing()] + MergeAndMove()), t) && t.proposals[0].status.RolledBack?
      && "b" in t.rows && t.rows["b"] == Row("other", true, false, "b", RowState.Merged, Some(0))
  {
    var s := AfterShadow(Chosen(), 0, 0);
    ChosenShadowed();
    MovesAndRollsBack(s);
    ChoosingStep();
    hide AfterShadow, Run, Step, Enabled, SourcesFit, Moving, Moved;
    ShadowTwo(Chosen(), 0, 0, Moving(), Moved(s));
    RunCons(Proposed(), Choosing(), MergeAndMove(), Moved(s));
    hide Proposed, Chosen;
    ProposeFirst([Choosing()] + MergeAndMove(), Moved(s));
  }
}
