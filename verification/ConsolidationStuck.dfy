// Two ways for a finalizer to die that leave a proposal that no rerun ever
// applies: between the commit of its intent and the upstream delete, and between
// that and the commit of the row.
module ConsolidationStuck {
  import opened Consolidation
  import opened ConsolidationFindings
  import opened ConsolidationReruns
  import opened ConsolidationFinishing
  import opened Wrappers

  // ---------------------------------------------------------------- the way to the delete

  function CopyOf(m: string): Copy { Copy(APP, false, m) }

  /** What upstream holds: both memories as they were approved. */
  function Both(): map<string, Copy> { map["a" := CopyOf("a"), "b" := CopyOf("b")] }

  /** "b", retired in favour of "a". */
  function Retired(): Row { Row(APP, true, false, "b", RowState.Merged, Some(0)) }

  predicate Merging(p: Proposal) {
    && p.status.ShadowedStatus? && p.app == APP && p.sources == ["a", "b"] && p.canonical == Some("a")
    && p.hashes == TwoHashes("a", "b") && p.notBefore == Some(0) && p.exportId.Some?
  }

  ghost predicate Merged(s: World) {
    s.proposals.Keys == {0} && Merging(s.proposals[0]) && "b" in s.rows && s.rows["b"] == Retired() && s.lineage == []
  }

  /** The merge is shadowed, and nothing is under way. */
  ghost predicate Waits(s: World, upstream: map<string, Copy>) {
    Merged(s) && s.finalizers == map[] && s.intents == map[] && s.upstream == upstream && s.now == 0 && 1 !in s.used
  }

  /** Finalizer 1 is about to delete "b". */
  ghost predicate Works(s: World, phase: Phase, upstream: map<string, Copy>, own: bool) {
    && Merged(s) && s.finalizers == map[1 := Finalizer(0, ["b"], TwoHashes("a", "b"), 0, phase)] && 1 in s.used
    && s.upstream == upstream
    && if own then APP in s.intents && OwnIntent(s.intents[APP], 1, "b") else s.intents == map[]
  }

  lemma TargetB(p: Proposal)
    requires Merging(p)
    ensures Targets(p) == ["b"]
  {
    TargetsTwo(p, "a", "b");
  }

  lemma Begins(s: World)
    requires Waits(s, Both())
    ensures Enabled(s, BeginFinalize(1, 0, true)) && Works(Step(s, BeginFinalize(1, 0, true)), Looking, Both(), false)
  {
    TargetB(s.proposals[0]);
    hide Targets;
  }

  lemma Looks(s: World)
    requires Works(s, Looking, Both(), false)
    ensures Enabled(s, Look(1)) && Works(Step(s, Look(1)), Checking, Both(), false)
  {
  }

  lemma Checks(s: World)
    requires Works(s, Checking, Both(), false)
    ensures Enabled(s, Check(1, true)) && Works(Step(s, Check(1, true)), Claiming, Both(), false)
  {
  }

  lemma Claims(s: World)
    requires Works(s, Claiming, Both(), false)
    ensures Enabled(s, Claim(1)) && Works(Step(s, Claim(1)), Opening, Both(), false)
  {
  }

  lemma Opens(s: World)
    requires Works(s, Opening, Both(), false)
    ensures Enabled(s, Open(1)) && Works(Step(s, Open(1)), Asking(Retired()), Both(), true)
  {
  }

  lemma Asks(s: World)
    requires Works(s, Asking(Retired()), Both(), true)
    ensures Enabled(s, Ask(1, Replied)) && Works(Step(s, Ask(1, Replied)), Committing(Retired()), Both() - {"b"}, true)
  {
  }

  // ---------------------------------------------------------------- the ends

  /** Its intent is committed, upstream was not asked. */
  lemma DiesAsking(s: World)
    requires Works(s, Asking(Retired()), Both(), true)
    ensures Enabled(s, Crash(1)) && NeverApplied(Step(s, Crash(1)), 0)
  {
    var t := Step(s, Crash(1));
    var p := t.proposals[0];
    TargetB(p);
    Blocked(ViewOf(t, APP), 0, p, "b");
    Stuck(t, 0);
  }

  /** Upstream has deleted the memory, the row is not. */
  lemma DiesCommitting(s: World)
    requires Works(s, Committing(Retired()), Both() - {"b"}, true)
    ensures Enabled(s, Crash(1)) && NeverApplied(Step(s, Crash(1)), 0)
  {
    var t := Step(s, Crash(1));
    var p := t.proposals[0];
    TargetB(p);
    GoneOnly(ViewOf(t, APP), 0, p, 0);
    Stuck(t, 0);
  }

  // ---------------------------------------------------------------- the runs

  function Shadowing(): seq<Event> { [BeginShadow(0, 0, 600, true), EndShadow(0, DONE, true, 0)] + Appearing() }

  function Appearing(): seq<Event> { [Upstream("a", Some(CopyOf("a"))), Upstream("b", Some(CopyOf("b")))] }

  function Finalizing(): seq<Event> { [BeginFinalize(1, 0, true), Look(1), Check(1, true), Claim(1), Open(1)] }

  lemma RunMore(s: World, es: seq<Event>, t: World, e: Event)
    requires Run(s, es, t) && Enabled(t, e)
    ensures Run(s, es + [e], Step(t, e))
  {
    RunOne(t, e);
    RunAppend(s, es, t, [e], Step(t, e));
  }

  /** A run of the service that merges "b" into "a", up to the time to finalize. */
  lemma Shadows() returns (t: World)
    ensures Run(Start(0), Proposing() + ([Choosing()] + Shadowing()), t) && Waits(t, Both())
  {
    var s := AfterShadow(Chosen(), 0, 0);
    ShadowedMerge();
    t := s.(upstream := Both());
    AppearingRun(s);
    ChoosingStep();
    hide AfterShadow, Run, Step, Enabled, SourcesFit, Appearing;
    ShadowTwo(Chosen(), 0, 0, Appearing(), t);
    RunCons(Proposed(), Choosing(), Shadowing(), t);
    hide Proposed, Chosen;
    ProposeFirst([Choosing()] + Shadowing(), t);
  }

  lemma ShadowedMerge()
    ensures Waits(AfterShadow(Chosen(), 0, 0), map[])
  {
    TargetsTwo(Decision("a", "b", "a"), "a", "b");
  }

  lemma AppearingRun(s: World)
    requires s.upstream == map[]
    ensures Run(s, Appearing(), s.(upstream := Both()))
  {
    var t := s.(upstream := map["a" := CopyOf("a")]);
    assert Step(s, Appearing()[0]) == t && Step(t, Appearing()[1]) == s.(upstream := Both());
    hide Step;
    EmptyRun(s.(upstream := Both()));
    RunPair(s, Appearing()[0], Appearing()[1], [], s.(upstream := Both()));
  }

  lemma Deletes(s: World) returns (t: World)
    requires Waits(s, Both())
    ensures Run(s, Finalizing(), t) && Works(t, Asking(Retired()), Both(), true)
  {
    hide Waits, Works, Step, Enabled, Run, Merged;
    EmptyRun(s);
    Begins(s);
    RunMore(s, [], s, BeginFinalize(1, 0, true));
    var s1 := Step(s, BeginFinalize(1, 0, true));
    Looks(s1);
    RunMore(s, [] + [BeginFinalize(1, 0, true)], s1, Look(1));
    var s2 := Step(s1, Look(1));
    Checks(s2);
    RunMore(s, [] + [BeginFinalize(1, 0, true)] + [Look(1)], s2, Check(1, true));
    var s3 := Step(s2, Check(1, true));
    Claims(s3);
    RunMore(s, [] + [BeginFinalize(1, 0, true)] + [Look(1)] + [Check(1, true)], s3, Claim(1));
    var s4 := Step(s3, Claim(1));
    Opens(s4);
    RunMore(s, [] + [BeginFinalize(1, 0, true)] + [Look(1)] + [Check(1, true)] + [Claim(1)], s4, Open(1));
    t := Step(s4, Open(1));
    assert [] + [BeginFinalize(1, 0, true)] + [Look(1)] + [Check(1, true)] + [Claim(1)] + [Open(1)] == Finalizing();
  }

  function UpToAsking(): seq<Event> { Proposing() + ([Choosing()] + Shadowing()) + Finalizing() }

  /**
   * Two runs of the service after which no sequence of reruns applies the proposal: the finalizer dies before upstream is
   * asked to delete, or after upstream did.
   */
  lemma CrashLeavesStuck()
    ensures exists t :: Run(Start(0), UpToAsking() + [Crash(1)], t) && Merged(t) && NeverApplied(t, 0)
    ensures exists t :: Run(Start(0), UpToAsking() + [Ask(1, Replied)] + [Crash(1)], t) && Merged(t) && NeverApplied(t, 0)
  {
    var s := Shadows();
    var t := Deletes(s);
    assert Run(Start(0), UpToAsking(), t) by { RunAppend(Start(0), Proposing() + ([Choosing()] + Shadowing()), s, Finalizing(), t); }
    DiesAsking(t);
    Asks(t);
    var u := Step(t, Ask(1, Replied));
    DiesCommitting(u);
    StillMerged(t);
    StillMerged(u);
    hide Waits, Works, Step, Enabled, Run, Merged, NeverApplied, UpToAsking;
    RunMore(Start(0), UpToAsking(), t, Crash(1));
    RunMore(Start(0), UpToAsking(), t, Ask(1, Replied));
    RunMore(Start(0), UpToAsking() + [Ask(1, Replied)], u, Crash(1));
  }

  lemma StillMerged(s: World)
    requires Merged(s) && 1 in s.finalizers
    ensures Merged(Step(s, Crash(1)))
  {
  }
}
