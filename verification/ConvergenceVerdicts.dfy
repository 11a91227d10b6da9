/** What the convergence verdict decides: a milestone is recorded as converged exactly by a tick whose verdict
    says so, every other verdict leaves it active, and no milestone is replaced without such a record. */
module ConvergenceVerdicts {
  import opened Text
  import opened MilestoneTransition

  // ---------------------------------------------------------------------------------------------
  // One tick
  // ---------------------------------------------------------------------------------------------

  /** The metadata is about the active milestone, or about none. */
  predicate IsAbout(disk: Disk) {
    disk.meta.milestoneId in {None, Some(disk.active.id)}
  }

  /** The head has moved since the milestone converged or, without that, since it was blocked. */
  predicate Moved(disk: Disk, head: string) {
    var since := if disk.meta.convergedHead.Some? then disk.meta.convergedHead else disk.meta.blockedHead;
    IsAbout(disk) && since.Some? && since != Some(head)
  }

  /** The milestone stands as converged at this head, with its transition under way or done. */
  predicate Stands(disk: Disk, head: string) {
    && IsAbout(disk) && disk.meta.convergedId == Some(disk.active.id) && disk.meta.convergedHead == Some(head)
    && (disk.meta.converged || (disk.meta.stage.Some? && disk.meta.stage != Some(TransitionBlocked)))
  }

  /** The factory is blocked at this head. */
  predicate Held(disk: Disk, head: string) {
    IsAbout(disk) && !Moved(disk, head) && (disk.meta.blocked || disk.meta.stage == Some(TransitionBlocked))
  }

  /** The tick comes to ask for a verdict. */
  predicate Asks(disk: Disk, input: Input) {
    input.attempt && input.head.Some? && !Held(disk, input.head.value) && !Stands(disk, input.head.value)
  }

  /** The tick goes on with a convergence that is on disk. */
  predicate GoesOn(disk: Disk, input: Input) {
    input.attempt && input.head.Some? && !Held(disk, input.head.value) && Stands(disk, input.head.value)
  }

  ghost predicate OnlySaves(effects: seq<Effect>) {
    forall e | e in effects :: e.Saved?
  }

  /** The metadata that the tick has when it comes to the verdict. */
  function MetaAtVerdict(disk: Disk, input: Input): Meta {
    var loaded := Reconciled(disk.meta, disk.active);
    if input.attempt && input.head.Some? && Moved(disk, input.head.value)
    then FRESH.(milestoneId := Some(disk.active.id)) else loaded
  }

  /** A handler adds no record of a convergence. */
  predicate NoEntry(before: seq<Effect>, after: seq<Effect>) {
    before <= after && ConvergenceRecorded !in after[|before|..]
  }

  lemma {:induction false} NoEntryThen(a: seq<Effect>, b: seq<Effect>, c: seq<Effect>)
    requires NoEntry(a, b) && NoEntry(b, c)
    ensures NoEntry(a, c)
  {
    assert c[|a|..] == b[|a|..] + c[|b|..];
  }

  lemma {:induction false} AdvanceMakesNoEntry(p: Progress, disk: Disk, roadmap: seq<string>, input: Input)
    ensures NoEntry(p.effects, Advance(p, disk, roadmap, input).effects)
  {
    var target := NextOn(roadmap, disk.active.id);
    if disk.active.id in roadmap && target.Some? {
      var planned := PlanPrimary(p, target.value, input);
      var dropped := DropClaim(planned);
      var asked := PlanFallback(dropped, target.value, input);
      PlanningMakesNoEntry(p, target.value, input);
      NoEntryThen(p.effects, planned.effects, dropped.effects);
      AskingMakesNoEntry(dropped, target.value, input);
      NoEntryThen(p.effects, dropped.effects, asked.effects);
      InstallingMakesNoEntry(asked, disk, input);
      NoEntryThen(p.effects, asked.effects, Install(asked, disk, input).effects);
    }
  }

  lemma {:induction false} PlanningMakesNoEntry(p: Progress, target: string, input: Input)
    ensures NoEntry(p.effects, PlanPrimary(p, target, input).effects)
    ensures NoEntry(PlanPrimary(p, target, input).effects, DropClaim(PlanPrimary(p, target, input)).effects)
  {
  }

  lemma {:induction false} AskingMakesNoEntry(p: Progress, target: string, input: Input)
    ensures NoEntry(p.effects, PlanFallback(p, target, input).effects)
  {
  }

  lemma {:induction false} InstallingMakesNoEntry(p: Progress, disk: Disk, input: Input)
    ensures NoEntry(p.effects, Install(p, disk, input).effects)
  {
  }

  /** A tick as it comes to the verdict or to the standing convergence. */
  function Come(disk: Disk, input: Input): Progress {
    var loaded, meta := Reconciled(disk.meta, disk.active), MetaAtVerdict(disk, input);
    var moved := input.attempt && input.head.Some? && Moved(disk, input.head.value);
    Progress(meta, if moved then [Saved(loaded), Saved(meta)] else [Saved(loaded)], Going)
  }

  lemma {:induction false} TickComesTo(disk: Disk, roadmap: seq<string>, input: Input)
    ensures var done := if Asks(disk, input) then Judged(Come(disk, input), disk, roadmap, input, input.head.value)
                        else if GoesOn(disk, input) then Advance(Come(disk, input), disk, roadmap, input)
                        else Come(disk, input);
            Tick(disk, roadmap, input) == if done.outcome == Raised then done.effects else Save(done, done.meta).effects
  {
    var loaded := Reconciled(disk.meta, disk.active);
    if input.attempt && input.head.Some? && Moved(disk, input.head.value) {
      var meta := MetaAtVerdict(disk, input);
      assert [Saved(loaded)] + [Saved(meta)] == [Saved(loaded), Saved(meta)];
    }
  }

  lemma {:induction false} GoingOnMakesNoEntry(disk: Disk, roadmap: seq<string>, input: Input)
    requires GoesOn(disk, input)
    ensures ConvergenceRecorded !in Tick(disk, roadmap, input)
  {
    var come := Come(disk, input);
    var done := Advance(come, disk, roadmap, input);
    TickComesTo(disk, roadmap, input);
    AdvanceMakesNoEntry(come, disk, roadmap, input);
    NothingEntered(come.effects, done.effects);
    NothingEntered(done.effects, Save(done, done.meta).effects);
  }

  lemma {:induction false} NothingEntered(before: seq<Effect>, after: seq<Effect>)
    requires NoEntry(before, after) && ConvergenceRecorded !in before
    ensures ConvergenceRecorded !in after
  {
    assert after == before + after[|before|..];
  }

  lemma {:induction false} ConvergedIsRecorded(disk: Disk, roadmap: seq<string>, input: Input)
    requires Asks(disk, input) && input.verdict.ConvergedAt?
    ensures ConvergenceRecorded in Tick(disk, roadmap, input)
  {
    var come := Come(disk, input);
    var recorded := Recorded(come, disk, input.verdict.head, input.head.value);
    var done := Advance(recorded, disk, roadmap, input);
    TickComesTo(disk, roadmap, input);
    AdvanceMakesNoEntry(recorded, disk, roadmap, input);
    assert recorded.effects[|come.effects|] == ConvergenceRecorded;
    assert done.effects[|come.effects|] == ConvergenceRecorded;
    assert Tick(disk, roadmap, input)[|come.effects|] == ConvergenceRecorded;
  }

  /** The record of a convergence is followed by the save of an entry for the active milestone, at the head of
      the verdict or, when it names none, at the head of the tick. */
  lemma {:induction false} RecordIsSaved(disk: Disk, roadmap: seq<string>, input: Input) returns (n: nat)
    requires Asks(disk, input) && input.verdict.ConvergedAt?
    ensures var effects := Tick(disk, roadmap, input);
            && n + 1 < |effects| && effects[n] == ConvergenceRecorded && effects[n + 1].Saved?
            && var meta := effects[n + 1].meta;
               && meta.stage == Some(Converged) && meta.converged && meta.milestoneId == Some(disk.active.id)
               && meta.convergedId == Some(disk.active.id)
               && meta.convergedHead == if input.verdict.head.Some? then input.verdict.head else input.head
  {
    var come := Come(disk, input);
    var recorded := Recorded(come, disk, input.verdict.head, input.head.value);
    var done := Advance(recorded, disk, roadmap, input);
    n := |come.effects|;
    TickComesTo(disk, roadmap, input);
    AdvanceMakesNoEntry(recorded, disk, roadmap, input);
    assert recorded.effects[n] == ConvergenceRecorded && recorded.effects[n + 1] == Saved(recorded.meta);
    assert done.effects[n] == recorded.effects[n] && done.effects[n + 1] == recorded.effects[n + 1];
    assert Tick(disk, roadmap, input)[n] == done.effects[n] && Tick(disk, roadmap, input)[n + 1] == done.effects[n + 1];
  }

  /** A tick records a convergence exactly when it asks for the verdict and the verdict says so: neither a
      remembered convergence nor any other verdict does. */
  lemma {:induction false} ConvergenceIsJudgedExactlyWhen(disk: Disk, roadmap: seq<string>, input: Input)
    ensures ConvergenceRecorded in Tick(disk, roadmap, input) <==> Asks(disk, input) && input.verdict.ConvergedAt?
  {
    if GoesOn(disk, input) {
      GoingOnMakesNoEntry(disk, roadmap, input);
    } else if Asks(disk, input) && input.verdict.ConvergedAt? {
      ConvergedIsRecorded(disk, roadmap, input);
    } else {
      OtherwiseSaves(disk, roadmap, input);
    }
  }

  /** The metadata after a verdict other than convergence. */
  function MetaAfter(verdict: Verdict, meta: Meta, headNow: Option<string>): Meta
    requires !verdict.ConvergedAt?
  {
    match verdict
    case Raises => meta
    case Unusable => meta.(blocked := true, blockedHead := if headNow.Some? then headNow else meta.blockedHead)
    case _ => meta.(converged := false)
  }

  /** Saves only, of which this is the last. */
  ghost predicate SavesTo(effects: seq<Effect>, meta: Meta) {
    OnlySaves(effects) && effects != [] && effects[|effects| - 1] == Saved(meta)
  }

  lemma {:induction false} ComesWithSaves(disk: Disk, input: Input)
    ensures SavesTo(Come(disk, input).effects, MetaAtVerdict(disk, input))
  {
  }

  lemma {:induction false} JudgedSaves(come: Progress, disk: Disk, roadmap: seq<string>, input: Input, head: string)
    requires SavesTo(come.effects, come.meta) && come.outcome == Going && !input.verdict.ConvergedAt?
    ensures var done := Judged(come, disk, roadmap, input, head);
            SavesTo(if done.outcome == Raised then done.effects else Save(done, done.meta).effects,
                    MetaAfter(input.verdict, come.meta, input.headNow))
  {
  }

  /** The metadata that such a tick ends with. */
  function MetaAtEnd(disk: Disk, input: Input): Meta
    requires Asks(disk, input) ==> !input.verdict.ConvergedAt?
  {
    if Asks(disk, input) then MetaAfter(input.verdict, MetaAtVerdict(disk, input), input.headNow)
    else MetaAtVerdict(disk, input)
  }

  lemma {:induction false} OtherwiseSaves(disk: Disk, roadmap: seq<string>, input: Input)
    requires !GoesOn(disk, input) && (Asks(disk, input) ==> !input.verdict.ConvergedAt?)
    ensures SavesTo(Tick(disk, roadmap, input), MetaAtEnd(disk, input))
  {
    TickComesTo(disk, roadmap, input);
    ComesWithSaves(disk, input);
    if Asks(disk, input) {
      JudgedSaves(Come(disk, input), disk, roadmap, input, input.head.value);
    }
  }

  lemma {:induction false} SavesReplay(disk: Disk, effects: seq<Effect>)
    requires OnlySaves(effects)
    ensures var after := Replay(disk, effects);
            && after.active == disk.active && after.archived == disk.archived
            && after.plannerOutput == disk.plannerOutput
            && after.meta == if effects == [] then disk.meta else effects[|effects| - 1].meta
  {
    if effects != [] {
      SavesReplay(disk, effects[..|effects| - 1]);
    }
  }

  /** A tick whose verdict is not convergence, and one that is held or not even tried, calls no planner and
      leaves milestone and archive as they are. The stage stays too, unless the metadata was about another
      milestone or the head has moved, and then there is none. Gaps and a replan clear the convergence flag,
      an unusable verdict blocks, and a raised one saves nothing more. */
  lemma {:induction false} OtherVerdictsKeepTheMilestone(disk: Disk, roadmap: seq<string>, input: Input)
    requires !GoesOn(disk, input) && (Asks(disk, input) ==> !input.verdict.ConvergedAt?)
    ensures OnlySaves(Tick(disk, roadmap, input))
    ensures var after := Replay(disk, Tick(disk, roadmap, input));
            var anew := !IsAbout(disk) || (input.attempt && input.head.Some? && Moved(disk, input.head.value));
            && after.active == disk.active && after.archived == disk.archived
            && after.plannerOutput == disk.plannerOutput && after.meta.milestoneId == Some(disk.active.id)
            && after.meta.stage == (if anew then None else disk.meta.stage)
            && after.meta.validatedPlan == (if anew then None else disk.meta.validatedPlan)
            && after.meta.convergedHead == (if anew then None else disk.meta.convergedHead)
            && after.meta.converged == (!anew && disk.meta.converged
                                        && !(Asks(disk, input) && input.verdict in {Gaps, Replanned}))
            && after.meta.blocked == ((!anew && disk.meta.blocked) || (Asks(disk, input) && input.verdict.Unusable?))
            && after.meta.blockedHead == (if Asks(disk, input) && input.verdict.Unusable? && input.headNow.Some?
                                          then input.headNow else if anew then None else disk.meta.blockedHead)
  {
    OtherwiseSaves(disk, roadmap, input);
    SavedToReplays(disk, Tick(disk, roadmap, input), MetaAtEnd(disk, input));
  }

  lemma {:induction false} SavedToReplays(disk: Disk, effects: seq<Effect>, meta: Meta)
    requires SavesTo(effects, meta)
    ensures Replay(disk, effects) == disk.(meta := meta)
  {
    SavesReplay(disk, effects);
  }

  /** A standing convergence leads on only along the roadmap: a milestone that is not on it blocks the factory,
      and the last one on it stays, both without calling a planner or touching milestone and archive. */
  lemma {:induction false} NoNextMilestone(disk: Disk, roadmap: seq<string>, input: Input)
    requires GoesOn(disk, input) && NextOn(roadmap, disk.active.id).None?
    ensures OnlySaves(Tick(disk, roadmap, input))
    ensures var after := Replay(disk, Tick(disk, roadmap, input));
            && after.active == disk.active && after.archived == disk.archived && after.meta.stage == disk.meta.stage
            && (after.meta.blocked <==> disk.meta.blocked || disk.active.id !in roadmap)
  {
    TickComesTo(disk, roadmap, input);
    SavesReplay(disk, Tick(disk, roadmap, input));
    if disk.active.id !in roadmap {
      NotOnRoadmap(roadmap, disk.active.id);
    }
  }

  /** The roadmap gives no next milestone exactly for one that is not on it before its last place. */
  lemma {:induction false} NotOnRoadmap(roadmap: seq<string>, id: string)
    ensures NextOn(roadmap, id).None? <==> roadmap == [] || id !in roadmap[..|roadmap| - 1]
  {
    if |roadmap| >= 2 {
      NotOnRoadmap(roadmap[1..], id);
      assert roadmap[..|roadmap| - 1] == [roadmap[0]] + roadmap[1..][..|roadmap| - 2];
    }
  }

  // ---------------------------------------------------------------------------------------------
  // All runs
  // ---------------------------------------------------------------------------------------------

  /** Tick `k` of the run asks for the verdict, hears of convergence, and records it at this point of the log. */
  ghost predicate JudgedAt(disk: Disk, roadmap: seq<string>, ticks: seq<TickRun>, before: seq<Effect>, k: int) {
    && 0 <= k < |ticks|
    && RunLog(disk, roadmap, ticks[..k]) <= before
    && before + [ConvergenceRecorded] <= RunLog(disk, roadmap, ticks[..k + 1])
    && Asks(Replay(disk, RunLog(disk, roadmap, ticks[..k])), ticks[k].input) && ticks[k].input.verdict.ConvergedAt?
  }

  lemma {:induction false} CutKeeps(effects: seq<Effect>, life: nat, e: Effect)
    requires e in Cut(effects, life) && e != Crashed
    ensures e in effects
  {
  }

  lemma {:induction false} EarlierPart(h: seq<Effect>, more: seq<Effect>, before: seq<Effect>, e: Effect)
    requires before + [e] <= h + more
    ensures |before| < |h| ==> before + [e] <= h
    ensures |before| >= |h| ==> h <= before && |before| - |h| < |more| && more[|before| - |h|] == e
  {
    var whole := h + more;
    assert whole[..|before| + 1] == before + [e];
    if |before| < |h| {
      assert whole[..|before| + 1] == h[..|before| + 1];
    } else {
      assert before == whole[..|before|] && whole[|before|] == e;
    }
  }

  lemma {:induction false} LogGrows(disk: Disk, roadmap: seq<string>, ticks: seq<TickRun>, n: nat)
    requires n < |ticks|
    ensures var h := RunLog(disk, roadmap, ticks[..n]);
            RunLog(disk, roadmap, ticks[..n + 1]) == h + TickLog(Replay(disk, h), roadmap, ticks[n])
  {
    assert ticks[..n + 1][..n] == ticks[..n];
  }

  /** What is recorded by the first ticks is recorded by the last of them or before. */
  lemma {:induction false} RecordedBy(
    disk: Disk, roadmap: seq<string>, ticks: seq<TickRun>, before: seq<Effect>, n: nat)
    requires n < |ticks| && RecordedWithin(disk, roadmap, ticks, before, n + 1)
    ensures JudgedAt(disk, roadmap, ticks, before, n) || RecordedWithin(disk, roadmap, ticks, before, n)
  {
    var h, t := RunLog(disk, roadmap, ticks[..n]), ticks[n];
    LogGrows(disk, roadmap, ticks, n);
    EarlierPart(h, TickLog(Replay(disk, h), roadmap, t), before, ConvergenceRecorded);
    if |before| >= |h| {
      CutKeeps(Tick(Replay(disk, h), roadmap, t.input), t.life, ConvergenceRecorded);
      ConvergenceIsJudgedExactlyWhen(Replay(disk, h), roadmap, t.input);
    }
  }

  lemma {:induction false} FirstTrue(p: nat -> bool, n: nat) returns (k: nat)
    requires !p(0) && p(n)
    ensures k < n && !p(k) && p(k + 1)
  {
    if p(n - 1) {
      k := FirstTrue(p, n - 1);
    } else {
      k := n - 1;
    }
  }

  /** Every convergence in every run's log was recorded by a tick that asked and was told so. */
  lemma {:induction false} EveryConvergenceIsJudged(
    disk: Disk, roadmap: seq<string>, ticks: seq<TickRun>, before: seq<Effect>) returns (k: nat)
    requires before + [ConvergenceRecorded] <= RunLog(disk, roadmap, ticks)
    ensures JudgedAt(disk, roadmap, ticks, before, k)
  {
    RecordedAtEnd(disk, roadmap, ticks, before);
    k := RecordingTick(disk, roadmap, ticks, before);
    RecordedBy(disk, roadmap, ticks, before, k);
  }

  lemma {:induction false} RecordingTick(
    disk: Disk, roadmap: seq<string>, ticks: seq<TickRun>, before: seq<Effect>) returns (k: nat)
    requires RecordedWithin(disk, roadmap, ticks, before, |ticks|)
    requires !RecordedWithin(disk, roadmap, ticks, before, 0)
    ensures k < |ticks| && RecordedWithin(disk, roadmap, ticks, before, k + 1)
    ensures !RecordedWithin(disk, roadmap, ticks, before, k)
  {
    k := FirstTrue((n: nat) => RecordedWithin(disk, roadmap, ticks, before, n), |ticks|);
  }

  /** The record stands in the log of the first ticks. */
  ghost predicate RecordedWithin(
    disk: Disk, roadmap: seq<string>, ticks: seq<TickRun>, before: seq<Effect>, n: nat)
  {
    n <= |ticks| && before + [ConvergenceRecorded] <= RunLog(disk, roadmap, ticks[..n])
  }

  lemma {:induction false} RecordedAtEnd(
    disk: Disk, roadmap: seq<string>, ticks: seq<TickRun>, before: seq<Effect>)
    requires before + [ConvergenceRecorded] <= RunLog(disk, roadmap, ticks)
    ensures RecordedWithin(disk, roadmap, ticks, before, |ticks|)
    ensures !RecordedWithin(disk, roadmap, ticks, before, 0)
  {
    assert ticks[..|ticks|] == ticks;
    assert RunLog(disk, roadmap, ticks[..0]) == [];
  }

  lemma {:induction false} EarlierInLog(whole: seq<Effect>, before: seq<Effect>, e: Effect, m: nat)
    requires before + [e] <= whole && m < |before|
    ensures before[..m] + [before[m]] <= whole
  {
    assert whole[..|before| + 1] == before + [e];
    assert before[..m] + [before[m]] == whole[..m + 1];
  }

  lemma {:induction false} EnteredInLog(s: State, log: seq<Effect>) returns (m: nat)
    requires s.entered.None? && After(s, log).entered.Some?
    ensures m < |log| && log[m] == ConvergenceRecorded
    ensures After(s, log).entered == Some(After(s, log[..m]).disk.active.id)
  {
    var n := |log| - 1;
    if log[n].ConvergenceRecorded? {
      m := n;
    } else {
      m := EnteredInLog(s, log[..n]);
      assert log[..n][..m] == log[..m];
    }
  }

  /** No milestone is replaced unless a tick of the run found it converged: before every activation there is
      the record of a convergence of the milestone that is replaced, made by a tick whose verdict said so. */
  lemma {:induction false} EveryActivationWasJudged(
    disk: Disk, roadmap: seq<string>, ticks: seq<TickRun>, before: seq<Effect>, plan: Plan)
    returns (m: nat, k: nat)
    requires Happens(disk, roadmap, ticks, before + [Activated(plan)])
    ensures m < |before| && Replay(disk, before[..m]).active.id == Replay(disk, before).active.id
    ensures JudgedAt(disk, roadmap, ticks, before[..m], k)
  {
    m := EntryOf(disk, roadmap, ticks, before, plan);
    EarlierInLog(RunLog(disk, roadmap, ticks), before, Activated(plan), m);
    k := EveryConvergenceIsJudged(disk, roadmap, ticks, before[..m]);
  }

  lemma {:induction false} EntryOf(
    disk: Disk, roadmap: seq<string>, ticks: seq<TickRun>, before: seq<Effect>, plan: Plan)
    returns (m: nat)
    requires Happens(disk, roadmap, ticks, before + [Activated(plan)])
    ensures m < |before| && before[m] == ConvergenceRecorded
    ensures Replay(disk, before[..m]).active.id == Replay(disk, before).active.id
  {
    var s, log := State(disk, NO_COUNTS, Idle, None), before + [Activated(plan)];
    LastIsLegal(disk, roadmap, ticks, before, Activated(plan));
    m := EnteredInLog(s, before);
    HappensObeys(disk, roadmap, ticks, log);
    assert log[..m] == before[..m];
    ObeysPrefix(s, roadmap, log, m);
    ObeyingKeepsInv(s, roadmap, before[..m]);
  }
}
