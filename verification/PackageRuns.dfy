/** What every run of the package controller keeps: claims before triggers, budgets, counted corrections
    and approved merges. A run is any sequence of ticks from a fresh record, each dying anywhere. */
module PackageRuns {
  import opened Text
  import opened PackageController
  import FindingLedger

  // ---------------------------------------------------------------------------------------------
  // What every log keeps
  // ---------------------------------------------------------------------------------------------

  datatype Tally = Tally(triggers: nat, resets: nat)

  function CountOne(t: Tally, e: Effect): Tally {
    Tally(if e.ReviewTriggered? then t.triggers + 1 else t.triggers,
      if e.LegacyReconciled? then t.resets + 1 else t.resets)
  }

  function Count(log: seq<Effect>): Tally {
    if log == [] then Tally(0, 0) else CountOne(Count(log[..|log| - 1]), log[|log| - 1])
  }

  /** The triggers that the present claim still allows. */
  function Left(d: Dispatch): nat {
    if IsClaim(d.state) && d.triggerAttempts < MAX_TRIGGERS then MAX_TRIGGERS - d.triggerAttempts else 0
  }

  predicate WithinTriggers(d: Dispatch, triggers: nat) {
    && triggers + Left(d) <= 2 * d.attempts
    && (IsClaim(d.state) ==> d.key.Some? && 1 <= d.triggerAttempts && d.lastAttempt.Some?)
  }

  function Times(limit: nat, periods: nat): nat {
    if periods == 0 then 0 else limit + Times(limit, periods - 1)
  }

  lemma {:induction false} TimesMultiplies(limit: nat, periods: nat)
    ensures Times(limit, periods) == limit * periods
  {
    if periods > 0 {
      TimesMultiplies(limit, periods - 1);
      assert limit * periods == limit * (periods - 1) + limit;
    }
  }

  predicate WithinBudgets(c: Config, rec: Record, resets: nat) {
    && rec.recovery.epoch <= c.maxEpochs && rec.recovery.cycles <= c.maxCycles
    && (rec.recovery.attempted ==> rec.recovery.cycles > 0)
    && rec.ci.usedInEpoch <= c.maxCiRounds && rec.review.usedInEpoch <= c.maxReviewCycles
    && rec.ci.infraRetries <= c.maxInfraRetries && rec.ci.integrationUsed <= c.maxIntegration
    && rec.review.used <= Times(c.maxReviewCycles, rec.recovery.epoch + resets) + rec.review.usedInEpoch
    && rec.ci.used <= Times(c.maxCiRounds, rec.recovery.epoch + resets) + rec.ci.usedInEpoch
  }

  /** A claim in memory is the one on disk. */
  predicate Linked(d: Dispatch, disk: Dispatch) {
    && d.attempts == disk.attempts
    && (IsClaim(d.state) ==>
          && IsClaim(disk.state) && d.key == disk.key
          && d.triggerAttempts == disk.triggerAttempts && d.lastAttempt == disk.lastAttempt)
  }

  predicate Within(c: Config, rec: Record, t: Tally) {
    WithinTriggers(rec.dispatch, t.triggers) && WithinBudgets(c, rec, t.resets)
  }

  /** A claim that begins a review attempt. */
  predicate NewClaim(d: Dispatch, was: Dispatch) {
    IsClaim(d.state) && d.key.Some? && d.attempts == was.attempts + 1 && d.triggerAttempts == 1
  }

  /** The claim that is on disk, about to be triggered once more. */
  predicate RetriedClaim(d: Dispatch, was: Dispatch) {
    && IsClaim(d.state) && d.attempts == was.attempts && IsClaim(was.state) && d.key == was.key
    && d.triggerAttempts == was.triggerAttempts + 1 <= MAX_TRIGGERS
  }

  predicate GraceOver(was: Dispatch, at: int) {
    was.lastAttempt.Some? && at - was.lastAttempt.value >= 30_000_000
  }

  /** A trigger comes right after the save of its claim. The claim is a new one, or the same as on disk
      before it and then the last recorded attempt lies at least the grace period back. */
  predicate TriggerIsClaimed(before: seq<Effect>, key: string, at: int) {
    && before != [] && before[|before| - 1].Saved?
    && var claim, was := before[|before| - 1].record.dispatch, DiskAfter(before[..|before| - 1]).dispatch;
       claim.key == Some(key) && (NewClaim(claim, was) || (RetriedClaim(claim, was) && GraceOver(was, at)))
  }

  /** A save makes a claim, retries one, or keeps the one on disk or none. */
  predicate SaveFollows(d: Dispatch, was: Dispatch) {
    NewClaim(d, was) || RetriedClaim(d, was) || Linked(d, was)
  }

  predicate EffectFollows(before: seq<Effect>, e: Effect) {
    && (e.ReviewTriggered? ==> TriggerIsClaimed(before, e.key, e.at))
    && (e.Saved? ==> SaveFollows(e.record.dispatch, DiskAfter(before).dispatch))
  }

  predicate Sound(c: Config, log: seq<Effect>) {
    && Within(c, DiskAfter(log), Count(log))
    && (log != [] ==> Sound(c, log[..|log| - 1]) && EffectFollows(log[..|log| - 1], log[|log| - 1]))
  }

  lemma {:induction false} Snoc(log: seq<Effect>, e: Effect)
    ensures (log + [e])[..|log|] == log
    ensures DiskAfter(log + [e]) == if e.Saved? then e.record else DiskAfter(log)
    ensures Count(log + [e]) == CountOne(Count(log), e)
  {
    assert (log + [e])[..|log|] == log;
  }

  lemma {:induction false} SoundSnoc(c: Config, log: seq<Effect>, e: Effect)
    requires Sound(c, log) && Within(c, if e.Saved? then e.record else DiskAfter(log), CountOne(Count(log), e))
    requires EffectFollows(log, e)
    ensures Sound(c, log + [e])
    ensures DiskAfter(log + [e]) == if e.Saved? then e.record else DiskAfter(log)
    ensures Count(log + [e]) == CountOne(Count(log), e)
  {
    Snoc(log, e);
  }

  /** The tick so far, after the log `h`, and the record in memory. */
  predicate Good(c: Config, h: seq<Effect>, p: Progress) {
    var log := h + p.effects;
    Sound(c, log) && Within(c, p.rec, Count(log)) && Linked(p.rec.dispatch, DiskAfter(log).dispatch)
  }

  lemma {:induction false} SaveIsGood(c: Config, h: seq<Effect>, p: Progress)
    requires Good(c, h, p)
    ensures Good(c, h, Save(p))
  {
    SoundSnoc(c, h + p.effects, Saved(p.rec));
    assert h + Save(p).effects == h + p.effects + [Saved(p.rec)];
  }

  /** What a step may say besides. */
  predicate IsMessage(e: Effect) {
    || e.CiFixSent? || e.CiFixRepeated? || e.RerunAsked? || e.MergeUpdateSent? || e.EpochBegun? || e.WorkerRequeued?
  }

  lemma {:induction false} EmitIsGood(c: Config, h: seq<Effect>, p: Progress, e: Effect)
    requires Good(c, h, p) && (e.Merged? || e.CorrectionSent? || IsMessage(e))
    ensures Good(c, h, Emit(p, e))
  {
    SoundSnoc(c, h + p.effects, e);
    assert h + Emit(p, e).effects == h + p.effects + [e];
  }

  lemma {:induction false} MoreResets(c: Config, rec: Record, resets: nat)
    requires WithinBudgets(c, rec, resets)
    ensures WithinBudgets(c, rec, resets + 1)
  {
    var n := rec.recovery.epoch + resets;
    assert Times(c.maxReviewCycles, n + 1) == c.maxReviewCycles + Times(c.maxReviewCycles, n);
    assert Times(c.maxCiRounds, n + 1) == c.maxCiRounds + Times(c.maxCiRounds, n);
  }

  // ---------------------------------------------------------------------------------------------
  // What happens in memory keeps it
  // ---------------------------------------------------------------------------------------------

  predicate Fits(c: Config, rec: Record, t: Tally, disk: Dispatch) {
    Within(c, rec, t) && Linked(rec.dispatch, disk)
  }

  /** A step that triggers nothing and says only what leaves the claims alone. */
  predicate QuietFits(c: Config, step: Step, t: Tally, disk: Dispatch) {
    Fits(c, step.rec, t, disk) && !step.action.Trigger? && (step.action.Tell? ==> IsMessage(step.action.effect))
  }

  lemma {:induction false} NextEpochFits(c: Config, rec: Record, r: Replan, t: Tally, disk: Dispatch)
    requires Fits(c, rec, t, disk) && !RecoveryIsExhausted(c, rec)
    ensures Fits(c, NextEpoch(rec, r), t, disk)
  {
    var n := rec.recovery.epoch + t.resets;
    assert Times(c.maxReviewCycles, n + 1) == c.maxReviewCycles + Times(c.maxReviewCycles, n);
    assert Times(c.maxCiRounds, n + 1) == c.maxCiRounds + Times(c.maxCiRounds, n);
    var next := NextEpoch(rec, r);
    assert next.recovery.epoch + t.resets == n + 1;
  }

  lemma {:induction false} EscalateFits(c: Config, rec: Record, r: Replan, t: Tally, disk: Dispatch)
    requires Fits(c, rec, t, disk)
    ensures QuietFits(c, Escalate(c, rec, r), t, disk)
  {
    if !RecoveryIsExhausted(c, rec) && r.head.Some? && (r.answer.Replanned? || r.answer.OtherAnswer?) {
      NextEpochFits(c, CountRepeat(rec, r.digest), r, t, disk);
    }
  }

  lemma {:induction false} CiNotPassedFits(c: Config, rec: Record, i: PrInput, t: Tally, disk: Dispatch)
    requires Fits(c, rec, t, disk) && i.ci != Pass
    ensures QuietFits(c, CiNotPassed(c, rec, i), t, disk)
  {
    EscalateFits(c, rec.(status := Ci), ReplanFor(i), t, disk);
  }

  lemma {:induction false} ReviewRejectedFits(
    c: Config, rec: Record, i: PrInput, verdict: string, reason: string, t: Tally,
      disk: Dispatch)
    requires Fits(c, rec, t, disk)
    ensures QuietFits(c, ReviewRejected(c, rec, i, verdict, reason), t, disk)
  {
    EscalateFits(c, rec.(review := rec.review.(terminalRejection := Some(i.head))), ReplanFor(i), t, disk);
  }

  lemma {:induction false} DroppedFits(c: Config, rec: Record, t: Tally, disk: Dispatch)
    requires Fits(c, rec, t, disk)
    ensures Fits(c, DropDispatch(rec), t, disk) && Fits(c, DropAnsweredRejection(rec), t, disk)
  {
  }

  lemma {:induction false} DoRecordFits(c: Config, rec: Record, w: Work, t: Tally, disk: Dispatch)
    requires Fits(c, rec, t, disk) && !w.LookAtPr?
    ensures Fits(c, DoRecord(c, rec, w), t, disk)
  {
    if w.GiveUpOnWorker? {
      EscalateFits(c, rec, w.replan.(head := None), t, disk);
    }
  }

  lemma {:induction false} LoadedFits(c: Config, disk: Record, t: Tally)
    requires Within(c, disk, t)
    ensures Fits(c, Loaded(disk), t, disk.dispatch)
  {
  }

  lemma {:induction false} UnlegaciedFits(c: Config, rec: Record, o: Observation, t: Tally, disk: Dispatch)
    requires Fits(c, rec, t, disk)
    ensures var resets := if IsReset(c, rec, o) then t.resets + 1 else t.resets;
            Fits(c, Unlegacied(c, rec, o), t.(resets := resets), disk)
  {
    var n := rec.recovery.epoch + t.resets;
    assert Times(c.maxReviewCycles, n + 1) == c.maxReviewCycles + Times(c.maxReviewCycles, n);
    assert Times(c.maxCiRounds, n + 1) == c.maxCiRounds + Times(c.maxCiRounds, n);
    assert rec.recovery.epoch + (t.resets + 1) == n + 1;
  }

  lemma {:induction false} AttachedFits(c: Config, rec: Record, head: string, o: Observation, t: Tally, disk: Dispatch)
    requires Fits(c, rec, t, disk)
    ensures Fits(c, Attached(rec, head, o), t, disk)
  {
  }

  lemma {:induction false} ForHeadFits(c: Config, rec: Record, head: string, t: Tally, disk: Dispatch)
    requires Fits(c, rec, t, disk)
    ensures Fits(c, ForHead(rec, head), t, disk)
  {
    DroppedFits(c, rec, t, disk);
    DroppedFits(c, DropDispatch(rec), t, disk);
  }

  lemma {:induction false} ShownFits(c: Config, rec: Record, head: string, t: Tally, disk: Dispatch)
    requires Fits(c, rec, t, disk)
    ensures Fits(c, Shown(c, rec, head), t, disk)
  {
  }

  lemma {:induction false} WithOpenPrFits(
    c: Config, rec: Record, head: string, o: Observation, t: Tally, disk: Dispatch)
    requires Fits(c, rec, t, disk)
    ensures Fits(c, WithOpenPr(c, rec, head, o), t, disk)
  {
    AttachedFits(c, rec, head, o, t, disk);
    ForHeadFits(c, Attached(rec, head, o), head, t, disk);
    ShownFits(c, ForHead(Attached(rec, head, o), head), head, t, disk);
  }

  lemma {:induction false} PlacedFits(c: Config, rec: Record, o: Observation, t: Tally, disk: Dispatch)
    requires Fits(c, rec, t, disk)
    ensures Fits(c, Placed(c, rec, o), t, disk)
  {
    if |o.openHeads| == 1 {
      WithOpenPrFits(c, rec, o.openHeads[0], o, t, disk);
    }
  }

  // ---------------------------------------------------------------------------------------------
  // Every tick keeps it
  // ---------------------------------------------------------------------------------------------

  lemma {:induction false} ReconciledFits(c: Config, disk: Record, o: Observation, t: Tally)
    requires Within(c, disk, t)
    ensures var rec := Loaded(disk);
            var resets := if IsReset(c, rec, o) then t.resets + 1 else t.resets;
            Fits(c, Placed(c, Unlegacied(c, rec, o), o), t.(resets := resets), disk.dispatch)
  {
    var rec := Loaded(disk);
    LoadedFits(c, disk, t);
    UnlegaciedFits(c, rec, o, t, disk.dispatch);
    var resets := if IsReset(c, rec, o) then t.resets + 1 else t.resets;
    PlacedFits(c, Unlegacied(c, rec, o), o, t.(resets := resets), disk.dispatch);
  }

  lemma {:induction false} ReconcileIsGood(c: Config, h: seq<Effect>, o: Observation)
    requires Sound(c, h)
    ensures Good(c, h, Reconcile(c, DiskAfter(h), o))
  {
    var disk := DiskAfter(h);
    var start := Progress(Placed(c, Unlegacied(c, Loaded(disk), o), o), []);
    if IsReset(c, Loaded(disk), o) {
      ResetIsGood(c, h, o);
      SaveIsGood(c, h, Emit(start, LegacyReconciled));
    } else {
      ReconciledFits(c, disk, o, Count(h));
      GoodAt(c, h, start, h);
      SaveIsGood(c, h, start);
    }
  }

  lemma {:induction false} ResetIsGood(c: Config, h: seq<Effect>, o: Observation)
    requires Sound(c, h) && IsReset(c, Loaded(DiskAfter(h)), o)
    ensures Good(c, h, Emit(Progress(Placed(c, Unlegacied(c, Loaded(DiskAfter(h)), o), o), []), LegacyReconciled))
  {
    ReconciledFits(c, DiskAfter(h), o, Count(h));
    ResetIsCounted(c, h, Placed(c, Unlegacied(c, Loaded(DiskAfter(h)), o), o));
  }

  lemma {:induction false} ResetIsCounted(c: Config, h: seq<Effect>, rec: Record)
    requires Sound(c, h) && Fits(c, rec, Count(h).(resets := Count(h).resets + 1), DiskAfter(h).dispatch)
    ensures Good(c, h, Emit(Progress(rec, []), LegacyReconciled))
  {
    MoreResets(c, DiskAfter(h), Count(h).resets);
    SoundSnoc(c, h, LegacyReconciled);
    GoodAt(c, h, Emit(Progress(rec, []), LegacyReconciled), h + [LegacyReconciled]);
  }

  lemma {:induction false} MemoryIsGood(c: Config, h: seq<Effect>, p: Progress, rec: Record)
    requires Good(c, h, p)
    requires Fits(c, p.rec, Count(h + p.effects), DiskAfter(h + p.effects).dispatch)
             ==> Fits(c, rec, Count(h + p.effects), DiskAfter(h + p.effects).dispatch)
    ensures Good(c, h, p.(rec := rec))
  {
  }

  /** A claim that may be saved and triggered while `was` is on disk. */
  predicate MayTrigger(d: Dispatch, was: Dispatch, i: PrInput) {
    && d.key == Some(i.key) && d.lastAttempt.Some?
    && (NewClaim(d, was) || (RetriedClaim(d, was) && GraceOver(was, i.now)))
  }

  lemma {:induction false} MayTriggerFits(d: Dispatch, was: Dispatch, i: PrInput, triggers: nat)
    requires WithinTriggers(was, triggers) && MayTrigger(d, was, i)
    ensures WithinTriggers(d, triggers) && WithinTriggers(d, triggers + 1)
  {
  }

  lemma {:induction false} AfterTriggerFits(c: Config, rec: Record, fails: bool, t: Tally)
    requires Within(c, rec, t) && IsClaim(rec.dispatch.state)
    ensures Fits(c, AfterTrigger(rec, fails), t, rec.dispatch)
  {
  }

  lemma {:induction false} ClaimIsSound(c: Config, log: seq<Effect>, rec: Record, i: PrInput)
    requires Sound(c, log) && WithinBudgets(c, rec, Count(log).resets)
        && MayTrigger(rec.dispatch, DiskAfter(log).dispatch, i)
    ensures var trigger := ReviewTriggered(i.key, i.now + i.delay);
            var after := log + [Saved(rec)] + [trigger];
            Sound(c, after) && DiskAfter(after) == rec && Count(after) == CountOne(Count(log), trigger)
  {
    var trigger, saved := ReviewTriggered(i.key, i.now + i.delay), log + [Saved(rec)];
    MayTriggerFits(rec.dispatch, DiskAfter(log).dispatch, i, Count(log).triggers);
    SoundSnoc(c, log, Saved(rec));
    assert TriggerIsClaimed(saved, trigger.key, trigger.at) by {
      assert saved[..|saved| - 1] == log && saved[|saved| - 1] == Saved(rec);
    }
    SoundSnoc(c, saved, trigger);
  }

  lemma {:induction false} TriggerIsGood(c: Config, h: seq<Effect>, p: Progress, i: PrInput)
    requires var log := h + p.effects;
             && Sound(c, log) && WithinBudgets(c, p.rec, Count(log).resets)
             && MayTrigger(p.rec.dispatch, DiskAfter(log).dispatch, i)
    ensures Good(c, h, TriggerReview(p, i))
  {
    var log, trigger := h + p.effects, ReviewTriggered(i.key, i.now + i.delay);
    ClaimIsSound(c, log, p.rec, i);
    var after := log + [Saved(p.rec)] + [trigger];
    AfterTriggerFits(c, p.rec, i.triggerFails, Count(after));
    TriggerEffects(h, p, i);
    GoodAt(c, h, TriggerReview(p, i), after);
  }

  lemma {:induction false} TriggerEffects(h: seq<Effect>, p: Progress, i: PrInput)
    ensures h + TriggerReview(p, i).effects
            == h + p.effects + [Saved(p.rec)] + [ReviewTriggered(i.key, i.now + i.delay)]
  {
  }

  lemma {:induction false} GoodAt(c: Config, h: seq<Effect>, p: Progress, log: seq<Effect>)
    requires h + p.effects == log && Sound(c, log) && Fits(c, p.rec, Count(log), DiskAfter(log).dispatch)
    ensures Good(c, h, p)
  {
  }

  /** What a step comes to keeps the budgets and the claim, or makes a claim that may be triggered. */
  predicate StepFits(c: Config, step: Step, i: PrInput, t: Tally, disk: Dispatch) {
    if step.action.Trigger? then WithinBudgets(c, step.rec, t.resets) && MayTrigger(step.rec.dispatch, disk, i)
    else QuietFits(c, step, t, disk)
  }

  lemma {:induction false} NoRunFits(c: Config, rec: Record, i: PrInput, t: Tally, disk: Dispatch)
    requires Fits(c, rec, t, disk)
    ensures StepFits(c, NoRun(c, rec, i), i, t, disk)
  {
  }

  lemma {:induction false} ClaimFits(c: Config, rec: Record, i: PrInput, t: Tally, disk: Dispatch)
    requires WithinBudgets(c, rec, t.resets) && rec.dispatch.attempts == disk.attempts
    ensures StepFits(c, Step(Claim(rec, i), Trigger), i, t, disk)
  {
  }

  lemma {:induction false} ProvenRunFits(
    c: Config, rec: Record, i: PrInput, semantics: Semantics, kept: Record, t: Tally, disk: Dispatch)
    requires Fits(c, rec, t, disk) && Fits(c, kept, t, disk)
    ensures StepFits(c, ProvenRun(c, rec, i, semantics, kept), i, t, disk)
  {
    if semantics.Invalid? {
      ClaimFits(c, ForgetVerdict(rec), i, t, disk);
    } else {
      ProcessedFits(c, kept, i.head, semantics.verdict, t, disk);
      if semantics.Rejected? {
        ReviewRejectedFits(c, Processed(kept, i.head, semantics.verdict), i, semantics.verdict, semantics.reason, t,
          disk);
      }
    }
  }

  lemma {:induction false} FinishedRunFits(c: Config, rec: Record, i: PrInput, run: ReviewRun, t: Tally, disk: Dispatch)
    requires Fits(c, rec, t, disk)
    requires IsClaim(rec.dispatch.state) ==> rec.dispatch.key == Some(i.key)
    ensures StepFits(c, FinishedRun(c, rec, i, run), i, t, disk)
  {
    var running := WithRun(rec, i, run);
    WithRunFits(c, rec, i, run, t, disk);
    if AuthorityOf(rec, i, run).Proven? {
      var judged := Judged(c, rec, i, run);
      WithLedgerFits(c, running, i, run, judged.ledger, t, disk);
      ProvenRunFits(c, running, i, SemanticsOf(judged.verdict, run), WithLedger(running, i, run, judged.ledger), t,
        disk);
    } else {
      ClaimFits(c, ForgetVerdict(running), i, t, disk);
    }
  }

  lemma {:induction false} WithLedgerFits(
    c: Config, rec: Record, i: PrInput, run: ReviewRun, findings: seq<FindingLedger.Finding>, t: Tally, disk: Dispatch)
    requires Fits(c, rec, t, disk)
    ensures Fits(c, WithLedger(rec, i, run, findings), t, disk)
  {
  }

  lemma {:induction false} WithRunFits(c: Config, rec: Record, i: PrInput, run: ReviewRun, t: Tally, disk: Dispatch)
    requires Fits(c, rec, t, disk) && (IsClaim(rec.dispatch.state) ==> rec.dispatch.key == Some(i.key))
    ensures Fits(c, WithRun(rec, i, run), t, disk)
  {
  }

  lemma {:induction false} ProcessedFits(
    c: Config, rec: Record, head: string, verdict: string, t: Tally, disk: Dispatch)
    requires Fits(c, rec, t, disk)
    ensures Fits(c, Processed(rec, head, verdict), t, disk)
  {
  }

  lemma {:induction false} ReviewedFits(c: Config, before: Record, i: PrInput, t: Tally, disk: Dispatch)
    requires Fits(c, before, t, disk)
    ensures StepFits(c, Reviewed(c, before, i), i, t, disk)
  {
    var rec := ForKey(before, i.key);
    DroppedFits(c, before, t, disk);
    DroppedFits(c, DropDispatch(before), t, disk);
    if i.run.None? {
      NoRunFits(c, rec, i, t, disk);
    } else if i.run.value.finished {
      FinishedRunFits(c, rec, i, i.run.value, t, disk);
    }
  }

  lemma {:induction false} NotMergedFits(c: Config, rec: Record, i: PrInput, t: Tally, disk: Dispatch)
    requires Fits(c, rec, t, disk) && (i.protectedPaths || !i.merge.Mergeable?)
    ensures QuietFits(c, NotMerged(c, rec, i), t, disk)
  {
    EscalateFits(c, rec, ReplanFor(i), t, disk);
  }

  lemma {:induction false} TakeIsGood(c: Config, h: seq<Effect>, p: Progress, step: Step)
    requires Good(c, h, p)
    requires QuietFits(c, step, Count(h + p.effects), DiskAfter(h + p.effects).dispatch)
    ensures Good(c, h, Take(p, step))
  {
    MemoryIsGood(c, h, p, step.rec);
    if step.action.Tell? {
      EmitIsGood(c, h, p.(rec := step.rec), step.action.effect);
    }
  }

  lemma {:induction false} MergeIsGood(c: Config, h: seq<Effect>, p: Progress, i: PrInput)
    requires Good(c, h, p)
    ensures Good(c, h, Merge(c, p, i))
  {
    if i.protectedPaths || !i.merge.Mergeable? {
      NotMergedFits(c, p.rec, i, Count(h + p.effects), DiskAfter(h + p.effects).dispatch);
      TakeIsGood(c, h, p, NotMerged(c, p.rec, i));
    } else {
      EmitIsGood(c, h, p, Merged(i.head));
      MemoryIsGood(c, h, Emit(p, Merged(i.head)), p.rec.(status := Completed));
    }
  }

  lemma {:induction false} HandlePrIsGood(c: Config, h: seq<Effect>, p: Progress, i: PrInput)
    requires Good(c, h, p)
    ensures Good(c, h, HandlePr(c, p, i))
  {
    var t, disk := Count(h + p.effects), DiskAfter(h + p.effects).dispatch;
    if p.rec.status == Blocked {
    } else if i.ci != Pass {
      CiNotPassedFits(c, p.rec, i, t, disk);
      TakeIsGood(c, h, p, CiNotPassed(c, p.rec, i));
    } else if !i.reviewRequired {
      MergeIsGood(c, h, p, i);
    } else {
      ReviewIsGood(c, h, p, i);
    }
  }

  lemma {:induction false} ReviewIsGood(c: Config, h: seq<Effect>, p: Progress, i: PrInput)
    requires Good(c, h, p) && p.rec.status != Blocked && i.ci == Pass && i.reviewRequired
    ensures Good(c, h, HandlePr(c, p, i))
  {
    var t, disk := Count(h + p.effects), DiskAfter(h + p.effects).dispatch;
    var step := Reviewed(c, p.rec, i);
    ReviewedFits(c, p.rec, i, t, disk);
    if step.action.Trigger? {
      TriggerIsGood(c, h, p.(rec := step.rec), i);
    } else {
      TakeIsGood(c, h, p, step);
      if step.action.SendCorrection? {
        EmitIsGood(c, h, Take(p, step), CorrectionSent(i.head));
      } else if step.action.GoOn? {
        MergeIsGood(c, h, Take(p, step), i);
      }
    }
  }

  lemma {:induction false} WorkIsGood(c: Config, h: seq<Effect>, p: Progress, work: seq<Work>)
    requires Good(c, h, p)
    ensures Good(c, h, DoAll(c, p, work))
  {
    if work == [] {
    } else {
      var q, w := DoAll(c, p, work[..|work| - 1]), work[|work| - 1];
      WorkIsGood(c, h, p, work[..|work| - 1]);
      if w.LookAtPr? {
        HandlePrIsGood(c, h, q, w.input);
      } else {
        DoRecordFits(c, q.rec, w, Count(h + q.effects), DiskAfter(h + q.effects).dispatch);
        TakeIsGood(c, h, q, Step(DoRecord(c, q.rec, w), if w.RequeueWorker? then Tell(WorkerRequeued) else Stop));
      }
    }
  }

  lemma {:induction false} SoundPrefix(c: Config, log: seq<Effect>, n: nat)
    requires Sound(c, log) && n <= |log|
    ensures Sound(c, log[..n])
  {
    if n == |log| {
      assert log[..n] == log;
    } else {
      SoundPrefix(c, log[..|log| - 1], n);
      assert log[..|log| - 1][..n] == log[..n];
    }
  }

  lemma {:induction false} SplitCut(h: seq<Effect>, effects: seq<Effect>, life: nat)
    requires life < |effects|
    ensures h + Cut(effects, life) == (h + effects)[..|h| + life] + [Crashed]
  {
    assert (h + effects)[..|h| + life] == h + effects[..life];
  }

  lemma {:induction false} DeathIsSound(c: Config, log: seq<Effect>, n: nat, cut: seq<Effect>)
    requires Sound(c, log) && n <= |log| && cut == log[..n] + [Crashed]
    ensures Sound(c, cut)
  {
    SoundPrefix(c, log, n);
    SoundSnoc(c, log[..n], Crashed);
  }

  lemma {:induction false} CutIsSound(c: Config, h: seq<Effect>, effects: seq<Effect>, life: nat)
    requires Sound(c, h + effects)
    ensures Sound(c, h + Cut(effects, life))
  {
    if life < |effects| {
      SplitCut(h, effects, life);
      DeathIsSound(c, h + effects, |h| + life, h + Cut(effects, life));
    } else {
      assert Cut(effects, life) == effects;
    }
  }

  lemma {:induction false} RunIsSound(c: Config, ticks: seq<Tick>)
    ensures Sound(c, RunLog(c, ticks))
  {
    if ticks == [] {
    } else {
      var h, t := RunLog(c, ticks[..|ticks| - 1]), ticks[|ticks| - 1];
      RunIsSound(c, ticks[..|ticks| - 1]);
      var p := Reconcile(c, DiskAfter(h), t.observation);
      ReconcileIsGood(c, h, t.observation);
      WorkIsGood(c, h, p, t.work);
      SaveIsGood(c, h, DoAll(c, p, t.work));
      CutIsSound(c, h, TickEffects(c, DiskAfter(h), t), t.life);
    }
  }

  // ---------------------------------------------------------------------------------------------
  // The results
  // ---------------------------------------------------------------------------------------------

  /** The log at some moment of some run from a fresh record. */
  predicate Happens(c: Config, ticks: seq<Tick>, log: seq<Effect>) {
    log <= RunLog(c, ticks)
  }

  lemma {:induction false} HappensIsSound(c: Config, ticks: seq<Tick>, log: seq<Effect>)
    requires Happens(c, ticks, log)
    ensures Sound(c, log)
  {
    RunIsSound(c, ticks);
    SoundPrefix(c, RunLog(c, ticks), |log|);
    assert RunLog(c, ticks)[..|log|] == log;
  }

  predicate TriggersWithin(log: seq<Effect>) {
    Count(log).triggers <= 2 * DiskAfter(log).dispatch.attempts
  }

  lemma {:induction false} SoundMeansTriggersWithin(c: Config, log: seq<Effect>)
    requires Sound(c, log)
    ensures TriggersWithin(log)
  {
  }

  /** At every moment, dead ticks included, the triggered reviews are at most two for each review attempt
      that is on disk. */
  lemma {:induction false} TriggersAreBounded(c: Config, ticks: seq<Tick>, log: seq<Effect>)
    requires Happens(c, ticks, log)
    ensures TriggersWithin(log)
  {
    HappensIsSound(c, ticks, log);
    SoundMeansTriggersWithin(c, log);
  }

  /** The triggers of one key. */
  function KeyTriggers(log: seq<Effect>, key: string): nat {
    if log == [] then 0
    else
      var e := log[|log| - 1];
      KeyTriggers(log[..|log| - 1], key) + (if e.ReviewTriggered? && e.key == key then 1 else 0)
  }

  /** The claims saved for it. */
  function KeyClaims(log: seq<Effect>, key: string): nat {
    if log == [] then 0
    else
      var before, e := log[..|log| - 1], log[|log| - 1];
      KeyClaims(before, key)
      + (if e.Saved? && e.record.dispatch.key == Some(key)
        && NewClaim(e.record.dispatch, DiskAfter(before).dispatch) then 1 else 0)
  }

  function LeftFor(d: Dispatch, key: string): nat {
    if d.key == Some(key) then Left(d) else 0
  }

  predicate KeyWithin(log: seq<Effect>, key: string) {
    KeyTriggers(log, key) + LeftFor(DiskAfter(log).dispatch, key) <= 2 * KeyClaims(log, key)
  }

  lemma {:induction false} SoundMeansKeyWithin(c: Config, log: seq<Effect>, key: string)
    requires Sound(c, log)
    ensures KeyWithin(log, key)
  {
    if log == [] {
    } else {
      var before, e := log[..|log| - 1], log[|log| - 1];
      SoundMeansKeyWithin(c, before, key);
      if e.ReviewTriggered? {
        SoundMeansKeyWithin(c, before[..|before| - 1], key);
      }
    }
  }

  /** In every run the triggers of one key are at most two for each claim saved for it, so at most two
      when it is claimed once. */
  lemma {:induction false} KeyIsTriggeredTwicePerClaim(c: Config, ticks: seq<Tick>, log: seq<Effect>, key: string)
    requires Happens(c, ticks, log)
    ensures KeyTriggers(log, key) <= 2 * KeyClaims(log, key)
  {
    HappensIsSound(c, ticks, log);
    SoundMeansKeyWithin(c, log, key);
  }

  lemma {:induction false} SoundMeansClaimed(c: Config, before: seq<Effect>, key: string, at: int)
    requires Sound(c, before + [ReviewTriggered(key, at)])
    ensures TriggerIsClaimed(before, key, at)
  {
    Snoc(before, ReviewTriggered(key, at));
  }

  /** Every trigger follows the save of a claim for its key, and a retry comes at least thirty seconds
      after the last attempt recorded on disk. */
  lemma {:induction false} EveryTriggerIsClaimed(c: Config, ticks: seq<Tick>, before: seq<Effect>, key: string, at: int)
    requires Happens(c, ticks, before + [ReviewTriggered(key, at)])
    ensures TriggerIsClaimed(before, key, at)
  {
    HappensIsSound(c, ticks, before + [ReviewTriggered(key, at)]);
    SoundMeansClaimed(c, before, key, at);
  }

  /** The limits that the record on disk keeps. Lifetime corrections are bounded by the limit of one epoch
      times one plus the resets, which are the recovery epochs and the legacy reconciliations. */
  predicate LimitsKept(c: Config, log: seq<Effect>) {
    var rec, resets := DiskAfter(log), Count(log).resets;
    && rec.recovery.epoch <= c.maxEpochs && rec.recovery.cycles <= c.maxCycles
    && rec.ci.usedInEpoch <= c.maxCiRounds && rec.review.usedInEpoch <= c.maxReviewCycles
    && rec.ci.infraRetries <= c.maxInfraRetries && rec.ci.integrationUsed <= c.maxIntegration
    && rec.review.used <= c.maxReviewCycles * (1 + rec.recovery.epoch + resets)
    && rec.ci.used <= c.maxCiRounds * (1 + rec.recovery.epoch + resets)
  }

  lemma {:induction false} SoundMeansLimitsKept(c: Config, log: seq<Effect>)
    requires Sound(c, log)
    ensures LimitsKept(c, log)
  {
    var rec, n := DiskAfter(log), DiskAfter(log).recovery.epoch + Count(log).resets;
    TimesMultiplies(c.maxReviewCycles, n + 1);
    TimesMultiplies(c.maxCiRounds, n + 1);
    assert 1 + rec.recovery.epoch + Count(log).resets == n + 1;
  }

  lemma {:induction false} BudgetsHold(c: Config, ticks: seq<Tick>, log: seq<Effect>)
    requires Happens(c, ticks, log)
    ensures LimitsKept(c, log)
  {
    HappensIsSound(c, ticks, log);
    SoundMeansLimitsKept(c, log);
  }

  // ---------------------------------------------------------------------------------------------
  // Merges
  // ---------------------------------------------------------------------------------------------

  /** What the review of the look must be to be accepted, said of the record and the run alone. While a
      baseline is frozen it closes every frozen blocker and reports no new one; otherwise it approves and only
      suggests. */
  ghost predicate Acceptable(c: Config, rec: Record, i: PrInput, run: ReviewRun) {
    var r := run.reading.review;
    && run.reading.structuredBlockers == 0
    && if rec.ledger.baselineId.Some? && !i.scopeChanged then
         && (forall f | f in rec.ledger.findings && f.blocking :: FindingLedger.Closes(c.reader, r, f))
         && FindingLedger.NothingNewBlocks(c.reader, rec.ledger.findings, r)
       else
         && (run.raw in {"approved", "pass"} || run.reading.stated == FindingLedger.StatedApproval)
         && FindingLedger.OnlySuggests(c.reader, r)
  }

  lemma {:induction false} JudgedExactlyWhen(c: Config, rec: Record, i: PrInput, run: ReviewRun)
    ensures Judged(c, rec, i, run).ok <==> Acceptable(c, rec, i, run)
  {
    FindingLedger.AcceptedExactlyWhen(c.reader, InClosure(rec, i), Some(rec.ledger.findings), ReadingOf(run));
  }

  /** A finished review of the head that names exactly the expected context. */
  predicate ReviewIsProven(rec: Record, i: PrInput) {
    && rec.session.Some? && i.run.Some? && i.run.value.finished
    && i.run.value.raw !in {"commented", "missing"} && i.run.value.markers == [i.digest]
  }

  /** The look comes to the question whether the pull request can be merged: CI passes and, where a review is
      required, a proven one is acceptable. */
  ghost predicate ReachesMerge(c: Config, rec: Record, i: PrInput) {
    && rec.status != Blocked && i.ci == Pass
    && (i.reviewRequired ==> ReviewIsProven(rec, i) && Acceptable(c, rec, i, i.run.value))
  }

  /** The look merges this head: it comes to that, nothing stands against the merge and, where a review is
      required, the record's ledger is left without an open blocker. */
  ghost predicate Merges(c: Config, rec: Record, i: PrInput, head: string) {
    && ReachesMerge(c, rec, i) && i.head == head && !i.protectedPaths && i.merge == Mergeable
    && (i.reviewRequired ==>
          && Reviewed(c, rec, i).rec.ledger.findings == Judged(c, rec, i, i.run.value).ledger
          && forall f | f in Reviewed(c, rec, i).rec.ledger.findings :: !FindingLedger.IsOpenBlocker(f))
  }

  /** What tick `k` of the run has done before its piece of work `j`. */
  function ProgressAt(c: Config, ticks: seq<Tick>, k: nat, j: nat): Progress
    requires k < |ticks| && j <= |ticks[k].work|
  {
    DoAll(c, Reconcile(c, DiskAfter(RunLog(c, ticks[..k])), ticks[k].observation), ticks[k].work[..j])
  }

  /** At this point of the log, a look of the run merges. */
  ghost predicate MergesAt(c: Config, ticks: seq<Tick>, before: seq<Effect>, head: string, k: int, j: int) {
    && 0 <= k < |ticks| && 0 <= j < |ticks[k].work| && ticks[k].work[j].LookAtPr?
    && before == RunLog(c, ticks[..k]) + ProgressAt(c, ticks, k, j).effects
    && Merges(c, ProgressAt(c, ticks, k, j).rec, ticks[k].work[j].input, head)
  }

  /** What a proven review is processed as. */
  function Proved(c: Config, rec: Record, i: PrInput): Step
    requires i.run.Some?
  {
    var run := i.run.value;
    var judged, running := Judged(c, rec, i, run), WithRun(ForKey(rec, i.key), i, run);
    ProvenRun(c, running, i, SemanticsOf(judged.verdict, run), WithLedger(running, i, run, judged.ledger))
  }

  lemma {:induction false} ProvenIsProcessed(c: Config, rec: Record, i: PrInput)
    ensures ReviewIsProven(rec, i) ==> Reviewed(c, rec, i) == Proved(c, rec, i)
    ensures !ReviewIsProven(rec, i) ==> Reviewed(c, rec, i).action in {Stop, Trigger}
  {
    assert ForKey(rec, i.key).ledger == rec.ledger;
  }

  lemma {:induction false} ProvedGoesOn(c: Config, rec: Record, i: PrInput)
    requires i.run.Some?
    ensures Proved(c, rec, i).action.GoOn? <==> Judged(c, rec, i, i.run.value).ok
  {
    var run := i.run.value;
    var judged, running := Judged(c, rec, i, run), WithRun(ForKey(rec, i.key), i, run);
    RunGoesOn(c, running, i, SemanticsOf(judged.verdict, run), WithLedger(running, i, run, judged.ledger));
  }

  lemma {:induction false} RunGoesOn(c: Config, rec: Record, i: PrInput, semantics: Semantics, kept: Record)
    ensures ProvenRun(c, rec, i, semantics, kept).action.GoOn? <==> semantics.Accepted?
  {
    if semantics.Rejected? {
      var done := Processed(kept, i.head, semantics.verdict);
      EscalateSays(c, done.(review := done.review.(terminalRejection := Some(i.head))), ReplanFor(i));
    }
  }

  lemma {:induction false} GoesOnExactlyWhen(c: Config, rec: Record, i: PrInput)
    ensures Reviewed(c, rec, i).action.GoOn? <==> ReviewIsProven(rec, i) && Acceptable(c, rec, i, i.run.value)
  {
    ProvenIsProcessed(c, rec, i);
    if i.run.Some? {
      ProvedGoesOn(c, rec, i);
      JudgedExactlyWhen(c, rec, i, i.run.value);
    }
  }

  /** The record with the judged ledger of an acceptance, which leaves nothing else to say. */
  lemma {:induction false} ProvedAccepts(c: Config, rec: Record, i: PrInput)
    requires i.run.Some? && Proved(c, rec, i).action.GoOn?
    ensures var after := Proved(c, rec, i).rec;
            && after.lastError.None? && after.session == rec.session && after.ci == rec.ci
            && after.recovery == rec.recovery && after.ledger.findings == Judged(c, rec, i, i.run.value).ledger
  {
    var run := i.run.value;
    var judged, running := Judged(c, rec, i, run), WithRun(ForKey(rec, i.key), i, run);
    var kept := WithLedger(running, i, run, judged.ledger);
    KeptInLedger(rec, i, run, judged.ledger);
    AcceptedRun(c, running, i, SemanticsOf(judged.verdict, run), kept);
  }

  lemma {:induction false} KeptInLedger(rec: Record, i: PrInput, run: ReviewRun, findings: seq<FindingLedger.Finding>)
    ensures var kept := WithLedger(WithRun(ForKey(rec, i.key), i, run), i, run, findings);
            && kept.session == rec.session && kept.ci == rec.ci && kept.recovery == rec.recovery
            && kept.ledger.findings == findings
  {
  }

  lemma {:induction false} AcceptedRun(c: Config, rec: Record, i: PrInput, semantics: Semantics, kept: Record)
    requires ProvenRun(c, rec, i, semantics, kept).action.GoOn?
    ensures var after := ProvenRun(c, rec, i, semantics, kept).rec;
            && after.lastError.None? && after.session == kept.session && after.ci == kept.ci
            && after.recovery == kept.recovery && after.ledger == kept.ledger
  {
    if semantics.Rejected? {
      var done := Processed(kept, i.head, semantics.verdict);
      EscalateSays(c, done.(review := done.review.(terminalRejection := Some(i.head))), ReplanFor(i));
    }
  }

  lemma {:induction false} ReviewGoesOn(c: Config, rec: Record, i: PrInput)
    requires Reviewed(c, rec, i).action.GoOn?
    ensures ReviewIsProven(rec, i) && Acceptable(c, rec, i, i.run.value)
    ensures Reviewed(c, rec, i).rec.ledger.findings == Judged(c, rec, i, i.run.value).ledger
    ensures forall f | f in Reviewed(c, rec, i).rec.ledger.findings :: !FindingLedger.IsOpenBlocker(f)
  {
    GoesOnExactlyWhen(c, rec, i);
    AcceptedKeepsLedger(c, rec, i);
    JudgedLeavesNoneOpen(c, rec, i, i.run.value);
  }

  lemma {:induction false} AcceptedKeepsLedger(c: Config, rec: Record, i: PrInput)
    requires ReviewIsProven(rec, i) && Reviewed(c, rec, i).action.GoOn?
    ensures Reviewed(c, rec, i).rec.ledger.findings == Judged(c, rec, i, i.run.value).ledger
  {
    ProvenIsProcessed(c, rec, i);
    ProvedAccepts(c, rec, i);
  }

  lemma {:induction false} JudgedLeavesNoneOpen(c: Config, rec: Record, i: PrInput, run: ReviewRun)
    requires Acceptable(c, rec, i, run)
    ensures forall f | f in Judged(c, rec, i, run).ledger :: !FindingLedger.IsOpenBlocker(f)
  {
    JudgedExactlyWhen(c, rec, i, run);
    FindingLedger.OpenBlockersAreAll(Judged(c, rec, i, run).ledger);
  }

  /** A look adds a merge only as its single effect, and only when it merges. */
  lemma {:induction false} LookMerges(c: Config, p: Progress, i: PrInput, before: seq<Effect>, head: string)
    requires before + [Merged(head)] <= HandlePr(c, p, i).effects && |before| >= |p.effects|
    ensures before == p.effects && Merges(c, p.rec, i, head)
  {
    var after := HandlePr(c, p, i).effects;
    assert after[|before|] == Merged(head);
    assert after[..|before|] == before;
    LookAdds(c, p, i);
    assert p.effects == after[..|p.effects|];
    OnlyMergeIsMerged(c, p.rec, i, |before| - |p.effects|);
    if i.reviewRequired {
      ReviewGoesOn(c, p.rec, i);
    }
  }

  /** What a step says besides. */
  function Said(action: Action): seq<Effect> {
    if action.Tell? then [action.effect] else []
  }

  function MergeNews(c: Config, rec: Record, i: PrInput): seq<Effect> {
    if i.protectedPaths || !i.merge.Mergeable? then Said(NotMerged(c, rec, i).action) else [Merged(i.head)]
  }

  /** The effects that a look adds. */
  function News(c: Config, rec: Record, i: PrInput): seq<Effect> {
    if rec.status == Blocked then []
    else if i.ci != Pass then Said(CiNotPassed(c, rec, i).action)
    else if !i.reviewRequired then MergeNews(c, rec, i)
    else
      var step := Reviewed(c, rec, i);
      match step.action
      case Trigger => [Saved(step.rec), ReviewTriggered(i.key, i.now + i.delay)]
      case SendCorrection => [CorrectionSent(i.head)]
      case GoOn => MergeNews(c, step.rec, i)
      case _ => Said(step.action)
  }

  lemma {:induction false} MergeAdds(c: Config, p: Progress, i: PrInput)
    ensures Merge(c, p, i).effects == p.effects + MergeNews(c, p.rec, i)
  {
  }

  lemma {:induction false} LookAdds(c: Config, p: Progress, i: PrInput)
    ensures HandlePr(c, p, i).effects == p.effects + News(c, p.rec, i)
  {
    var step := Reviewed(c, p.rec, i);
    MergeAdds(c, p, i);
    MergeAdds(c, p.(rec := step.rec), i);
    if step.action.Trigger? {
      TriggerEffects([], p.(rec := step.rec), i);
    }
  }

  // Which messages the handlers send.

  lemma {:induction false} EscalateSays(c: Config, rec: Record, r: Replan)
    ensures Escalate(c, rec, r).action in {Stop, Tell(EpochBegun)}
  {
  }

  lemma {:induction false} CiSays(c: Config, rec: Record, i: PrInput)
    requires i.ci != Pass
    ensures CiNotPassed(c, rec, i).action
            in {Stop, Tell(EpochBegun), Tell(CiFixSent(i.head)), Tell(CiFixRepeated(i.head)), Tell(RerunAsked(i.head))}
  {
    EscalateSays(c, rec.(status := Ci), ReplanFor(i));
  }

  lemma {:induction false} ReviewSays(c: Config, rec: Record, i: PrInput)
    ensures Reviewed(c, rec, i).action in {Stop, Trigger, SendCorrection, GoOn, Tell(EpochBegun)}
  {
  }

  lemma {:induction false} UnmergedSays(c: Config, rec: Record, i: PrInput)
    requires i.protectedPaths || !i.merge.Mergeable?
    ensures NotMerged(c, rec, i).action in {Stop, Tell(EpochBegun), Tell(MergeUpdateSent(i.head))}
  {
    EscalateSays(c, rec, ReplanFor(i));
  }

  lemma {:induction false} MergeSays(c: Config, rec: Record, i: PrInput)
    ensures forall e | e in MergeNews(c, rec, i) :: e in {Merged(i.head), EpochBegun, MergeUpdateSent(i.head)}
  {
    if i.protectedPaths || !i.merge.Mergeable? {
      UnmergedSays(c, rec, i);
    }
  }

  lemma {:induction false} OnlyMergeIsMerged(c: Config, rec: Record, i: PrInput, at: nat)
    requires at < |News(c, rec, i)| && News(c, rec, i)[at].Merged?
    ensures at == 0 && News(c, rec, i)[at] == Merged(i.head)
    ensures rec.status != Blocked && i.ci == Pass && !i.protectedPaths && i.merge == Mergeable
    ensures i.reviewRequired ==> Reviewed(c, rec, i).action.GoOn?
  {
    if i.ci != Pass {
      CiSays(c, rec, i);
    } else if i.protectedPaths || !i.merge.Mergeable? {
      UnmergedSays(c, rec, i);
      UnmergedSays(c, Reviewed(c, rec, i).rec, i);
    }
    ReviewSays(c, rec, i);
  }

  lemma {:induction false} LookExtends(c: Config, p: Progress, i: PrInput)
    ensures p.effects <= HandlePr(c, p, i).effects
  {
    LookAdds(c, p, i);
  }

  lemma {:induction false} WorkMerges(c: Config, start: Progress, work: seq<Work>, before: seq<Effect>, head: string)
    requires before + [Merged(head)] <= DoAll(c, start, work).effects && |before| >= |start.effects|
    ensures exists j :: 0 <= j < |work| && work[j].LookAtPr? && before == DoAll(c, start, work[..j]).effects
                        && Merges(c, DoAll(c, start, work[..j]).rec, work[j].input, head)
  {
    var n := |work| - 1;
    var front, w := work[..n], work[n];
    var q := DoAll(c, start, front);
    if |before| >= |q.effects| {
      assert DoAll(c, start, work).effects[|before|] == Merged(head);
      LookMerges(c, q, w.input, before, head);
    } else {
      if w.LookAtPr? {
        LookExtends(c, q, w.input);
      }
      WorkMerges(c, start, front, before, head);
      var j :| 0 <= j < n && front[j].LookAtPr? && before == DoAll(c, start, front[..j]).effects
               && Merges(c, DoAll(c, start, front[..j]).rec, front[j].input, head);
      assert front[..j] == work[..j] && front[j] == work[j];
    }
  }

  lemma {:induction false} CutKeepsPrefix(effects: seq<Effect>, life: nat, before: seq<Effect>, e: Effect)
    requires before + [e] <= Cut(effects, life) && e != Crashed
    ensures before + [e] <= effects
  {
    var cut := Cut(effects, life);
    assert cut[|before|] == e;
    assert cut[..|before| + 1] == before + [e];
  }

  lemma {:induction false} SplitPrefix(h: seq<Effect>, effects: seq<Effect>, before: seq<Effect>, e: Effect)
    requires before + [e] <= h + effects && |h| <= |before|
    ensures h <= before && before[|h|..] + [e] <= effects && before == h + before[|h|..]
  {
    var whole := h + effects;
    assert whole[..|before| + 1] == before + [e];
    assert before == whole[..|before|];
    assert (before + [e])[|h|..] == before[|h|..] + [e];
    assert whole[..|before| + 1][|h|..] == effects[..|before| + 1 - |h|];
    assert before[..|h|] == h;
  }

  lemma {:induction false} TickMerges(c: Config, disk: Record, t: Tick, before: seq<Effect>, head: string)
    requires before + [Merged(head)] <= Cut(TickEffects(c, disk, t), t.life)
    ensures exists j :: 0 <= j < |t.work| && t.work[j].LookAtPr?
                        && before == DoAll(c, Reconcile(c, disk, t.observation), t.work[..j]).effects
                        && Merges(c, DoAll(c, Reconcile(c, disk, t.observation), t.work[..j]).rec, t.work[j].input,
                           head)
  {
    var start := Reconcile(c, disk, t.observation);
    var done := DoAll(c, start, t.work);
    var effects := TickEffects(c, disk, t);
    CutKeepsPrefix(effects, t.life, before, Merged(head));
    assert effects[|before|] == Merged(head);
    assert effects[..|before| + 1] == before + [Merged(head)];
    WorkExtends(c, start, t.work);
    assert |before| >= |start.effects|;
    assert before + [Merged(head)] <= done.effects;
    WorkMerges(c, start, t.work, before, head);
  }

  lemma {:induction false} WorkExtends(c: Config, p: Progress, work: seq<Work>)
    ensures p.effects <= DoAll(c, p, work).effects
  {
    if work == [] {
    } else {
      WorkExtends(c, p, work[..|work| - 1]);
      if work[|work| - 1].LookAtPr? {
        LookExtends(c, DoAll(c, p, work[..|work| - 1]), work[|work| - 1].input);
      }
    }
  }

  lemma {:induction false} EarlierMerge(c: Config, ticks: seq<Tick>, before: seq<Effect>, head: string, k: int, j: int)
    requires ticks != [] && MergesAt(c, ticks[..|ticks| - 1], before, head, k, j)
    ensures MergesAt(c, ticks, before, head, k, j)
  {
    var front := ticks[..|ticks| - 1];
    assert front[..k] == ticks[..k] && front[k] == ticks[k];
    assert ProgressAt(c, ticks, k, j) == ProgressAt(c, front, k, j);
  }

  lemma {:induction false} LastTickMerges(
    c: Config, ticks: seq<Tick>, inTick: seq<Effect>, head: string)
    returns (j: int)
    requires ticks != []
    requires var h, t := RunLog(c, ticks[..|ticks| - 1]), ticks[|ticks| - 1];
             inTick + [Merged(head)] <= Cut(TickEffects(c, DiskAfter(h), t), t.life)
    ensures MergesAt(c, ticks, RunLog(c, ticks[..|ticks| - 1]) + inTick, head, |ticks| - 1, j)
  {
    var n := |ticks| - 1;
    var h, t := RunLog(c, ticks[..n]), ticks[n];
    TickMerges(c, DiskAfter(h), t, inTick, head);
    var start := Reconcile(c, DiskAfter(h), t.observation);
    j :| 0 <= j < |t.work| && t.work[j].LookAtPr? && inTick == DoAll(c, start, t.work[..j]).effects
         && Merges(c, DoAll(c, start, t.work[..j]).rec, t.work[j].input, head);
    assert ProgressAt(c, ticks, n, j) == DoAll(c, start, t.work[..j]);
  }

  lemma {:induction false} RunLogSnoc(c: Config, ticks: seq<Tick>)
    requires ticks != []
    ensures var h, t := RunLog(c, ticks[..|ticks| - 1]), ticks[|ticks| - 1];
            RunLog(c, ticks) == h + Cut(TickEffects(c, DiskAfter(h), t), t.life)
  {
  }

  /** Every merge in every log is made by a look that stands at that very point of the run, and that look
      approves the merged head. */
  lemma {:induction false} EveryMergeIsApproved(c: Config, ticks: seq<Tick>, before: seq<Effect>, head: string)
    requires Happens(c, ticks, before + [Merged(head)])
    ensures exists k, j :: MergesAt(c, ticks, before, head, k, j)
  {
    var front, t := ticks[..|ticks| - 1], ticks[|ticks| - 1];
    var h := RunLog(c, front);
    RunLogSnoc(c, ticks);
    if |before| < |h| {
      EveryMergeIsApproved(c, front, before, head);
      var k, j :| MergesAt(c, front, before, head, k, j);
      EarlierMerge(c, ticks, before, head, k, j);
    } else {
      SplitPrefix(h, Cut(TickEffects(c, DiskAfter(h), t), t.life), before, Merged(head));
      var j := LastTickMerges(c, ticks, before[|h|..], head);
      assert MergesAt(c, ticks, before, head, |ticks| - 1, j);
    }
  }
}
