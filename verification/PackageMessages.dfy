/** What the counters of a package count: messages, reruns and recovery epochs, recounted from the log alone,
    and when exactly a look at a pull request sends a message or stops for want of a budget. */
module PackageMessages {
  import opened Text
  import opened PackageController
  import opened PackageRuns
  import FindingLedger

  // ---------------------------------------------------------------------------------------------
  // Counting from the log
  // ---------------------------------------------------------------------------------------------

  datatype Counter =
    | ReviewCorrections | EpochReviewCorrections | CiCorrections | EpochCiCorrections | Reruns | MergeUpdates | Epochs

  function On(rec: Record, k: Counter): nat {
    match k
    case ReviewCorrections => rec.review.used
    case EpochReviewCorrections => rec.review.usedInEpoch
    case CiCorrections => rec.ci.used
    case EpochCiCorrections => rec.ci.usedInEpoch
    case Reruns => rec.ci.infraRetries
    case MergeUpdates => rec.ci.integrationUsed
    case Epochs => rec.recovery.epoch
  }

  /** The effect that the counter counts. */
  predicate Advances(e: Effect, k: Counter) {
    match k
    case ReviewCorrections => e.CorrectionSent?
    case EpochReviewCorrections => e.CorrectionSent?
    case CiCorrections => e.CiFixSent?
    case EpochCiCorrections => e.CiFixSent?
    case Reruns => e.RerunAsked?
    case MergeUpdates => e.MergeUpdateSent?
    case Epochs => e.EpochBegun?
  }

  /** The event with which it starts anew. */
  predicate Restarts(e: Effect, k: Counter) {
    match k
    case EpochReviewCorrections => e.EpochBegun? || e.LegacyReconciled?
    case CiCorrections => e.WorkerRequeued?
    case EpochCiCorrections => e.EpochBegun? || e.LegacyReconciled?
    case Reruns => e.EpochBegun? || e.WorkerRequeued?
    case MergeUpdates => e.WorkerRequeued?
    case _ => false
  }

  /** What a process counts that forgets at its death what it has not saved: the count on disk and the one
      in memory. */
  datatype Recount = Recount(disk: nat, memory: nat)

  function CountNext(t: Recount, e: Effect, k: Counter): Recount {
    if e.Saved? then Recount(t.memory, t.memory)
    else if e.Crashed? then Recount(t.disk, t.disk)
    else Recount(t.disk, After(t.memory, e, k))
  }

  function After(n: nat, e: Effect, k: Counter): nat {
    if Advances(e, k) then n + 1 else if Restarts(e, k) then 0 else n
  }

  function Recounted(log: seq<Effect>, k: Counter): Recount {
    if log == [] then Recount(0, 0) else CountNext(Recounted(log[..|log| - 1], k), log[|log| - 1], k)
  }

  /** At every moment so far the record on disk holds the count. */
  predicate Exact(log: seq<Effect>, k: Counter) {
    && On(DiskAfter(log), k) == Recounted(log, k).disk
    && (log != [] ==> Exact(log[..|log| - 1], k))
  }

  predicate ExactInMemory(h: seq<Effect>, p: Progress, k: Counter) {
    Exact(h + p.effects, k) && On(p.rec, k) == Recounted(h + p.effects, k).memory
  }

  lemma {:induction false} RecountSnoc(log: seq<Effect>, e: Effect, k: Counter)
    ensures Recounted(log + [e], k) == CountNext(Recounted(log, k), e, k)
  {
    assert (log + [e])[..|log|] == log;
  }

  lemma {:induction false} ExactSnoc(log: seq<Effect>, e: Effect, k: Counter)
    requires Exact(log, k) && (e.Saved? ==> On(e.record, k) == Recounted(log, k).memory)
    ensures Exact(log + [e], k) && Recounted(log + [e], k) == CountNext(Recounted(log, k), e, k)
  {
    DiskSnoc(log, e);
    RecountSnoc(log, e, k);
    assert (log + [e])[..|log + [e]| - 1] == log;
    assert On(DiskAfter(log + [e]), k) == Recounted(log + [e], k).disk;
  }

  /** An effect, and the record in memory after it. */
  lemma {:induction false} EffectIsCounted(h: seq<Effect>, p: Progress, e: Effect, rec: Record, k: Counter)
    requires ExactInMemory(h, p, k) && !e.Crashed? && (e.Saved? ==> On(e.record, k) == On(p.rec, k))
    requires On(rec, k) == After(On(p.rec, k), e, k)
    ensures ExactInMemory(h, Emit(p, e).(rec := rec), k)
  {
    ExactSnoc(h + p.effects, e, k);
    assert h + Emit(p, e).effects == h + p.effects + [e];
  }

  // ---------------------------------------------------------------------------------------------
  // Every handler counts what it sends
  // ---------------------------------------------------------------------------------------------

  /** The step moves the counter exactly as what it says tells. */
  predicate StepCounts(rec: Record, step: Step, k: Counter) {
    On(step.rec, k)
    == match step.action
       case SendCorrection => After(On(rec, k), CorrectionSent(""), k)
       case Tell(e) => After(On(rec, k), e, k)
       case _ => On(rec, k)
  }

  lemma {:induction false} EscalateCounts(c: Config, rec: Record, r: Replan, k: Counter)
    ensures StepCounts(rec, Escalate(c, rec, r), k)
  {
  }

  lemma {:induction false} CiCounts(c: Config, rec: Record, i: PrInput, k: Counter)
    requires i.ci != Pass
    ensures StepCounts(rec, CiNotPassed(c, rec, i), k)
  {
    EscalateCounts(c, rec.(status := Ci), ReplanFor(i), k);
  }

  lemma {:induction false} UnmergedCounts(c: Config, rec: Record, i: PrInput, k: Counter)
    requires i.protectedPaths || !i.merge.Mergeable?
    ensures StepCounts(rec, NotMerged(c, rec, i), k)
  {
    EscalateCounts(c, rec, ReplanFor(i), k);
  }

  lemma {:induction false} RejectedCounts(
    c: Config, rec: Record, i: PrInput, verdict: string, reason: string, k: Counter)
    ensures StepCounts(rec, ReviewRejected(c, rec, i, verdict, reason), k)
  {
    EscalateCounts(c, rec.(review := rec.review.(terminalRejection := Some(i.head))), ReplanFor(i), k);
  }

  lemma {:induction false} ProvenCounts(
    c: Config, rec: Record, i: PrInput, semantics: Semantics, kept: Record, k: Counter)
    requires On(kept, k) == On(rec, k)
    ensures StepCounts(rec, ProvenRun(c, rec, i, semantics, kept), k)
  {
    if semantics.Rejected? {
      var done := Processed(kept, i.head, semantics.verdict);
      assert On(done, k) == On(rec, k);
      RejectedCounts(c, done, i, semantics.verdict, semantics.reason, k);
    }
  }

  lemma {:induction false} FinishedCounts(c: Config, rec: Record, i: PrInput, run: ReviewRun, k: Counter)
    ensures StepCounts(rec, FinishedRun(c, rec, i, run), k)
  {
    var judged := Judged(c, rec, i, run);
    var running := WithRun(rec, i, run);
    assert On(running, k) == On(rec, k) == On(WithLedger(running, i, run, judged.ledger), k);
    ProvenCounts(c, running, i, SemanticsOf(judged.verdict, run), WithLedger(running, i, run, judged.ledger), k);
  }

  /** A look at the review moves each counter exactly as what it sends tells. */
  lemma {:induction false} ReviewedCounts(c: Config, rec: Record, i: PrInput, k: Counter)
    ensures StepCounts(rec, Reviewed(c, rec, i), k)
  {
    assert On(ForKey(rec, i.key), k) == On(rec, k);
    if i.run.Some? && i.run.value.finished {
      FinishedCounts(c, ForKey(rec, i.key), i, i.run.value, k);
    }
  }

  lemma {:induction false} TakeIsCounted(h: seq<Effect>, p: Progress, step: Step, k: Counter)
    requires ExactInMemory(h, p, k) && StepCounts(p.rec, step, k)
    requires !step.action.SendCorrection? && (step.action.Tell? ==> IsMessage(step.action.effect))
    ensures ExactInMemory(h, Take(p, step), k)
  {
    if step.action.Tell? {
      EffectIsCounted(h, p, step.action.effect, step.rec, k);
      assert Take(p, step) == Emit(p, step.action.effect).(rec := step.rec);
    }
  }

  lemma {:induction false} TriggerIsCounted(h: seq<Effect>, p: Progress, i: PrInput, k: Counter)
    requires ExactInMemory(h, p, k)
    ensures ExactInMemory(h, TriggerReview(p, i), k)
  {
    var trigger, after := ReviewTriggered(i.key, i.now + i.delay), AfterTrigger(p.rec, i.triggerFails);
    SaveIsCounted(h, p, k);
    assert On(after, k) == On(p.rec, k) && !Advances(trigger, k) && !Restarts(trigger, k);
    EffectIsCounted(h, Save(p), trigger, after, k);
    assert TriggerReview(p, i) == Emit(Save(p), trigger).(rec := after);
  }

  lemma {:induction false} SaveIsCounted(h: seq<Effect>, p: Progress, k: Counter)
    requires ExactInMemory(h, p, k)
    ensures ExactInMemory(h, Save(p), k)
  {
    EffectIsCounted(h, p, Saved(p.rec), p.rec, k);
    assert Emit(p, Saved(p.rec)).(rec := p.rec) == Save(p);
  }

  lemma {:induction false} MergeIsCounted(c: Config, h: seq<Effect>, p: Progress, i: PrInput, k: Counter)
    requires ExactInMemory(h, p, k)
    ensures ExactInMemory(h, Merge(c, p, i), k)
  {
    if i.protectedPaths || !i.merge.Mergeable? {
      UnmergedCounts(c, p.rec, i, k);
      UnmergedSays(c, p.rec, i);
      TakeIsCounted(h, p, NotMerged(c, p.rec, i), k);
    } else {
      EffectIsCounted(h, p, Merged(i.head), p.rec.(status := Completed), k);
    }
  }

  lemma {:induction false} HandlePrIsCounted(c: Config, h: seq<Effect>, p: Progress, i: PrInput, k: Counter)
    requires ExactInMemory(h, p, k)
    ensures ExactInMemory(h, HandlePr(c, p, i), k)
  {
    if i.ci != Pass {
      CiCounts(c, p.rec, i, k);
      CiSays(c, p.rec, i);
      TakeIsCounted(h, p, CiNotPassed(c, p.rec, i), k);
    } else if !i.reviewRequired {
      MergeIsCounted(c, h, p, i, k);
    } else {
      ReviewIsCounted(c, h, p, i, k);
    }
  }

  lemma {:induction false} ReviewIsCounted(c: Config, h: seq<Effect>, p: Progress, i: PrInput, k: Counter)
    requires ExactInMemory(h, p, k) && i.ci == Pass && i.reviewRequired
    ensures ExactInMemory(h, HandlePr(c, p, i), k)
  {
    var step := Reviewed(c, p.rec, i);
    ReviewedCounts(c, p.rec, i, k);
    ReviewSays(c, p.rec, i);
    match step.action
    case SendCorrection =>
      EffectIsCounted(h, p, CorrectionSent(i.head), step.rec, k);
      assert Emit(Take(p, step), CorrectionSent(i.head)) == Emit(p, CorrectionSent(i.head)).(rec := step.rec);
    case Trigger =>
      TakeIsCounted(h, p, step, k);
      TriggerIsCounted(h, Take(p, step), i, k);
    case GoOn =>
      TakeIsCounted(h, p, step, k);
      MergeIsCounted(c, h, Take(p, step), i, k);
    case _ => TakeIsCounted(h, p, step, k);
  }

  lemma {:induction false} WorkCounts(c: Config, rec: Record, w: Work, k: Counter)
    requires !w.LookAtPr?
    ensures StepCounts(rec, Step(DoRecord(c, rec, w), if w.RequeueWorker? then Tell(WorkerRequeued) else Stop), k)
  {
    if w.GiveUpOnWorker? {
      EscalateCounts(c, rec, w.replan.(head := None), k);
    }
  }

  lemma {:induction false} AllWorkIsCounted(c: Config, h: seq<Effect>, p: Progress, work: seq<Work>, k: Counter)
    requires ExactInMemory(h, p, k)
    ensures ExactInMemory(h, DoAll(c, p, work), k)
  {
    if work == [] {
    } else {
      var q, w := DoAll(c, p, work[..|work| - 1]), work[|work| - 1];
      AllWorkIsCounted(c, h, p, work[..|work| - 1], k);
      if w.LookAtPr? {
        HandlePrIsCounted(c, h, q, w.input, k);
      } else {
        WorkCounts(c, q.rec, w, k);
        TakeIsCounted(h, q, Step(DoRecord(c, q.rec, w), if w.RequeueWorker? then Tell(WorkerRequeued) else Stop), k);
      }
    }
  }

  lemma {:induction false} PlacedCounts(c: Config, rec: Record, o: Observation, k: Counter)
    ensures On(Placed(c, rec, o), k) == On(rec, k)
  {
    if o.openHeads != [] {
      var attached := Attached(rec, o.openHeads[0], o);
      assert On(attached, k) == On(rec, k) && On(ForHead(attached, o.openHeads[0]), k) == On(rec, k);
    }
  }

  lemma {:induction false} UnlegaciedCounts(c: Config, rec: Record, o: Observation, k: Counter)
    ensures On(Unlegacied(c, rec, o), k)
            == if IsReset(c, rec, o) then After(On(rec, k), LegacyReconciled, k) else On(rec, k)
  {
  }

  /** The memory of a process that has just begun is what is on disk. */
  predicate AtRest(log: seq<Effect>, k: Counter) {
    Exact(log, k) && Recounted(log, k).memory == Recounted(log, k).disk
  }

  lemma {:induction false} ReconcileIsCounted(c: Config, h: seq<Effect>, o: Observation, k: Counter)
    requires AtRest(h, k)
    ensures ExactInMemory(h, Reconcile(c, DiskAfter(h), o), k)
  {
    var rec := Loaded(DiskAfter(h));
    var placed := Placed(c, Unlegacied(c, rec, o), o);
    UnlegaciedCounts(c, rec, o, k);
    PlacedCounts(c, Unlegacied(c, rec, o), o, k);
    var loaded, start := Progress(rec, []), Progress(placed, []);
    assert h + [] == h;
    if IsReset(c, rec, o) {
      EffectIsCounted(h, loaded, LegacyReconciled, placed, k);
      assert Emit(loaded, LegacyReconciled).(rec := placed) == Emit(start, LegacyReconciled);
      EffectIsCounted(h, Emit(start, LegacyReconciled), Saved(placed), placed, k);
    } else {
      EffectIsCounted(h, start, Saved(placed), placed, k);
    }
  }

  lemma {:induction false} ExactPrefix(log: seq<Effect>, n: nat, k: Counter)
    requires Exact(log, k) && n <= |log|
    ensures Exact(log[..n], k)
  {
    if n == |log| {
      assert log[..n] == log;
    } else {
      ExactPrefix(log[..|log| - 1], n, k);
      assert log[..|log| - 1][..n] == log[..n];
    }
  }

  lemma {:induction false} DeathIsCounted(log: seq<Effect>, n: nat, k: Counter)
    requires Exact(log, k) && n <= |log|
    ensures AtRest(log[..n] + [Crashed], k)
  {
    ExactPrefix(log, n, k);
    ExactSnoc(log[..n], Crashed, k);
  }

  lemma {:induction false} EndIsCounted(h: seq<Effect>, done: Progress, life: nat, k: Counter)
    requires ExactInMemory(h, done, k)
    ensures AtRest(h + Cut(Save(done).effects, life), k)
  {
    var effects := Save(done).effects;
    ExactSnoc(h + done.effects, Saved(done.rec), k);
    assert h + effects == h + done.effects + [Saved(done.rec)];
    if life < |effects| {
      DeathIsCounted(h + effects, |h| + life, k);
      SplitCut(h, effects, life);
    }
  }

  lemma {:induction false} TickIsCounted(c: Config, h: seq<Effect>, t: Tick, k: Counter)
    requires AtRest(h, k)
    ensures AtRest(h + Cut(TickEffects(c, DiskAfter(h), t), t.life), k)
  {
    var start := Reconcile(c, DiskAfter(h), t.observation);
    ReconcileIsCounted(c, h, t.observation, k);
    AllWorkIsCounted(c, h, start, t.work, k);
    EndIsCounted(h, DoAll(c, start, t.work), t.life, k);
  }

  lemma {:induction false} RunIsCounted(c: Config, ticks: seq<Tick>, k: Counter)
    ensures AtRest(RunLog(c, ticks), k)
  {
    if ticks == [] {
    } else {
      RunIsCounted(c, ticks[..|ticks| - 1], k);
      TickIsCounted(c, RunLog(c, ticks[..|ticks| - 1]), ticks[|ticks| - 1], k);
    }
  }

  // ---------------------------------------------------------------------------------------------
  // The results
  // ---------------------------------------------------------------------------------------------

  /** At every moment of every run each counter of the record on disk is what the log says it is: the
      messages, reruns or epochs since it last started anew, without those that died unsaved. */
  lemma {:induction false} CountersAreExact(c: Config, ticks: seq<Tick>, log: seq<Effect>, k: Counter)
    requires Happens(c, ticks, log)
    ensures On(DiskAfter(log), k) == Recounted(log, k).disk
  {
    RunIsCounted(c, ticks, k);
    ExactPrefix(RunLog(c, ticks), |log|, k);
    assert RunLog(c, ticks)[..|log|] == log;
  }

  /** What has become of all that was counted: unsaved so far, lost with a tick that died before its save, or
      dropped by a saved new start. `leaving` is dropped with the next save. */
  datatype Account = Account(sent: nat, lost: nat, dropped: nat, leaving: nat)

  function AccountNext(a: Account, t: Recount, e: Effect, k: Counter): Account {
    if e.Saved? then a.(dropped := a.dropped + a.leaving, leaving := 0)
    else if e.Crashed? then a.(lost := a.lost + Unsaved(a, t), leaving := 0)
    else if Advances(e, k) then a.(sent := a.sent + 1)
    else if Restarts(e, k) then a.(leaving := a.leaving + t.memory)
    else a
  }

  function Unsaved(a: Account, t: Recount): nat {
    if t.memory + a.leaving >= t.disk then t.memory + a.leaving - t.disk else 0
  }

  function AccountOf(log: seq<Effect>, k: Counter): Account {
    if log == [] then Account(0, 0, 0, 0)
    else
      var front := log[..|log| - 1];
      AccountNext(AccountOf(front, k), Recounted(front, k), log[|log| - 1], k)
  }

  lemma {:induction false} AccountBalances(log: seq<Effect>, k: Counter)
    ensures var a, t := AccountOf(log, k), Recounted(log, k);
            && t.memory + a.leaving >= t.disk
            && a.sent == t.disk + Unsaved(a, t) + a.lost + a.dropped
  {
    if log != [] {
      AccountBalances(log[..|log| - 1], k);
    }
  }

  /** All that was ever sent, asked for or begun is counted on disk, not yet saved, lost with a tick that died
      before its save, or dropped when its counter started anew. */
  lemma {:induction false} MessagesAreConserved(c: Config, ticks: seq<Tick>, log: seq<Effect>, k: Counter)
    requires Happens(c, ticks, log)
    ensures var a, t := AccountOf(log, k), Recounted(log, k);
            a.sent == On(DiskAfter(log), k) + Unsaved(a, t) + a.lost + a.dropped
  {
    CountersAreExact(c, ticks, log, k);
    AccountBalances(log, k);
  }

  /** The review corrections sent: all of them, those sent since the last save, and those sent in a tick
      that died before its next save. */
  datatype Sent = Sent(total: nat, pending: nat, lost: nat)

  function SendOne(s: Sent, e: Effect): Sent {
    match e
    case CorrectionSent(_) => Sent(s.total + 1, s.pending + 1, s.lost)
    case Saved(_) => Sent(s.total, 0, s.lost)
    case Crashed => Sent(s.total, 0, s.lost + s.pending)
    case _ => s
  }

  function SentIn(log: seq<Effect>): Sent {
    if log == [] then Sent(0, 0, 0) else SendOne(SentIn(log[..|log| - 1]), log[|log| - 1])
  }

  lemma {:induction false} SentSnoc(log: seq<Effect>, e: Effect)
    ensures SentIn(log + [e]) == SendOne(SentIn(log), e)
  {
    assert (log + [e])[..|log|] == log;
  }

  lemma {:induction false} SentIsRecounted(log: seq<Effect>)
    ensures var s, t := SentIn(log), Recounted(log, ReviewCorrections);
            s.total == t.disk + s.pending + s.lost && t.memory == t.disk + s.pending
  {
    if log != [] {
      SentIsRecounted(log[..|log| - 1]);
    }
  }

  /** Every review correction ever sent to the worker is counted in the record on disk, except those sent
      since the last save and those of a tick that died before its next save. */
  lemma {:induction false} CorrectionsAreConserved(c: Config, ticks: seq<Tick>, log: seq<Effect>)
    requires Happens(c, ticks, log)
    ensures SentIn(log).total == DiskAfter(log).review.used + SentIn(log).pending + SentIn(log).lost
  {
    CountersAreExact(c, ticks, log, ReviewCorrections);
    SentIsRecounted(log);
  }

  // ---------------------------------------------------------------------------------------------
  // When a look sends what
  // ---------------------------------------------------------------------------------------------

  /** A replan for a pull request begins an epoch. */
  predicate EpochBegins(c: Config, rec: Record, r: Replan) {
    && rec.recovery.epoch < c.maxEpochs && rec.recovery.cycles < c.maxCycles
    && (r.answer.Replanned? || r.answer.OtherAnswer?)
    && !(rec.recovery.planDigest == Some(r.digest)
         && (rec.recovery.noProgress >= 1 || rec.recovery.cycles + 1 == c.maxCycles))
  }

  /** The package ends blocked, or in the next epoch with a new plan and its epoch counters at zero. */
  predicate Escalated(c: Config, rec: Record, r: Replan, after: Record, said: bool) {
    && said == EpochBegins(c, rec, r)
    && if said then
         && after.status == PrWaiting && after.blocked.None?
         && after.recovery.epoch == rec.recovery.epoch + 1 && after.recovery.cycles == rec.recovery.cycles + 1
         && after.recovery.planDigest == Some(r.digest)
         && after.review.usedInEpoch == 0 && after.ci.usedInEpoch == 0 && after.ci.infraRetries == 0
         && after.review.terminalRejection.None? && after.review.authorizedFrom.None? && after.ci.authorizedFrom.None?
       else after.status == Blocked && after.recovery.epoch == rec.recovery.epoch
  }

  lemma {:induction false} EscalatesExactlyWhen(c: Config, rec: Record, r: Replan)
    requires r.head.Some?
    ensures var step := Escalate(c, rec, r);
            Escalated(c, rec, r, step.rec, step.action == Tell(EpochBegun))
  {
  }

  /** Giving up on a worker without a pull request always blocks the package and begins no epoch. It spends a
      replan cycle unless recovery is exhausted or a replan was attempted, which a reload remembers by the cycles
      used. */
  lemma {:induction false} GivingUpBlocks(c: Config, rec: Record, r: Replan)
    ensures var after := DoRecord(c, rec, GiveUpOnWorker(r));
            var left := rec.recovery.epoch < c.maxEpochs && rec.recovery.cycles < c.maxCycles;
            var spends := left && !rec.recovery.attempted;
            && after.status == Blocked && after.recovery.epoch == rec.recovery.epoch
            && after.recovery.cycles == (if spends then rec.recovery.cycles + 1 else rec.recovery.cycles)
            && (spends ==> after.recovery.attempted)
    ensures rec.recovery.cycles > 0 ==> Loaded(rec).recovery.attempted
  {
  }

  /** A conflict that the look takes for new. An accepted review has cleared what was last said. */
  predicate NewConflict(rec: Record, i: PrInput) {
    && !i.protectedPaths && i.merge.Conflicting? && rec.session.Some?
    && (i.reviewRequired || rec.lastError != Some(MergeSent(i.head, i.merge.text)))
  }

  lemma {:induction false} AcceptedForgets(c: Config, rec: Record, i: PrInput)
    requires Reviewed(c, rec, i).action.GoOn?
    ensures var after := Reviewed(c, rec, i).rec;
            && after.lastError.None? && after.session == rec.session && after.ci == rec.ci
            && after.recovery == rec.recovery
  {
    GoesOnExactlyWhen(c, rec, i);
    ProvenIsProcessed(c, rec, i);
    ProvedAccepts(c, rec, i);
  }

  /** What a look makes of a conflict. */
  lemma {:induction false} ConflictNews(c: Config, rec: Record, i: PrInput)
    ensures MergeUpdateSent(i.head) in News(c, rec, i)
            <==> ReachesMerge(c, rec, i) && NewConflict(rec, i) && rec.ci.integrationUsed < c.maxIntegration
  {
    CiSaysNothingOfMerges(c, rec, i);
    if i.ci == Pass && i.reviewRequired {
      GoesOnExactlyWhen(c, rec, i);
      ReviewSays(c, rec, i);
      if Reviewed(c, rec, i).action.GoOn? {
        AcceptedForgets(c, rec, i);
        UnmergedNews(c, Reviewed(c, rec, i).rec, i);
      }
    } else {
      UnmergedNews(c, rec, i);
    }
  }

  lemma {:induction false} CiSaysNothingOfMerges(c: Config, rec: Record, i: PrInput)
    ensures i.ci != Pass ==> MergeUpdateSent(i.head) !in Said(CiNotPassed(c, rec, i).action)
  {
    if i.ci != Pass {
      CiSays(c, rec, i);
    }
  }

  lemma {:induction false} UnmergedNews(c: Config, rec: Record, i: PrInput)
    ensures MergeUpdateSent(i.head) in MergeNews(c, rec, i)
            <==> && !i.protectedPaths && i.merge.Conflicting? && rec.session.Some?
                 && rec.lastError != Some(MergeSent(i.head, i.merge.text)) && rec.ci.integrationUsed < c.maxIntegration
  {
    EscalateSays(c, rec, ReplanFor(i));
  }

  /** A look asks the worker to merge the target branch exactly when it comes to the merge of a pull request
      that conflicts, the conflict counts as new, and the budget is not used up. */
  lemma {:induction false} LookAsksForUpdateExactlyWhen(c: Config, p: Progress, i: PrInput)
    ensures var after := HandlePr(c, p, i).effects;
            && p.effects <= after
            && (MergeUpdateSent(i.head) in after[|p.effects|..]
                <==> && ReachesMerge(c, p.rec, i) && NewConflict(p.rec, i)
                     && p.rec.ci.integrationUsed < c.maxIntegration)
  {
    LookAdds(c, p, i);
    ConflictNews(c, p.rec, i);
  }

  /** With the budget used up a new conflict blocks the package or begins the next epoch. */
  lemma {:induction false} ConflictAtLimitEscalates(c: Config, p: Progress, i: PrInput)
    requires ReachesMerge(c, p.rec, i) && NewConflict(p.rec, i) && p.rec.ci.integrationUsed >= c.maxIntegration
    ensures var q := HandlePr(c, p, i);
            && p.effects <= q.effects
            && Escalated(c, p.rec, ReplanFor(i), q.rec, EpochBegun in q.effects[|p.effects|..])
  {
    LookAdds(c, p, i);
    var rec := AtMerge(c, p.rec, i);
    MergeIsReached(c, p, i);
    EscalatesExactlyWhen(c, rec, ReplanFor(i));
    EscalateSays(c, rec, ReplanFor(i));
  }

  /** The record with which the look comes to the merge. */
  function AtMerge(c: Config, rec: Record, i: PrInput): Record {
    if i.reviewRequired then Reviewed(c, rec, i).rec else rec
  }

  lemma {:induction false} MergeIsReached(c: Config, p: Progress, i: PrInput)
    requires ReachesMerge(c, p.rec, i)
    ensures var rec := AtMerge(c, p.rec, i);
            && HandlePr(c, p, i) == Merge(c, p.(rec := rec), i) && News(c, p.rec, i) == MergeNews(c, rec, i)
            && rec.session == p.rec.session && rec.ci == p.rec.ci && rec.recovery == p.rec.recovery
            && (if i.reviewRequired then rec.lastError.None? else rec.lastError == p.rec.lastError)
  {
    if i.reviewRequired {
      GoesOnExactlyWhen(c, p.rec, i);
      AcceptedForgets(c, p.rec, i);
    }
  }

  /** An unchanged conflict is told again by the next look only where a review is required, whose acceptance
      clears what was said: there each look spends the budget once more. */
  lemma {:induction false} ConflictIsToldAgainExactlyWhen(c: Config, p: Progress, i: PrInput)
    requires ReachesMerge(c, p.rec, i) && NewConflict(p.rec, i) && p.rec.ci.integrationUsed < c.maxIntegration
    ensures var q := HandlePr(c, p, i);
            MergeUpdateSent(i.head) in News(c, q.rec, i)
            <==> i.reviewRequired && ReachesMerge(c, q.rec, i) && p.rec.ci.integrationUsed + 1 < c.maxIntegration
  {
    MergeIsReached(c, p, i);
    ConflictNews(c, HandlePr(c, p, i).rec, i);
  }

  /** A red look that is about the code, with a worker that has not heard of it yet. */
  predicate NewFailure(rec: Record, i: PrInput) {
    && rec.status != Blocked && rec.session.Some? && i.ci.Fail?
    && !(i.ci.kind.Infrastructure? && i.ci.kind.run.Some?) && !i.ci.kind.Unclassified?
    && rec.lastError != Some(CiSent(i.head, i.ci.reason))
  }

  /** A look sends a counted CI correction exactly for a new failure at a head that has none yet, while the
      epoch's rounds are not used up, and an uncounted one for a head that has one. */
  lemma {:induction false} LookSendsCiFixExactlyWhen(c: Config, rec: Record, i: PrInput)
    ensures CiFixSent(i.head) in News(c, rec, i)
            <==> && NewFailure(rec, i) && rec.ci.authorizedFrom != Some(i.head)
                 && rec.ci.usedInEpoch < c.maxCiRounds
    ensures CiFixRepeated(i.head) in News(c, rec, i)
            <==> NewFailure(rec, i) && rec.ci.authorizedFrom == Some(i.head)
  {
    PassSaysNothingOfCi(c, rec, i);
    if i.ci != Pass {
      EscalateSays(c, rec.(status := Ci), ReplanFor(i));
    }
  }

  lemma {:induction false} PassSaysNothingOfCi(c: Config, rec: Record, i: PrInput)
    ensures i.ci == Pass ==>
              forall e | e in News(c, rec, i) :: !e.CiFixSent? && !e.CiFixRepeated? && !e.RerunAsked?
  {
    if i.ci == Pass {
      if i.reviewRequired {
        ReviewSays(c, rec, i);
        MergeSays(c, Reviewed(c, rec, i).rec, i);
      } else {
        MergeSays(c, rec, i);
      }
    }
  }

  /** With the rounds used up a new failure at a new head blocks the package or begins the next epoch. */
  lemma {:induction false} FailureAtLimitEscalates(c: Config, p: Progress, i: PrInput)
    requires NewFailure(p.rec, i) && p.rec.ci.authorizedFrom != Some(i.head)
    requires p.rec.ci.usedInEpoch >= c.maxCiRounds
    ensures var q := HandlePr(c, p, i);
            && p.effects <= q.effects
            && Escalated(c, p.rec, ReplanFor(i), q.rec, EpochBegun in q.effects[|p.effects|..])
  {
    LookAdds(c, p, i);
    EscalatesExactlyWhen(c, p.rec.(status := Ci), ReplanFor(i));
    EscalateSays(c, p.rec.(status := Ci), ReplanFor(i));
  }

  /** A look asks for a rerun exactly for an infrastructure failure of a known run that was not just rerun,
      while retries are left and the call goes through; with none left the package blocks. */
  lemma {:induction false} LookAsksForRerunExactlyWhen(c: Config, p: Progress, i: PrInput)
    ensures RerunAsked(i.head) in News(c, p.rec, i)
            <==> && p.rec.status != Blocked && i.ci.Fail? && i.ci.kind.Infrastructure? && i.ci.kind.run.Some?
                 && p.rec.lastError != Some(InfraRetried(i.head, i.ci.kind.run.value, p.rec.ci.infraRetries))
                 && p.rec.ci.infraRetries < c.maxInfraRetries && !i.rerunFails
    ensures (&& p.rec.status != Blocked && i.ci.Fail? && i.ci.kind.Infrastructure? && i.ci.kind.run.Some?
             && p.rec.lastError != Some(InfraRetried(i.head, i.ci.kind.run.value, p.rec.ci.infraRetries))
             && p.rec.ci.infraRetries >= c.maxInfraRetries) ==>
              HandlePr(c, p, i).rec.status == Blocked
  {
    PassSaysNothingOfCi(c, p.rec, i);
    if i.ci != Pass {
      CiSays(c, p.rec, i);
      EscalateSays(c, p.rec.(status := Ci), ReplanFor(i));
    }
  }

  /** The review is a readable rejection: its payload names what blocks, or it says neither yes nor no. */
  predicate Rejects(c: Config, rec: Record, i: PrInput) {
    && ReviewIsProven(rec, i)
    && Judged(c, rec, i, i.run.value).verdict in {FindingLedger.ChangesRequested, FindingLedger.Raw}
  }

  /** As what the worker hears of it. */
  function Heard(c: Config, rec: Record, i: PrInput): LastError
    requires i.run.Some?
  {
    var run := i.run.value;
    ReviewSent(i.head,
               if Judged(c, rec, i, run).verdict == FindingLedger.ChangesRequested then "changes_requested"
               else if run.raw == "" then "missing" else run.raw,
               run.reason)
  }

  /** A look sends a review correction exactly for a rejection that the worker has not heard, while the
      epoch's review cycles are not used up. */
  lemma {:induction false} LookCorrectsExactlyWhen(c: Config, rec: Record, i: PrInput)
    ensures CorrectionSent(i.head) in News(c, rec, i)
            <==> && rec.status != Blocked && i.ci == Pass && i.reviewRequired && Rejects(c, rec, i)
                 && rec.review.usedInEpoch < c.maxReviewCycles && rec.lastError != Some(Heard(c, rec, i))
  {
    NothingElseCorrects(c, rec, i);
    if rec.status != Blocked && i.ci == Pass && i.reviewRequired {
      CorrectsWhen(c, rec, i);
    }
  }

  lemma {:induction false} NothingElseCorrects(c: Config, rec: Record, i: PrInput)
    ensures CorrectionSent(i.head) in News(c, rec, i)
            <==> rec.status != Blocked && i.ci == Pass && i.reviewRequired && Reviewed(c, rec, i).action.SendCorrection?
  {
    if i.ci != Pass {
      CiSays(c, rec, i);
    } else if !i.reviewRequired {
      MergeSays(c, rec, i);
    } else {
      ReviewSays(c, rec, i);
      MergeSays(c, Reviewed(c, rec, i).rec, i);
    }
  }

  lemma {:induction false} CorrectsWhen(c: Config, rec: Record, i: PrInput)
    ensures Reviewed(c, rec, i).action.SendCorrection?
            <==> && Rejects(c, rec, i) && rec.review.usedInEpoch < c.maxReviewCycles
                 && rec.lastError != Some(Heard(c, rec, i))
  {
    ProvenIsProcessed(c, rec, i);
    if i.run.Some? {
      ProvedCorrects(c, rec, i);
    }
  }

  lemma {:induction false} ProvedCorrects(c: Config, rec: Record, i: PrInput)
    requires i.run.Some?
    ensures Proved(c, rec, i).action.SendCorrection?
            <==> && Judged(c, rec, i, i.run.value).verdict in {FindingLedger.ChangesRequested, FindingLedger.Raw}
                 && rec.review.usedInEpoch < c.maxReviewCycles && rec.lastError != Some(Heard(c, rec, i))
  {
    var run := i.run.value;
    var judged, running := Judged(c, rec, i, run), WithRun(ForKey(rec, i.key), i, run);
    var kept := WithLedger(running, i, run, judged.ledger);
    assert kept.lastError == rec.lastError && kept.review.usedInEpoch == rec.review.usedInEpoch;
    RejectionCorrects(c, running, i, SemanticsOf(judged.verdict, run), kept);
  }

  lemma {:induction false} RejectionCorrects(c: Config, rec: Record, i: PrInput, semantics: Semantics, kept: Record)
    ensures ProvenRun(c, rec, i, semantics, kept).action.SendCorrection?
            <==> && semantics.Rejected? && kept.review.usedInEpoch < c.maxReviewCycles
                 && kept.lastError != Some(ReviewSent(i.head, semantics.verdict, semantics.reason))
  {
    if semantics.Rejected? {
      var done := Processed(kept, i.head, semantics.verdict);
      EscalateSays(c, done.(review := done.review.(terminalRejection := Some(i.head))), ReplanFor(i));
    }
  }

  // ---------------------------------------------------------------------------------------------
  // What a proven review leaves in the record
  // ---------------------------------------------------------------------------------------------

  /** The verdict can be told from the payload. */
  predicate Readable(c: Config, rec: Record, i: PrInput) {
    ReviewIsProven(rec, i)
    && Judged(c, rec, i, i.run.value).verdict !in {FindingLedger.Contradiction, FindingLedger.PayloadInvalid}
  }

  /** The ledger after a readable review: in a closure the frozen baseline stays what it was, otherwise this
      review is the baseline now, under its own id and context. An unreadable review changes nothing. */
  predicate LedgerFollows(c: Config, rec: Record, i: PrInput, after: ReviewLedger)
    requires i.run.Some?
  {
    && after.findings == Judged(c, rec, i, i.run.value).ledger
    && if rec.ledger.baselineId.Some? && !i.scopeChanged then
         after.baselineId == rec.ledger.baselineId && after.digest == rec.ledger.digest
       else
         && after.baselineId == Some(if i.run.value.id.Some? then i.run.value.id.value else i.key)
         && after.digest == Some(i.digest)
  }

  lemma {:induction false} EscalateKeepsReview(c: Config, rec: Record, r: Replan)
    ensures var after := Escalate(c, rec, r).rec;
            && after.ledger == rec.ledger && after.review.sha == rec.review.sha
            && after.review.verdict == rec.review.verdict
            && (after.recovery.epoch <= rec.recovery.epoch ==>
                  after.review.terminalRejection == rec.review.terminalRejection)
  {
  }

  lemma {:induction false} RejectionKeepsLedger(c: Config, rec: Record, i: PrInput, verdict: string, reason: string)
    ensures ReviewRejected(c, rec, i, verdict, reason).rec.ledger == rec.ledger
  {
    EscalateKeepsReview(c, rec.(review := rec.review.(terminalRejection := Some(i.head))), ReplanFor(i));
  }

  lemma {:induction false} ProvenKeepsLedger(c: Config, rec: Record, i: PrInput, semantics: Semantics, kept: Record)
    ensures ProvenRun(c, rec, i, semantics, kept).rec.ledger == if semantics.Invalid? then rec.ledger else kept.ledger
    ensures ProvenRun(c, rec, i, semantics, kept).action.Trigger? <==> semantics.Invalid?
  {
    if semantics.Rejected? {
      var done := Processed(kept, i.head, semantics.verdict);
      RejectionKeepsLedger(c, done, i, semantics.verdict, semantics.reason);
      EscalateSays(c, done.(review := done.review.(terminalRejection := Some(i.head))), ReplanFor(i));
    }
  }

  lemma {:induction false} LedgerAfterReview(c: Config, rec: Record, i: PrInput)
    requires ReviewIsProven(rec, i)
    ensures var step := Reviewed(c, rec, i);
            if Readable(c, rec, i) then LedgerFollows(c, rec, i, step.rec.ledger) && !step.action.Trigger?
            else step.rec.ledger == rec.ledger && step.action.Trigger?
  {
    var run := i.run.value;
    var judged, running := Judged(c, rec, i, run), WithRun(ForKey(rec, i.key), i, run);
    var kept := WithLedger(running, i, run, judged.ledger);
    ProvenIsProcessed(c, rec, i);
    assert running.ledger == rec.ledger;
    ProvenKeepsLedger(c, running, i, SemanticsOf(judged.verdict, run), kept);
  }

  /** What a rejection that can be read makes of the record: with cycles left in the epoch it waits for the
      worker, whose next rejection at this head is authorized, and has counted and noted the correction unless
      it was heard before; with none left it waits for a correction already authorized at this head, or is
      terminally rejected and escalates. */
  predicate RejectionFollows(c: Config, rec: Record, i: PrInput, step: Step)
    requires i.run.Some?
  {
    var heard, after := Heard(c, rec, i), step.rec;
    if rec.review.usedInEpoch < c.maxReviewCycles then
      && after.status == PrWaiting
      && if rec.lastError == Some(heard) then
           && after.review.usedInEpoch == rec.review.usedInEpoch
           && after.review.authorizedFrom == rec.review.authorizedFrom
         else
           && after.review.usedInEpoch == rec.review.usedInEpoch + 1 && after.review.authorizedFrom == Some(i.head)
           && after.lastError == Some(heard)
    else if heard.verdict in {"approved", "pass"} then after.status == Review && step.action == Stop
    else if rec.review.authorizedFrom == Some(i.head) then after.status == PrWaiting && step.action == Stop
    else
      && Escalated(c, rec, ReplanFor(i), after, step.action == Tell(EpochBegun))
      && (after.status == Blocked ==> after.review.terminalRejection == Some(i.head))
  }

  lemma {:induction false} RejectionIsProcessed(c: Config, rec: Record, i: PrInput)
    requires Rejects(c, rec, i)
    ensures RejectionFollows(c, rec, i, Reviewed(c, rec, i))
  {
    var run := i.run.value;
    var judged, running := Judged(c, rec, i, run), WithRun(ForKey(rec, i.key), i, run);
    var kept, semantics := WithLedger(running, i, run, judged.ledger), SemanticsOf(judged.verdict, run);
    var done := Processed(kept, i.head, semantics.verdict);
    ProvenIsProcessed(c, rec, i);
    DoneKeeps(rec, i, run, judged.ledger, semantics.verdict);
    assert Heard(c, rec, i) == ReviewSent(i.head, semantics.verdict, semantics.reason);
    RejectionFollowsFrom(c, rec, done, i, semantics.verdict, semantics.reason);
  }

  lemma {:induction false} DoneKeeps(
    rec: Record, i: PrInput, run: ReviewRun, findings: seq<FindingLedger.Finding>, verdict: string)
    ensures var done := Processed(WithLedger(WithRun(ForKey(rec, i.key), i, run), i, run, findings), i.head, verdict);
            && done.lastError == rec.lastError && done.recovery == rec.recovery
            && done.review.usedInEpoch == rec.review.usedInEpoch
            && done.review.authorizedFrom == rec.review.authorizedFrom
  {
  }

  lemma {:induction false} RejectionFollowsFrom(
    c: Config, rec: Record, done: Record, i: PrInput, verdict: string, reason: string)
    requires i.run.Some? && Heard(c, rec, i) == ReviewSent(i.head, verdict, reason)
    requires done.lastError == rec.lastError && done.recovery == rec.recovery
    requires done.review.usedInEpoch == rec.review.usedInEpoch
    requires done.review.authorizedFrom == rec.review.authorizedFrom
    ensures RejectionFollows(c, rec, i, ReviewRejected(c, done, i, verdict, reason))
  {
    var rejected := done.(review := done.review.(terminalRejection := Some(i.head)));
    EscalatesExactlyWhen(c, rejected, ReplanFor(i));
    EscalateKeepsReview(c, rejected, ReplanFor(i));
  }
}
