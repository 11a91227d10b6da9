/** Whether the budget of review corrections is one: which configurations bound the corrections of a package
    over all its runs, and for the others runs that send as many as one likes. */
module PackageBudgets {
  import opened Text
  import opened PackageController
  import opened PackageRuns
  import opened PackageMessages
  import opened PackageLimits
  import FindingLedger

  /** Corrections, recovery epochs, and blocks that the legacy reconciliation lifts: those of a replanner
      that fails, or those whose quoted text names one. */
  ghost predicate Renewable(c: Config) {
    && c.maxReviewCycles >= 1 && c.maxEpochs >= 1
    && (c.maxCycles >= 1 || exists text :: c.namesOldReplan(text))
  }

  // ---------------------------------------------------------------------------------------------
  // Configurations that bound the corrections
  // ---------------------------------------------------------------------------------------------

  /** Nothing for the legacy reconciliation to lift, now or later. */
  predicate Unliftable(c: Config, rec: Record) {
    c.maxEpochs == 0 || (rec.recovery.epoch == 0 && (rec.blocked.Some? ==> !NamesOldReplan(c, rec.blocked.value)))
  }

  ghost predicate NothingLifts(c: Config) {
    c.maxEpochs == 0 || (c.maxCycles == 0 && forall text :: !c.namesOldReplan(text))
  }

  /** No effect so far is a reset, and no record saved leads to one. */
  predicate Steady(c: Config, log: seq<Effect>) {
    forall e | e in log :: !e.LegacyReconciled? && (e.Saved? ==> Unliftable(c, e.record))
  }

  predicate SteadyProgress(c: Config, p: Progress) {
    Unliftable(c, p.rec) && Steady(c, p.effects)
  }

  lemma {:induction false} CiStaysUnliftable(c: Config, rec: Record, i: PrInput)
    requires NothingLifts(c) && Unliftable(c, rec) && i.ci != Pass
    ensures Unliftable(c, CiNotPassed(c, rec, i).rec)
  {
  }

  lemma {:induction false} WorkStaysUnliftable(c: Config, rec: Record, w: Work)
    requires NothingLifts(c) && Unliftable(c, rec) && !w.LookAtPr?
    ensures Unliftable(c, DoRecord(c, rec, w))
  {
  }

  lemma {:induction false} RejectionStaysUnliftable(c: Config, rec: Record, i: PrInput, verdict: string, reason: string)
    requires NothingLifts(c) && Unliftable(c, rec)
    ensures Unliftable(c, ReviewRejected(c, rec, i, verdict, reason).rec)
  {
  }

  lemma {:induction false} ProvenRunStaysUnliftable(
    c: Config, rec: Record, i: PrInput, semantics: Semantics, kept: Record)
    requires NothingLifts(c) && Unliftable(c, rec) && Unliftable(c, kept)
    ensures Unliftable(c, ProvenRun(c, rec, i, semantics, kept).rec)
  {
    match semantics
    case Rejected(verdict, reason) => RejectionStaysUnliftable(c, Processed(kept, i.head, verdict), i, verdict, reason);
    case _ =>
  }

  lemma {:induction false} NoRunStaysUnliftable(c: Config, rec: Record, i: PrInput)
    requires NothingLifts(c) && Unliftable(c, rec)
    ensures Unliftable(c, NoRun(c, rec, i).rec)
  {
  }

  lemma {:induction false} FinishedRunStaysUnliftable(c: Config, rec: Record, i: PrInput, run: ReviewRun)
    requires NothingLifts(c) && Unliftable(c, rec)
    ensures Unliftable(c, FinishedRun(c, rec, i, run).rec)
  {
    var running := WithRun(rec, i, run);
    if AuthorityOf(rec, i, run) == Proven {
      var judged := Judged(c, rec, i, run);
      var kept := WithLedger(running, i, run, judged.ledger);
      ProvenRunStaysUnliftable(c, running, i, SemanticsOf(judged.verdict, run), kept);
    }
  }

  lemma {:induction false} ReviewStaysUnliftable(c: Config, rec: Record, i: PrInput)
    requires NothingLifts(c) && Unliftable(c, rec)
    ensures Unliftable(c, Reviewed(c, rec, i).rec)
  {
    var current := ForKey(rec, i.key);
    assert Unliftable(c, current);
    if rec.session.Some? {
      match i.run
      case None => NoRunStaysUnliftable(c, current, i);
      case Some(run) => FinishedRunStaysUnliftable(c, current, i, run);
    }
  }

  lemma {:induction false} TakeStaysSteady(c: Config, p: Progress, step: Step)
    requires SteadyProgress(c, p) && Unliftable(c, step.rec)
    requires step.action.Tell? ==> IsMessage(step.action.effect)
    ensures SteadyProgress(c, Take(p, step))
  {
  }

  lemma {:induction false} MergeStaysSteady(c: Config, p: Progress, i: PrInput)
    requires NothingLifts(c) && SteadyProgress(c, p)
    ensures SteadyProgress(c, Merge(c, p, i))
  {
    if i.protectedPaths || !i.merge.Mergeable? {
      NotMergedStaysUnliftable(c, p.rec, i);
      UnmergedSays(c, p.rec, i);
      TakeStaysSteady(c, p, NotMerged(c, p.rec, i));
    }
  }

  lemma {:induction false} NotMergedStaysUnliftable(c: Config, rec: Record, i: PrInput)
    requires NothingLifts(c) && Unliftable(c, rec) && (i.protectedPaths || !i.merge.Mergeable?)
    ensures Unliftable(c, NotMerged(c, rec, i).rec)
  {
  }

  lemma {:induction false} LookStaysSteady(c: Config, p: Progress, i: PrInput)
    requires NothingLifts(c) && SteadyProgress(c, p)
    ensures SteadyProgress(c, HandlePr(c, p, i))
  {
    if p.rec.status != Blocked {
      if i.ci != Pass {
        CiStaysUnliftable(c, p.rec, i);
        CiSays(c, p.rec, i);
        TakeStaysSteady(c, p, CiNotPassed(c, p.rec, i));
      } else if !i.reviewRequired {
        MergeStaysSteady(c, p, i);
      } else {
        var step := Reviewed(c, p.rec, i);
        ReviewStaysUnliftable(c, p.rec, i);
        ReviewSays(c, p.rec, i);
        TakeStaysSteady(c, p, step);
        MergeStaysSteady(c, Take(p, step), i);
      }
    }
  }

  lemma {:induction false} WorkStaysSteady(c: Config, p: Progress, work: seq<Work>)
    requires NothingLifts(c) && SteadyProgress(c, p)
    ensures SteadyProgress(c, DoAll(c, p, work))
  {
    if work == [] {
    } else {
      var q, w := DoAll(c, p, work[..|work| - 1]), work[|work| - 1];
      WorkStaysSteady(c, p, work[..|work| - 1]);
      if w.LookAtPr? {
        LookStaysSteady(c, q, w.input);
      } else {
        WorkStaysUnliftable(c, q.rec, w);
        TakeStaysSteady(c, q, Step(DoRecord(c, q.rec, w), if w.RequeueWorker? then Tell(WorkerRequeued) else Stop));
      }
    }
  }

  lemma {:induction false} PlacedStaysUnliftable(c: Config, rec: Record, o: Observation)
    requires NothingLifts(c) && Unliftable(c, rec)
    ensures Unliftable(c, Placed(c, rec, o))
  {
  }

  lemma {:induction false} ReconcileStaysSteady(c: Config, disk: Record, o: Observation)
    requires NothingLifts(c) && Unliftable(c, disk)
    ensures SteadyProgress(c, Reconcile(c, disk, o))
  {
    var rec := Loaded(disk);
    assert !IsReset(c, rec, o) && Unliftable(c, Unlegacied(c, rec, o));
    PlacedStaysUnliftable(c, Unlegacied(c, rec, o), o);
  }

  lemma {:induction false} SteadyDisk(c: Config, log: seq<Effect>)
    requires Steady(c, log)
    ensures Unliftable(c, DiskAfter(log)) && Count(log).resets == 0
  {
    if log == [] {
    } else {
      SteadyDisk(c, log[..|log| - 1]);
    }
  }

  lemma {:induction false} RunStaysSteady(c: Config, ticks: seq<Tick>)
    requires NothingLifts(c)
    ensures Steady(c, RunLog(c, ticks))
  {
    if ticks == [] {
    } else {
      var log, t := RunLog(c, ticks[..|ticks| - 1]), ticks[|ticks| - 1];
      RunStaysSteady(c, ticks[..|ticks| - 1]);
      SteadyDisk(c, log);
      ReconcileStaysSteady(c, DiskAfter(log), t.observation);
      WorkStaysSteady(c, Reconcile(c, DiskAfter(log), t.observation), t.work);
    }
  }

  /** Every other configuration bounds the corrections counted in any run, wherever it crashes. */
  lemma {:induction false} CorrectionsAreBounded(c: Config, ticks: seq<Tick>, log: seq<Effect>)
    requires !Renewable(c) && Happens(c, ticks, log)
    ensures DiskAfter(log).review.used <= c.maxReviewCycles * (1 + c.maxEpochs)
  {
    if c.maxReviewCycles > 0 {
      NoResets(c, ticks, log);
    }
    BudgetsHold(c, ticks, log);
    BoundedByEpochs(c, log);
  }

  lemma {:induction false} BoundedByEpochs(c: Config, log: seq<Effect>)
    requires LimitsKept(c, log) && (c.maxReviewCycles > 0 ==> Count(log).resets == 0)
    ensures DiskAfter(log).review.used <= c.maxReviewCycles * (1 + c.maxEpochs)
  {
    MoreEpochs(c.maxReviewCycles, DiskAfter(log).recovery.epoch, Count(log).resets, c.maxEpochs);
  }

  lemma {:induction false} NoResets(c: Config, ticks: seq<Tick>, log: seq<Effect>)
    requires NothingLifts(c) && Happens(c, ticks, log)
    ensures Count(log).resets == 0
  {
    RunStaysSteady(c, ticks);
    assert Steady(c, log) by {
      assert forall e | e in log :: e in RunLog(c, ticks);
    }
    SteadyDisk(c, log);
  }

  lemma {:induction false} MoreEpochs(limit: nat, epoch: nat, resets: nat, most: nat)
    requires epoch <= most && (limit > 0 ==> resets == 0)
    ensures limit * (1 + epoch + resets) <= limit * (1 + most)
  {
    if limit == 0 {
      assert limit * (1 + epoch + resets) == 0 * (1 + epoch + resets) == 0;
    }
  }

  // ---------------------------------------------------------------------------------------------
  // Runs that can happen
  // ---------------------------------------------------------------------------------------------

  /** How the contexts of a package's reviews are made: the digest from the review ledger and the head, the
      dispatch key from head and digest. */
  datatype Contexts = Contexts(digest: (ReviewLedger, string) -> string, key: (string, string) -> string)

  /** The look asks for the context that the record and the head call for. */
  predicate AsksRightly(x: Contexts, rec: Record, i: PrInput) {
    i.digest == x.digest(rec.ledger, i.head) && i.key == x.key(i.head, i.digest)
  }

  /** The review that the look finds, if any, quotes the one context it was triggered with. */
  ghost predicate Answers(x: Contexts, log: seq<Effect>, i: PrInput) {
    i.run.Some? ==>
      exists digest, at :: i.run.value.markers == [digest] && ReviewTriggered(x.key(i.head, digest), at) in log
  }

  /** A tick that is not cut, and whose looks fit the pull request, the record and the reviews triggered. */
  ghost predicate Plausible(x: Contexts, c: Config, log: seq<Effect>, t: Tick) {
    && |TickEffects(c, DiskAfter(log), t)| <= t.life
    && forall j | 0 <= j < |t.work| && t.work[j].LookAtPr? :: FitsLook(x, c, log, t, j)
  }

  ghost predicate FitsLook(x: Contexts, c: Config, log: seq<Effect>, t: Tick, j: int)
    requires 0 <= j < |t.work| && t.work[j].LookAtPr?
  {
    var p, i := DoAll(c, Reconcile(c, DiskAfter(log), t.observation), t.work[..j]), t.work[j].input;
    && t.observation.mergedHead.None? && t.observation.openHeads == [i.head]
    && AsksRightly(x, p.rec, i) && Answers(x, log + p.effects, i)
  }

  ghost predicate PlausibleRun(x: Contexts, c: Config, ticks: seq<Tick>)
    decreases |ticks|
  {
    ticks == []
    || (PlausibleRun(x, c, ticks[..|ticks| - 1])
        && Plausible(x, c, RunLog(c, ticks[..|ticks| - 1]), ticks[|ticks| - 1]))
  }

  /** New heads without end: `rank` tells them apart. */
  datatype Heads = Heads(at: nat -> string, rank: string -> int)

  ghost predicate AllNew(hs: Heads) {
    forall n: nat :: hs.rank(hs.at(n)) == n
  }

  predicate Older(hs: Heads, n: nat, head: Option<string>) {
    head.Some? ==> hs.rank(head.value) < n
  }

  // ---------------------------------------------------------------------------------------------
  // The ticks of such a run
  // ---------------------------------------------------------------------------------------------

  function Seeing(head: string): Observation {
    Observation(None, [head], false, [Session("s", None, Active)], [], false, true, true)
  }

  const SAYS_NOTHING := FindingLedger.Review("", map[], map[], [], [], [], false)

  /** A review that asks for changes and quotes the context with this digest. */
  function Rejection(digest: string): ReviewRun {
    ReviewRun(Some("r"), true, "changes_requested", [digest],
              FindingLedger.Reading(SAYS_NOTHING, FindingLedger.StatedChanges, 1), "why")
  }

  function Asking(x: Contexts, ledger: ReviewLedger, head: string): PrInput {
    var digest := x.digest(ledger, head);
    var key := x.key(head, digest);
    PrInput(head, Pass, false, true, key, digest, false, None, 0, 0, 0, false, false, Mergeable, NO_REPLAN)
  }

  /** The same look when the review has come back. */
  function Reading(x: Contexts, ledger: ReviewLedger, head: string): PrInput {
    Asking(x, ledger, head).(run := Some(Rejection(x.digest(ledger, head))))
  }

  /** How a package gets blocked for the legacy reconciliation to lift: by red product checks and a replanner
      that fails, or by red infrastructure whose reason names an old replan. */
  datatype Route = ByChecks | ByInfrastructure(text: string)

  ghost predicate Leads(c: Config, r: Route) {
    match r case ByChecks => c.maxCycles >= 1 case ByInfrastructure(text) => c.namesOldReplan(text)
  }

  /** A look that finds CI red, while the replanner cannot be reached. */
  function Failing(x: Contexts, ledger: ReviewLedger, head: string, r: Route): PrInput {
    var ci := if r.ByChecks? then Fail("red", Product) else Fail(r.text, Infrastructure(Some("run")));
    Asking(x, ledger, head).(ci := ci, replan := Replan(None, CallFails("down"), "", None, false))
  }

  function Remaining(limit: int, used: int): (left: nat)
    ensures used + left >= limit && (left > 0 ==> used + left == limit)
  {
    if used < limit then limit - used else 0
  }

  /** The red looks that a record still answers before it blocks. */
  function Spare(c: Config, r: Route, rec: Record): nat {
    match r
    case ByChecks => Remaining(c.maxCiRounds, rec.ci.usedInEpoch)
    case ByInfrastructure(_) => Remaining(c.maxInfraRetries, rec.ci.infraRetries)
  }

  function TickOf(i: PrInput): Tick {
    Tick(Seeing(i.head), [LookAtPr(i)], 9)
  }

  /** In the first epoch, with no replan cycle spent. */
  predicate Calm(rec: Record, used: nat) {
    && rec.recovery.epoch == 0 && rec.recovery.cycles == 0 && !rec.recovery.attempted
    && rec.review.terminalRejection.None? && rec.review.used == used
  }

  /** Nothing stands against the record, and the corrections of the epoch are all there. */
  predicate Renewed(rec: Record) {
    && rec.status != Blocked && rec.blocked.None? && rec.lastError.None? && rec.review.usedInEpoch == 0
    && rec.ci.usedInEpoch == 0 && rec.ci.authorizedFrom.None?
  }

  predicate Lifted(c: Config, rec: Record) {
    rec.status == Blocked && rec.blocked.Some? && NamesOldReplan(c, rec.blocked.value)
  }

  predicate IsNewHead(rec: Record, head: string) {
    && rec.head != Some(head) && rec.dispatch.sha != Some(head) && rec.ci.authorizedFrom != Some(head)
    && (rec.dispatch.sha.None? ==> rec.dispatch.state.None?)
  }

  lemma {:induction false} NothingSent(rec: Record)
    ensures SentIn([Saved(rec)]).total == 0 && SentIn([LegacyReconciled, Saved(rec)]).total == 0
  {
    var both := [LegacyReconciled, Saved(rec)];
    assert [Saved(rec)][..0] == [] && both[..1] == [LegacyReconciled] && [LegacyReconciled][..0] == [];
    assert SentIn([LegacyReconciled]).total == 0;
  }

  lemma {:induction false} SentConcat(a: seq<Effect>, b: seq<Effect>)
    ensures SentIn(a + b).total == SentIn(a).total + SentIn(b).total
  {
    if b == [] {
      assert a + b == a;
    } else {
      SentConcat(a, b[..|b| - 1]);
      assert (a + b)[..|a + b| - 1] == a + b[..|b| - 1];
    }
  }

  /** Reconciling lifts the block and zeroes the counters of the epoch. */
  lemma {:induction false} PlainIsRenewed(c: Config, disk: Record, head: string, used: nat)
    requires c.maxEpochs >= 1 && Calm(disk, used) && (Renewed(disk) || Lifted(c, disk))
    ensures var plain := Unlegacied(c, Loaded(disk), Seeing(head));
            && Calm(plain, used) && Renewed(plain) && plain.head == disk.head && plain.dispatch == disk.dispatch
            && plain.ledger == disk.ledger && plain.ci.infraRetries == disk.ci.infraRetries
  {
    assert Loaded(disk) == disk;
  }

  /** What an open pull request makes of a record that nothing blocks. */
  lemma {:induction false} OpenedAt(c: Config, rec: Record, head: string, used: nat)
    requires Calm(rec, used) && rec.blocked.None?
    requires IsNewHead(rec, head) || (rec.head == Some(head) && rec.dispatch.sha == Some(head))
    ensures var shown := WithOpenPr(c, rec, head, Seeing(head));
            && Calm(shown, used) && shown.blocked.None? && shown.status != Blocked && shown.session.Some?
            && shown.head == Some(head) && shown.ledger == rec.ledger && shown.ci == rec.ci
            && shown.review.usedInEpoch == rec.review.usedInEpoch && shown.dispatch.key == rec.dispatch.key
            && (shown.lastError == rec.lastError || shown.lastError.None?)
            && (IsNewHead(rec, head) && rec.head.Some? ==> shown.lastError.None?)
            && (IsNewHead(rec, head) ==> shown.dispatch.state in {None, Some(Stale)})
            && (!IsNewHead(rec, head) ==> shown.dispatch == rec.dispatch)
  {
    var attached := Attached(rec, head, Seeing(head));
    assert Calm(attached, used) && attached.dispatch == rec.dispatch && attached.ci == rec.ci;
    var current := ForHead(attached, head);
    assert Calm(current, used) && current.ci == rec.ci && current.ledger == rec.ledger;
  }

  /** The look without a review claims its key and triggers. */
  lemma {:induction false} AskIsMade(c: Config, x: Contexts, rec: Record, head: string, used: nat)
    requires Calm(rec, used) && Renewed(rec) && rec.session.Some? && rec.dispatch.state in {None, Some(Stale)}
    ensures var step := Reviewed(c, rec, Asking(x, rec.ledger, head));
            var after := AfterTrigger(step.rec, false);
            && step.action.Trigger? && Calm(after, used) && Renewed(after) && after.ledger == rec.ledger
            && after.head == rec.head && after.ci == rec.ci && after.dispatch.sha == Some(head)
            && after.dispatch.key == Some(Asking(x, rec.ledger, head).key)
  {
    var i := Asking(x, rec.ledger, head);
    var current := ForKey(rec, i.key);
    assert Calm(current, used) && Renewed(current) && current.dispatch.state in {None, Some(Stale)};
    assert Reviewed(c, rec, i) == NoRun(c, current, i);
  }

  /** The rejection is read as one, whatever the reader and the ledger. */
  lemma {:induction false} RejectionIsRead(c: Config, x: Contexts, rec: Record, head: string)
    ensures var i, run := Reading(x, rec.ledger, head), Rejection(x.digest(rec.ledger, head));
            && AuthorityOf(rec, i, run) == Proven
            && SemanticsOf(Judged(c, rec, i, run).verdict, run) == Rejected("changes_requested", "why")
  {
    var i, run := Reading(x, rec.ledger, head), Rejection(x.digest(rec.ledger, head));
    assert ReadingOf(run).stated == FindingLedger.StatedChanges;
    assert Judged(c, rec, i, run).verdict == FindingLedger.ChangesRequested;
  }

  lemma {:induction false} RejectionIsAnswered(c: Config, x: Contexts, rec: Record, head: string, used: nat)
    requires c.maxReviewCycles >= 1 && Calm(rec, used) && Renewed(rec) && rec.session.Some?
    requires rec.dispatch.key == Some(Reading(x, rec.ledger, head).key)
    ensures var step := Reviewed(c, rec, Reading(x, rec.ledger, head));
            && step.action.SendCorrection? && Calm(step.rec, used + 1) && step.rec.status != Blocked
            && step.rec.blocked.None? && step.rec.head == rec.head && step.rec.ci == rec.ci
            && step.rec.dispatch.sha == Some(head)
  {
    var i, run := Reading(x, rec.ledger, head), Rejection(x.digest(rec.ledger, head));
    assert ForKey(rec, i.key) == rec;
    RejectionIsRead(c, x, rec, head);
    var running := WithRun(rec, i, run);
    var kept := WithLedger(running, i, run, Judged(c, rec, i, run).ledger);
    assert Reviewed(c, rec, i) == ProvenRun(c, running, i, Rejected("changes_requested", "why"), kept);
    var done := Processed(kept, head, "changes_requested");
    assert Calm(done, used) && done.lastError.None? && done.review.usedInEpoch == 0 && done.blocked.None?;
  }

  /** A red look is answered while something is to spare, and blocks the record for a lift when not. */
  lemma {:induction false} FailureIsMet(c: Config, x: Contexts, rec: Record, head: string, r: Route, used: nat)
    requires c.maxEpochs >= 1 && Leads(c, r) && Calm(rec, used) && rec.status != Blocked && rec.blocked.None?
    requires rec.lastError.None? && rec.session.Some? && rec.ci.authorizedFrom != Some(head)
    ensures var after := CiNotPassed(c, rec, Failing(x, rec.ledger, head, r)).rec;
            && Calm(after, used) && after.head == rec.head && after.dispatch == rec.dispatch
            && after.ci.authorizedFrom in {rec.ci.authorizedFrom, Some(head)}
            && (Spare(c, r, rec) > 0 ==>
                  && after.status != Blocked && after.blocked.None? && Spare(c, r, after) == Spare(c, r, rec) - 1)
            && (Spare(c, r, rec) == 0 ==> Lifted(c, after))
  {
  }

  lemma {:induction false} LookAtLedger(x: Contexts, c: Config, log: seq<Effect>, i: PrInput)
    requires AsksRightly(x, DiskAfter(log), i) && Answers(x, log, i)
    ensures FitsLook(x, c, log, TickOf(i), 0)
  {
    var t := TickOf(i);
    var start := Reconcile(c, DiskAfter(log), t.observation);
    assert t.work[..0] == [];
    LedgerIsReconciled(c, DiskAfter(log), t.observation);
    assert forall e | e in log :: e in log + start.effects;
  }

  /** One more tick of a run. */
  lemma {:induction false} TickIsRun(
    x: Contexts, c: Config, ticks: seq<Tick>, i: PrInput, before: seq<Effect>, after: Record)
    returns (next: seq<Tick>)
    requires PlausibleRun(x, c, ticks) && |before| < 9
    requires var log := RunLog(c, ticks);
             && AsksRightly(x, DiskAfter(log), i) && Answers(x, log, i)
             && TickEffects(c, DiskAfter(log), TickOf(i)) == before + [Saved(after)]
    ensures PlausibleRun(x, c, next) && DiskAfter(RunLog(c, next)) == after
    ensures SentIn(RunLog(c, next)).total == SentIn(RunLog(c, ticks)).total + SentIn(before).total
    ensures forall e | e in before :: e in RunLog(c, next)
  {
    var log := RunLog(c, ticks);
    next := ticks + [TickOf(i)];
    OneMoreTick(c, ticks, TickOf(i));
    assert RunLog(c, next) == log + (before + [Saved(after)]);
    AppendTick(log, before, after);
    LookAtLedger(x, c, log, i);
    PlausibleSnoc(x, c, ticks, i);
  }

  lemma {:induction false} PlausibleSnoc(x: Contexts, c: Config, ticks: seq<Tick>, i: PrInput)
    requires PlausibleRun(x, c, ticks) && FitsLook(x, c, RunLog(c, ticks), TickOf(i), 0)
    requires |TickEffects(c, DiskAfter(RunLog(c, ticks)), TickOf(i))| <= 9
    ensures PlausibleRun(x, c, ticks + [TickOf(i)])
  {
    assert (ticks + [TickOf(i)])[..|ticks|] == ticks;
  }

  lemma {:induction false} AppendTick(log: seq<Effect>, before: seq<Effect>, after: Record)
    ensures DiskAfter(log + (before + [Saved(after)])) == after
    ensures SentIn(log + (before + [Saved(after)])).total == SentIn(log).total + SentIn(before).total
  {
    assert log + (before + [Saved(after)]) == log + before + [Saved(after)];
    SentConcat(log, before);
    SentSnoc(log + before, Saved(after));
    DiskSnoc(log + before, Saved(after));
  }

  /** Reconciling, one look, and the save. */
  lemma {:induction false} StartsQuietly(c: Config, disk: Record, o: Observation)
    ensures |Reconcile(c, disk, o).effects| <= 2 && SentIn(Reconcile(c, disk, o).effects).total == 0
  {
    var start := Reconcile(c, disk, o);
    assert start.effects == [Saved(start.rec)] || start.effects == [LegacyReconciled, Saved(start.rec)];
    NothingSent(start.rec);
  }

  lemma {:induction false} LiftedOpens(c: Config, disk: Record, head: string, used: nat)
    requires c.maxEpochs >= 1 && Calm(disk, used) && (Renewed(disk) || Lifted(c, disk))
    requires IsNewHead(disk, head) || (disk.head == Some(head) && disk.dispatch.sha == Some(head))
    ensures var rec := Reconcile(c, disk, Seeing(head)).rec;
            && Calm(rec, used) && Renewed(rec) && rec.session.Some? && rec.head == Some(head)
            && rec.ledger == disk.ledger && rec.ci.infraRetries == disk.ci.infraRetries
            && rec.dispatch.key == disk.dispatch.key
            && (IsNewHead(disk, head) ==> rec.dispatch.state in {None, Some(Stale)})
            && (!IsNewHead(disk, head) ==> rec.dispatch == disk.dispatch)
  {
    PlainIsRenewed(c, disk, head, used);
    var plain := Unlegacied(c, Loaded(disk), Seeing(head));
    OpenedAt(c, plain, head, used);
    LedgerIsReconciled(c, disk, Seeing(head));
    assert Reconcile(c, disk, Seeing(head)).rec == WithOpenPr(c, plain, head, Seeing(head));
  }

  predicate WaitsFor(x: Contexts, rec: Record, head: string) {
    && Renewed(rec) && rec.head == Some(head) && rec.dispatch.sha == Some(head)
    && rec.dispatch.key == Some(Asking(x, rec.ledger, head).key)
  }

  lemma {:induction false} AskEffects(x: Contexts, c: Config, disk: Record, head: string, used: nat)
    returns (before: seq<Effect>, after: Record)
    requires c.maxEpochs >= 1 && Calm(disk, used) && (Renewed(disk) || Lifted(c, disk)) && IsNewHead(disk, head)
    ensures var i := Asking(x, disk.ledger, head);
            && TickEffects(c, disk, TickOf(i)) == before + [Saved(after)] && ReviewTriggered(i.key, 0) in before
            && |before| < 9 && SentIn(before).total == 0
            && Calm(after, used) && WaitsFor(x, after, head) && after.ledger == disk.ledger
  {
    var start, i := Reconcile(c, disk, Seeing(head)), Asking(x, disk.ledger, head);
    var claim := Reviewed(c, start.rec, i).rec;
    before, after := start.effects + [Saved(claim)] + [ReviewTriggered(i.key, 0)], AfterTrigger(claim, false);
    LiftedOpens(c, disk, head, used);
    AskIsMade(c, x, start.rec, head, used);
    TickAsks(c, disk, i);
    StartsWithTrigger(c, disk, Seeing(head), claim, i.key);
  }

  lemma {:induction false} TickAsks(c: Config, disk: Record, i: PrInput)
    requires var start := Reconcile(c, disk, Seeing(i.head)).rec;
             start.status != Blocked && i.ci == Pass && i.reviewRequired && !i.triggerFails
             && i.now + i.delay == 0 && Reviewed(c, start, i).action.Trigger?
    ensures var start := Reconcile(c, disk, Seeing(i.head));
            var claim := Reviewed(c, start.rec, i).rec;
            var before := start.effects + [Saved(claim)] + [ReviewTriggered(i.key, 0)];
            TickEffects(c, disk, TickOf(i)) == before + [Saved(AfterTrigger(claim, false))]
  {
    var start := Reconcile(c, disk, Seeing(i.head));
    LookTriggersOnce(c, start, i);
    assert TickEffects(c, disk, TickOf(i)) == Save(HandlePr(c, start, i)).effects by {
      OneLook(c, disk, Seeing(i.head), i, 9);
    }
  }

  lemma {:induction false} StartsWithTrigger(c: Config, disk: Record, o: Observation, claim: Record, key: string)
    ensures var before := Reconcile(c, disk, o).effects + [Saved(claim)] + [ReviewTriggered(key, 0)];
            |before| < 9 && SentIn(before).total == 0
  {
    var effects := Reconcile(c, disk, o).effects;
    StartsQuietly(c, disk, o);
    SentSnoc(effects, Saved(claim));
    SentSnoc(effects + [Saved(claim)], ReviewTriggered(key, 0));
  }

  lemma {:induction false} LookTriggersOnce(c: Config, start: Progress, i: PrInput)
    requires start.rec.status != Blocked && i.ci == Pass && i.reviewRequired && !i.triggerFails
    requires Reviewed(c, start.rec, i).action.Trigger?
    ensures var claim := Reviewed(c, start.rec, i).rec;
            Save(HandlePr(c, start, i)).effects
            == start.effects + [Saved(claim)] + [ReviewTriggered(i.key, i.now + i.delay)]
               + [Saved(AfterTrigger(claim, false))]
  {
    var claim := Reviewed(c, start.rec, i).rec;
    TriggerEffects([], start.(rec := claim), i);
    assert HandlePr(c, start, i) == TriggerReview(start.(rec := claim), i);
  }

  lemma {:induction false} AskTick(
    x: Contexts, c: Config, ticks: seq<Tick>, head: string, used: nat)
    returns (next: seq<Tick>)
    requires PlausibleRun(x, c, ticks) && c.maxEpochs >= 1
    requires var disk := DiskAfter(RunLog(c, ticks));
             Calm(disk, used) && (Renewed(disk) || Lifted(c, disk)) && IsNewHead(disk, head)
    ensures PlausibleRun(x, c, next) && SentIn(RunLog(c, next)).total == SentIn(RunLog(c, ticks)).total
    ensures var disk := DiskAfter(RunLog(c, next));
            && Calm(disk, used) && WaitsFor(x, disk, head)
            && ReviewTriggered(x.key(head, x.digest(disk.ledger, head)), 0) in RunLog(c, next)
  {
    var disk := DiskAfter(RunLog(c, ticks));
    var i := Asking(x, disk.ledger, head);
    var before, after := AskEffects(x, c, disk, head, used);
    AskFits(x, RunLog(c, ticks), head);
    next := TickIsRun(x, c, ticks, i, before, after);
    assert x.key(head, x.digest(after.ledger, head)) == i.key;
  }

  lemma {:induction false} AskFits(x: Contexts, log: seq<Effect>, head: string)
    ensures AsksRightly(x, DiskAfter(log), Asking(x, DiskAfter(log).ledger, head))
    ensures Answers(x, log, Asking(x, DiskAfter(log).ledger, head))
  {
  }

  lemma {:induction false} ReadEffects(x: Contexts, c: Config, disk: Record, head: string, used: nat)
    returns (before: seq<Effect>, after: Record)
    requires c.maxEpochs >= 1 && c.maxReviewCycles >= 1 && Calm(disk, used) && WaitsFor(x, disk, head)
    ensures TickEffects(c, disk, TickOf(Reading(x, disk.ledger, head))) == before + [Saved(after)]
    ensures |before| < 9 && SentIn(before).total == 1
    ensures && Calm(after, used + 1) && after.status != Blocked && after.blocked.None? && after.head == Some(head)
            && after.dispatch.sha == Some(head) && after.ci.authorizedFrom.None?
  {
    var start, i := Reconcile(c, disk, Seeing(head)), Reading(x, disk.ledger, head);
    before, after := start.effects + [CorrectionSent(head)], Reviewed(c, start.rec, i).rec;
    ReadRecord(x, c, disk, head, used);
    TickCorrects(c, disk, i);
    StartsWithCorrection(c, disk, Seeing(head), head);
  }

  lemma {:induction false} TickCorrects(c: Config, disk: Record, i: PrInput)
    requires var start := Reconcile(c, disk, Seeing(i.head)).rec;
             start.status != Blocked && i.ci == Pass && i.reviewRequired
             && Reviewed(c, start, i).action.SendCorrection?
    ensures var start := Reconcile(c, disk, Seeing(i.head));
            var before := start.effects + [CorrectionSent(i.head)];
            TickEffects(c, disk, TickOf(i)) == before + [Saved(Reviewed(c, start.rec, i).rec)]
  {
    var start := Reconcile(c, disk, Seeing(i.head));
    LookCorrects(c, start, i);
    assert TickEffects(c, disk, TickOf(i)) == Save(HandlePr(c, start, i)).effects by {
      OneLook(c, disk, Seeing(i.head), i, 9);
    }
  }

  lemma {:induction false} StartsWithCorrection(c: Config, disk: Record, o: Observation, head: string)
    ensures var before := Reconcile(c, disk, o).effects + [CorrectionSent(head)];
            |before| < 9 && SentIn(before).total == 1
  {
    StartsQuietly(c, disk, o);
    SentSnoc(Reconcile(c, disk, o).effects, CorrectionSent(head));
  }

  lemma {:induction false} ReadRecord(x: Contexts, c: Config, disk: Record, head: string, used: nat)
    requires c.maxEpochs >= 1 && c.maxReviewCycles >= 1 && Calm(disk, used) && WaitsFor(x, disk, head)
    ensures var start := Reconcile(c, disk, Seeing(head)).rec;
            var step := Reviewed(c, start, Reading(x, disk.ledger, head));
            && start.status != Blocked && step.action.SendCorrection? && Calm(step.rec, used + 1)
            && step.rec.status != Blocked && step.rec.blocked.None? && step.rec.head == Some(head)
            && step.rec.dispatch.sha == Some(head) && step.rec.ci.authorizedFrom.None?
  {
    assert !IsNewHead(disk, head);
    LiftedOpens(c, disk, head, used);
    RejectionIsAnswered(c, x, Reconcile(c, disk, Seeing(head)).rec, head, used);
  }

  lemma {:induction false} LookCorrects(c: Config, start: Progress, i: PrInput)
    requires start.rec.status != Blocked && i.ci == Pass && i.reviewRequired
    requires Reviewed(c, start.rec, i).action.SendCorrection?
    ensures Save(HandlePr(c, start, i)).effects
            == start.effects + [CorrectionSent(i.head)] + [Saved(Reviewed(c, start.rec, i).rec)]
  {
  }

  lemma {:induction false} ReadTick(
    x: Contexts, c: Config, ticks: seq<Tick>, head: string, used: nat)
    returns (next: seq<Tick>)
    requires PlausibleRun(x, c, ticks) && c.maxEpochs >= 1 && c.maxReviewCycles >= 1
    requires var disk := DiskAfter(RunLog(c, ticks));
             && Calm(disk, used) && WaitsFor(x, disk, head)
             && ReviewTriggered(x.key(head, x.digest(disk.ledger, head)), 0) in RunLog(c, ticks)
    ensures PlausibleRun(x, c, next) && SentIn(RunLog(c, next)).total == SentIn(RunLog(c, ticks)).total + 1
    ensures var disk := DiskAfter(RunLog(c, next));
            && Calm(disk, used + 1) && disk.status != Blocked && disk.blocked.None? && disk.head == Some(head)
            && disk.dispatch.sha == Some(head) && disk.ci.authorizedFrom.None?
  {
    var disk := DiskAfter(RunLog(c, ticks));
    var before, after := ReadEffects(x, c, disk, head, used);
    assert Reading(x, disk.ledger, head).run.value.markers == [x.digest(disk.ledger, head)];
    next := TickIsRun(x, c, ticks, Reading(x, disk.ledger, head), before, after);
  }

  /** What a red look makes of a record. */
  predicate Failed(c: Config, r: Route, rec: Record, after: Record, head: string) {
    && after.head == Some(head) && after.dispatch.sha == rec.dispatch.sha
    && (after.dispatch.sha.None? ==> after.dispatch.state.None?)
    && after.ci.authorizedFrom in {rec.ci.authorizedFrom, Some(head)}
    && (Spare(c, r, rec) > 0 ==>
          && after.status != Blocked && after.blocked.None? && Spare(c, r, after) == Spare(c, r, rec) - 1)
    && (Spare(c, r, rec) == 0 ==> Lifted(c, after))
  }

  lemma {:induction false} FailEffects(x: Contexts, c: Config, r: Route, disk: Record, head: string, used: nat)
    returns (before: seq<Effect>, after: Record)
    requires c.maxEpochs >= 1 && Leads(c, r) && Calm(disk, used) && disk.status != Blocked && disk.blocked.None?
    requires disk.head.Some? && IsNewHead(disk, head)
    ensures TickEffects(c, disk, TickOf(Failing(x, disk.ledger, head, r))) == before + [Saved(after)]
    ensures |before| < 9 && SentIn(before).total == 0 && Calm(after, used) && Failed(c, r, disk, after, head)
  {
    var start, i := Reconcile(c, disk, Seeing(head)), Failing(x, disk.ledger, head, r);
    before, after := start.effects + Said(CiNotPassed(c, start.rec, i).action), CiNotPassed(c, start.rec, i).rec;
    FailureOpens(c, disk, head, used);
    FailureIsMet(c, x, start.rec, head, r, used);
    TickFails(c, disk, i);
    StartsWithMessage(c, disk, Seeing(head), i);
  }

  lemma {:induction false} TickFails(c: Config, disk: Record, i: PrInput)
    requires Reconcile(c, disk, Seeing(i.head)).rec.status != Blocked && i.ci != Pass
    ensures var start := Reconcile(c, disk, Seeing(i.head));
            var step := CiNotPassed(c, start.rec, i);
            TickEffects(c, disk, TickOf(i)) == start.effects + Said(step.action) + [Saved(step.rec)]
  {
    var start := Reconcile(c, disk, Seeing(i.head));
    LookAdds(c, start, i);
    assert TickEffects(c, disk, TickOf(i)) == Save(HandlePr(c, start, i)).effects by {
      OneLook(c, disk, Seeing(i.head), i, 9);
    }
  }

  lemma {:induction false} StartsWithMessage(c: Config, disk: Record, o: Observation, i: PrInput)
    requires i.ci != Pass
    ensures var start := Reconcile(c, disk, o);
            var before := start.effects + Said(CiNotPassed(c, start.rec, i).action);
            |before| < 9 && SentIn(before).total == 0
  {
    var start := Reconcile(c, disk, o);
    var action := CiNotPassed(c, start.rec, i).action;
    StartsQuietly(c, disk, o);
    CiSays(c, start.rec, i);
    MessageIsNoCorrection(start.effects, action);
  }

  lemma {:induction false} MessageIsNoCorrection(effects: seq<Effect>, action: Action)
    requires |effects| <= 2 && SentIn(effects).total == 0 && (action.Tell? ==> IsMessage(action.effect))
    ensures |effects + Said(action)| < 9 && SentIn(effects + Said(action)).total == 0
  {
    if action.Tell? {
      SentSnoc(effects, action.effect);
    } else {
      assert effects + [] == effects;
    }
  }

  lemma {:induction false} FailTick(
    x: Contexts, c: Config, r: Route, ticks: seq<Tick>, head: string, used: nat)
    returns (next: seq<Tick>)
    requires PlausibleRun(x, c, ticks) && c.maxEpochs >= 1 && Leads(c, r)
    requires var disk := DiskAfter(RunLog(c, ticks));
             && Calm(disk, used) && disk.status != Blocked && disk.blocked.None? && disk.head.Some?
             && IsNewHead(disk, head)
    ensures PlausibleRun(x, c, next) && SentIn(RunLog(c, next)).total == SentIn(RunLog(c, ticks)).total
    ensures Calm(DiskAfter(RunLog(c, next)), used)
    ensures Failed(c, r, DiskAfter(RunLog(c, ticks)), DiskAfter(RunLog(c, next)), head)
  {
    var disk := DiskAfter(RunLog(c, ticks));
    var before, after := FailEffects(x, c, r, disk, head, used);
    next := TickIsRun(x, c, ticks, Failing(x, disk.ledger, head, r), before, after);
  }

  lemma {:induction false} FailureOpens(c: Config, disk: Record, head: string, used: nat)
    requires Calm(disk, used) && disk.status != Blocked && disk.blocked.None?
    requires disk.head.Some? && IsNewHead(disk, head)
    ensures var rec := Reconcile(c, disk, Seeing(head)).rec;
            && Calm(rec, used) && rec.status != Blocked && rec.blocked.None? && rec.lastError.None? && rec.session.Some?
            && rec.head == Some(head) && rec.ledger == disk.ledger && rec.ci == disk.ci
            && rec.dispatch.sha == disk.dispatch.sha
            && (disk.dispatch.sha.None? ==> rec.dispatch.state == disk.dispatch.state)
  {
    assert Unlegacied(c, Loaded(disk), Seeing(head)) == disk;
    OpenedAt(c, disk, head, used);
    ShaStays(c, disk, head);
  }

  lemma {:induction false} ShaStays(c: Config, rec: Record, head: string)
    ensures var shown := WithOpenPr(c, rec, head, Seeing(head));
            && shown.dispatch.sha == rec.dispatch.sha
            && (rec.dispatch.sha.None? ==> shown.dispatch.state == rec.dispatch.state)
  {
  }

  // ---------------------------------------------------------------------------------------------
  // Corrections without end
  // ---------------------------------------------------------------------------------------------

  predicate KnowsOnlyOld(hs: Heads, n: nat, rec: Record) {
    && Older(hs, n, rec.head) && Older(hs, n, rec.dispatch.sha) && Older(hs, n, rec.ci.authorizedFrom)
    && (rec.dispatch.sha.None? ==> rec.dispatch.state.None?)
  }

  lemma {:induction false} NextHeadIsNew(hs: Heads, n: nat, rec: Record)
    requires AllNew(hs) && KnowsOnlyOld(hs, n, rec)
    ensures IsNewHead(rec, hs.at(n)) && hs.rank(hs.at(n)) == n
  {
  }

  /** A plausible run that has sent and counted this many corrections. */
  ghost predicate HasSent(x: Contexts, c: Config, hs: Heads, ticks: seq<Tick>, n: nat, used: nat) {
    && PlausibleRun(x, c, ticks) && SentIn(RunLog(c, ticks)).total == used
    && Calm(DiskAfter(RunLog(c, ticks)), used) && KnowsOnlyOld(hs, n, DiskAfter(RunLog(c, ticks)))
  }

  lemma {:induction false} FailUntilLifted(
      x: Contexts, c: Config, r: Route, hs: Heads, ticks: seq<Tick>, n: nat, used: nat)
    returns (next: seq<Tick>, m: nat)
    requires AllNew(hs) && c.maxEpochs >= 1 && Leads(c, r) && HasSent(x, c, hs, ticks, n, used)
    requires var disk := DiskAfter(RunLog(c, ticks)); disk.status != Blocked && disk.blocked.None? && disk.head.Some?
    ensures HasSent(x, c, hs, next, m, used) && Lifted(c, DiskAfter(RunLog(c, next)))
    decreases Spare(c, r, DiskAfter(RunLog(c, ticks)))
  {
    NextHeadIsNew(hs, n, DiskAfter(RunLog(c, ticks)));
    next := FailTick(x, c, r, ticks, hs.at(n), used);
    m := n + 1;
    if Spare(c, r, DiskAfter(RunLog(c, ticks))) > 0 {
      next, m := FailUntilLifted(x, c, r, hs, next, n + 1, used);
    }
  }

  /** One round: a review asked for and answered with a correction, and red looks until the block. */
  lemma {:induction false} Round(x: Contexts, c: Config, r: Route, hs: Heads, ticks: seq<Tick>, n: nat, used: nat)
    returns (next: seq<Tick>, m: nat)
    requires AllNew(hs) && c.maxEpochs >= 1 && c.maxReviewCycles >= 1 && Leads(c, r)
    requires HasSent(x, c, hs, ticks, n, used)
    requires Renewed(DiskAfter(RunLog(c, ticks))) || Lifted(c, DiskAfter(RunLog(c, ticks)))
    ensures HasSent(x, c, hs, next, m, used + 1) && Lifted(c, DiskAfter(RunLog(c, next)))
  {
    var head := hs.at(n);
    NextHeadIsNew(hs, n, DiskAfter(RunLog(c, ticks)));
    var asked := AskTick(x, c, ticks, head, used);
    var read := ReadTick(x, c, asked, head, used);
    next, m := FailUntilLifted(x, c, r, hs, read, n + 1, used + 1);
  }

  /** For every number, a run in which nothing crashes, every look asks for the context of its record and
      every review answers a trigger, and that has sent and counted this many corrections in its first
      epoch. */
  lemma {:induction false} CorrectionsAreRenewed(x: Contexts, c: Config, r: Route, hs: Heads, used: nat)
    returns (ticks: seq<Tick>, n: nat)
    requires AllNew(hs) && c.maxEpochs >= 1 && c.maxReviewCycles >= 1 && Leads(c, r)
    ensures HasSent(x, c, hs, ticks, n, used)
    ensures Renewed(DiskAfter(RunLog(c, ticks))) || Lifted(c, DiskAfter(RunLog(c, ticks)))
  {
    if used == 0 {
      ticks, n := [], 0;
      assert RunLog(c, []) == [];
    } else {
      ticks, n := CorrectionsAreRenewed(x, c, r, hs, used - 1);
      ticks, n := Round(x, c, r, hs, ticks, n, used - 1);
    }
  }

  ghost predicate Counts(x: Contexts, c: Config, ticks: seq<Tick>, n: nat) {
    PlausibleRun(x, c, ticks) && DiskAfter(RunLog(c, ticks)).review.used >= n
  }

  ghost predicate Reaches(x: Contexts, c: Config, n: nat) {
    exists ticks :: Counts(x, c, ticks, n)
  }

  /** The corrections of a package are unbounded exactly for these configurations, however its contexts are
      made. */
  lemma {:induction false} CorrectionsAreUnboundedExactlyWhen(x: Contexts, c: Config)
    ensures (forall n: nat :: Reaches(x, c, n)) <==> Renewable(c)
  {
    if Renewable(c) {
      var r := if c.maxCycles >= 1 then ByChecks else var text :| c.namesOldReplan(text); ByInfrastructure(text);
      var hs := Heads((n: nat) => seq(n, _ => 'a'), head => |head|);
      forall n: nat ensures Reaches(x, c, n) {
        var ticks, m := CorrectionsAreRenewed(x, c, r, hs, n);
        assert Counts(x, c, ticks, n);
      }
    } else {
      var n := c.maxReviewCycles * (1 + c.maxEpochs) + 1;
      forall ticks ensures !Counts(x, c, ticks, n) {
        CorrectionsAreBounded(c, ticks, RunLog(c, ticks));
      }
      assert !Reaches(x, c, n);
    }
  }
}
