/** One work package's record through the controller's ticks: reviews are claimed before they are
    triggered, corrections are counted per recovery epoch, and everything in memory is lost when the
    process dies. A save in the middle of a tick writes this one record into the state as it is on disk,
    so the other packages' records play no part. */
module PackageController {
  import opened Text
  import FindingLedger

  // ---------------------------------------------------------------------------------------------
  // The record
  // ---------------------------------------------------------------------------------------------

  datatype Status =
    | Planned | Ready | Starting | Active | Idle | WaitingInput | PrWaiting | Ci | Review | Blocked | Failed | Completed
      | Stuck

  datatype Provider = Agy | Muse

  datatype DispatchState = Claimed | Triggered | Done | Stale | Lost | Unknown

  /** The review dispatch: for which key it stands, how often a review was claimed, and how often the
      present claim was triggered. Times are in microseconds. */
  datatype Dispatch = Dispatch(
    key: Option<string>,
    state: Option<DispatchState>,
    sha: Option<string>,
    runId: Option<string>,
    attempts: nat,
    triggerAttempts: nat,
    lastAttempt: Option<int>)

  datatype ReviewWork = ReviewWork(
    verdict: Option<string>,
    sha: Option<string>,
    used: nat,
    usedInEpoch: nat,
    authorizedFrom: Option<string>,
    terminalRejection: Option<string>)

  datatype CiWork = CiWork(used: nat, usedInEpoch: nat, authorizedFrom: Option<string>, infraRetries: nat,
      integrationUsed: nat)

  datatype Recovery = Recovery(epoch: nat, cycles: nat, attempted: bool, planDigest: Option<string>, noProgress: nat)

  /** Why a package is blocked; `text` is what the message quotes. */
  datatype ReasonKind =
    | DuplicateWork | RewrittenHistory | ForeignSession | OrphanBranch | StagnantMilestone | NoSession
    | CiBudget | InfraBudget | ReviewBudget | UnprovenApproval | DispatchExhausted | ProtectedPaths
    | RecoveryExhausted | ReplanUnavailable | EmergencyUnavailable | Contradiction | RepeatedPlan
    | ReplanAlreadyAttempted | NoDeterministicPlan | SupersededByReplan | SpawnFailed

  datatype Reason = Reason(kind: ReasonKind, text: string)

  datatype LastError =
    | CiSent(head: string, reason: string)
    | InfraRetried(head: string, run: string, retries: nat)
    | ReviewSent(head: string, verdict: string, reason: string)
    | MergeSent(head: string, mergeState: string)
    | Message(text: string)

  /** The frozen baseline, if any, the digest of its context, and the blocker ledger. */
  datatype ReviewLedger = ReviewLedger(baselineId: Option<string>, digest: Option<string>,
      findings: seq<FindingLedger.Finding>)

  datatype Record = Record(
    status: Status,
    session: Option<string>,
    provider: Option<Provider>,
    head: Option<string>,
    dispatch: Dispatch,
    review: ReviewWork,
    ledger: ReviewLedger,
    ci: CiWork,
    recovery: Recovery,
    blocked: Option<Reason>,
    lastError: Option<LastError>)

  const FRESH := Record(
    Planned, None, None, None,
    Dispatch(None, None, None, None, 0, 0, None), ReviewWork(None, None, 0, 0, None, None),
    ReviewLedger(None, None, []), CiWork(0, 0, None, 0, 0), Recovery(0, 0, false, None, 0), None, None)

  /** The configured limits, how reviews are read, and the searches for words in the quoted part of a
      reason. */
  datatype Config = Config(
    maxCiRounds: nat,
    maxInfraRetries: nat,
    maxIntegration: nat,
    maxReviewCycles: nat,
    maxEpochs: nat,
    maxCycles: nat,
    reader: FindingLedger.Reader,
    namesOldReplan: string -> bool,
    namesWaiting: string -> bool,
    namesBudget: string -> bool)

  const GRACE := 30_000_000
  const MAX_TRIGGERS := 2

  /** Saves, calls and messages to the outside, and the events that tell of a counter starting anew. */
  datatype Effect =
    | Saved(record: Record)
    | ReviewTriggered(key: string, at: int)
    | CorrectionSent(head: string)
    | CiFixSent(head: string)
    | CiFixRepeated(head: string) // for a head that has its correction already
    | RerunAsked(head: string)
    | MergeUpdateSent(head: string)
    | EpochBegun
    | WorkerRequeued
    | LegacyReconciled
    | Merged(head: string)
    | Crashed

  /** The record in memory and the effects so far. */
  datatype Progress = Progress(rec: Record, effects: seq<Effect>)

  function Emit(p: Progress, e: Effect): Progress {
    p.(effects := p.effects + [e])
  }

  function Save(p: Progress): Progress {
    Emit(p, Saved(p.rec))
  }

  function Block(rec: Record, kind: ReasonKind, text: string): Record {
    rec.(status := Blocked, blocked := Some(Reason(kind, text)), lastError := Some(Message(text)))
  }

  // ---------------------------------------------------------------------------------------------
  // Reconciling with what is there
  // ---------------------------------------------------------------------------------------------

  datatype Session = Session(id: string, provider: Option<Provider>, status: Status)

  /** `terminal` holds the terminated sessions, when the package has had a task attempt. */
  datatype Observation = Observation(
    mergedHead: Option<string>,
    openHeads: seq<string>,
    rewritten: bool,
    sessions: seq<Session>,
    terminal: seq<Session>,
    branchExists: bool,
    issue: bool,
    dependenciesDone: bool)

  /** A loaded record that has used replan cycles counts as one that attempted a replan. */
  function Loaded(rec: Record): Record {
    rec.(recovery := rec.recovery.(attempted := rec.recovery.attempted || rec.recovery.cycles > 0))
  }

  predicate NamesOldReplan(c: Config, r: Reason) {
    r.kind in {ReplanAlreadyAttempted, CiBudget, ReplanUnavailable} || c.namesOldReplan(r.text)
  }

  predicate IsLegacyBlock(c: Config, rec: Record) {
    && rec.status == Blocked && rec.blocked.Some? && NamesOldReplan(c, rec.blocked.value)
    && rec.recovery.epoch < c.maxEpochs && rec.review.terminalRejection.None?
  }

  predicate IsReset(c: Config, rec: Record, o: Observation) {
    o.mergedHead.None? && o.openHeads != [] && IsLegacyBlock(c, rec)
  }

  function LegacyReset(rec: Record): Record {
    rec.(status := PrWaiting, blocked := None, lastError := None,
         recovery := rec.recovery.(cycles :=
           if rec.recovery.attempted && rec.recovery.cycles < 1 then 1 else rec.recovery.cycles),
         review := rec.review.(usedInEpoch := 0),
         ci := rec.ci.(usedInEpoch := 0, authorizedFrom := None))
  }

  /** What a pull request or a live session clears of a block. */
  predicate ClearedByPr(c: Config, r: Reason) {
    r.kind in {StagnantMilestone, ReplanAlreadyAttempted, ReplanUnavailable, SupersededByReplan, ReviewBudget}
    || c.namesWaiting(r.text)
  }

  predicate ClearedBySession(c: Config, r: Reason) {
    r.kind in {StagnantMilestone, ReplanAlreadyAttempted, ReplanUnavailable, SupersededByReplan,
               ReviewBudget, CiBudget, InfraBudget, EmergencyUnavailable}
    || c.namesWaiting(r.text) || c.namesBudget(r.text)
  }

  function ApplyPr(rec: Record, head: string, rewritten: bool): Record {
    if rec.head == None || rec.head == Some(head) then rec.(head := Some(head))
    else if rewritten then Block(rec, RewrittenHistory, head)
    else rec.(head := Some(head), review := rec.review.(sha := None, verdict := None), lastError := None)
  }

  function ApplySession(rec: Record, s: Session): Record {
    rec.(session := Some(s.id), provider := if s.provider.Some? then s.provider else rec.provider)
  }

  /** A dispatch for another head or another key than the one wanted now. */
  function DropDispatch(rec: Record): Record {
    rec.(dispatch := rec.dispatch.(state := Some(Stale), triggerAttempts := 0, lastAttempt := None),
         review := rec.review.(verdict := None, sha := None))
  }

  function DropAnsweredRejection(rec: Record): Record {
    if rec.review.terminalRejection.Some? && rec.review.authorizedFrom == rec.review.terminalRejection
    then rec.(review := rec.review.(terminalRejection := None)) else rec
  }

  function Attached(rec: Record, head: string, o: Observation): Record {
    var applied := ApplyPr(rec, head, o.rewritten);
    if o.sessions != [] then ApplySession(applied, o.sessions[0]) else applied
  }

  function ForHead(rec: Record, head: string): Record {
    var current := if rec.dispatch.sha.Some? && rec.dispatch.sha != Some(head) then DropDispatch(rec) else rec;
    if current.review.terminalRejection != Some(head) then DropAnsweredRejection(current) else current
  }

  function WithOpenPr(c: Config, rec: Record, head: string, o: Observation): Record {
    Shown(c, ForHead(Attached(rec, head, o), head), head)
  }

  function Shown(c: Config, rec: Record, head: string): Record {
    var placed := rec.(status :=
        if rec.dispatch.state == Some(Triggered) && rec.dispatch.sha == Some(head) then Review else PrWaiting);
    if placed.blocked.Some? && ClearedByPr(c, placed.blocked.value) && placed.review.terminalRejection.None?
    then placed.(blocked := None, lastError := None) else placed
  }

  function WithSession(c: Config, rec: Record, s: Session, status: Status): Record {
    var attached := ApplySession(rec, s).(status := status);
    if attached.blocked.Some? && ClearedBySession(c, attached.blocked.value)
    then attached.(blocked := None, recovery := attached.recovery.(attempted := false)) else attached
  }

  function OwnTerminal(rec: Record, sessions: seq<Session>): Option<Session> {
    FirstWhere(sessions, (s: Session) => rec.session == Some(s.id))
  }

  function Placed(c: Config, rec: Record, o: Observation): Record {
    if |o.openHeads| > 1 || |o.sessions| > 1 then rec.(status := Blocked, blocked := Some(Reason(DuplicateWork, "")))
    else if o.mergedHead.Some? then
        ApplyPr(rec, o.mergedHead.value, o.rewritten).(status := Completed, blocked := None, lastError := None)
    else if o.openHeads != [] then WithOpenPr(c, rec, o.openHeads[0], o)
    else if o.sessions != [] then WithSession(c, rec, o.sessions[0], o.sessions[0].status)
    else if OwnTerminal(rec, o.terminal).Some? then WithSession(c, rec, OwnTerminal(rec, o.terminal).value, Failed)
    else if o.terminal != [] then rec.(status := Blocked, blocked := Some(Reason(ForeignSession, "")))
    else if o.branchExists then rec.(status := Blocked, blocked := Some(Reason(OrphanBranch, "")))
    else if rec.status == Blocked then rec
    else if o.issue then rec.(status := if o.dependenciesDone then Ready else Planned, blocked := None)
    else rec.(status := Planned)
  }

  function Unlegacied(c: Config, rec: Record, o: Observation): Record {
    if o.mergedHead.Some? then rec
    else if IsReset(c, rec, o) then LegacyReset(rec)
    else if rec.recovery.attempted && rec.recovery.cycles == 0 then rec.(recovery := rec.recovery.(cycles := 1))
    else rec
  }

  function Reconcile(c: Config, disk: Record, o: Observation): Progress {
    var rec := Loaded(disk);
    var start := Progress(Placed(c, Unlegacied(c, rec, o), o), []);
    Save(if IsReset(c, rec, o) then Emit(start, LegacyReconciled) else start)
  }

  // ---------------------------------------------------------------------------------------------
  // Escalation
  // ---------------------------------------------------------------------------------------------

  datatype Answer = CallFails(error: string) | EmergencyFails(error: string) | Contradicts(text: string) | Replanned
      | OtherAnswer

  /** `head` is that of the open pull request, if the caller hands one over. */
  datatype Replan = Replan(head: Option<string>, answer: Answer, digest: string, provider: Option<Provider>,
      promptFails: bool)

  predicate RecoveryIsExhausted(c: Config, rec: Record) {
    rec.recovery.epoch >= c.maxEpochs || rec.recovery.cycles >= c.maxCycles
  }

  function CountRepeat(rec: Record, digest: string): Record {
    rec.(recovery := rec.recovery.(noProgress :=
      if rec.recovery.planDigest == Some(digest) then rec.recovery.noProgress + 1 else 0))
  }

  function NextEpoch(rec: Record, r: Replan): Record {
    var advanced := rec.(
      recovery := rec.recovery.(epoch := rec.recovery.epoch + 1, cycles := rec.recovery.cycles + 1, attempted := true,
                                planDigest := Some(r.digest)),
      review := rec.review.(usedInEpoch := 0, authorizedFrom := None, terminalRejection := None),
      ci := rec.ci.(usedInEpoch := 0, authorizedFrom := None, infraRetries := 0),
      blocked := None, status := PrWaiting,
      lastError := if r.promptFails && rec.session.Some? then Some(Message("send")) else None);
    if r.provider.Some? && r.provider != advanced.provider
    then advanced.(provider := r.provider, dispatch := advanced.dispatch.(key := None, state := None)) else advanced
  }

  /** What a step comes to: nothing more, a trigger of what the record now claims, a review correction sent
      to the worker, another message or event, or going on to the merge. */
  datatype Action = Stop | Trigger | SendCorrection | Tell(effect: Effect) | GoOn

  datatype Step = Step(rec: Record, action: Action)

  function RecoverPr(c: Config, rec: Record, r: Replan): Step {
    match r.answer
    case CallFails(error) => Step(Block(rec, ReplanUnavailable, error), Stop)
    case EmergencyFails(error) => Step(Block(rec, EmergencyUnavailable, error), Stop)
    case Contradicts(text) => Step(Block(rec, Contradiction, text), Stop)
    case _ =>
      var counted := CountRepeat(rec, r.digest);
      if rec.recovery.planDigest == Some(r.digest)
         && (counted.recovery.noProgress >= 2 || rec.recovery.cycles + 1 >= c.maxCycles)
      then Step(Block(counted, RepeatedPlan, ""), Stop)
      else Step(NextEpoch(counted, r), Tell(EpochBegun))
  }

  function ReplanMilestone(rec: Record, r: Replan): Record {
    if rec.recovery.attempted then Block(rec, ReplanAlreadyAttempted, "")
    else
      var counted := rec.(recovery := rec.recovery.(cycles := rec.recovery.cycles + 1, attempted := true));
      match r.answer
      case CallFails(error) => Block(counted, ReplanUnavailable, error)
      case EmergencyFails(error) => Block(counted, EmergencyUnavailable, error)
      case Contradicts(text) => Block(counted, Contradiction, text)
      case Replanned => Block(counted, SupersededByReplan, "")
      case OtherAnswer => Block(counted, NoDeterministicPlan, "")
  }

  function Escalate(c: Config, rec: Record, r: Replan): Step {
    if RecoveryIsExhausted(c, rec) then Step(Block(rec, RecoveryExhausted, ""), Stop)
    else if r.head.Some? then RecoverPr(c, rec, r)
    else Step(ReplanMilestone(rec, r), Stop)
  }

  // ---------------------------------------------------------------------------------------------
  // A pull request
  // ---------------------------------------------------------------------------------------------

  datatype FailureKind = Infrastructure(run: Option<string>) | Product | Unclassified(detail: string)

  datatype CiState = Pass | Wait(reason: string) | Fail(reason: string, kind: FailureKind)

  datatype Authority = Proven | Unproven(approved: bool, namesBaseline: bool)

  /** What a proven review comes to: an unreadable payload, an acceptance, or a rejection. */
  datatype Semantics = Invalid | Accepted(verdict: string) | Rejected(verdict: string, reason: string)

  /** The latest review run of the head by the required reviewer. `raw` is its verdict in lower case,
      `markers` are the context digests its body names, `reading` is what its body says, with the verdict
      that the payload states. */
  datatype ReviewRun = ReviewRun(
    id: Option<string>,
    finished: bool,
    raw: string,
    markers: seq<string>,
    reading: FindingLedger.Reading,
    reason: string)

  datatype MergeState = Conflicting(text: string) | Mergeable | NotMergeable(text: string)

  /** One look at an open pull request. `key` is the dispatch key of its head, reviewer and context, whose
      digest is `digest`; `scopeChanged` says that the authority of the baseline has shifted. `now` is read
      first, `recordedAt` when the attempt is recorded and `now + delay` when the review is triggered. */
  datatype PrInput = PrInput(
    head: string,
    ci: CiState,
    rerunFails: bool,
    reviewRequired: bool,
    key: string,
    digest: string,
    scopeChanged: bool,
    run: Option<ReviewRun>,
    now: int,
    recordedAt: int,
    delay: nat,
    triggerFails: bool,
    protectedPaths: bool,
    merge: MergeState,
    replan: Replan)

  function ReplanFor(i: PrInput): Replan {
    i.replan.(head := Some(i.head))
  }

  function CiCorrection(c: Config, rec: Record, i: PrInput, reason: string): Step {
    if rec.ci.authorizedFrom == Some(i.head) then
      Step(rec.(lastError := Some(CiSent(i.head, reason))), Tell(CiFixRepeated(i.head)))
    else if rec.ci.usedInEpoch >= c.maxCiRounds then
      if rec.recovery.epoch < c.maxEpochs then Escalate(c, rec, ReplanFor(i))
      else Step(Block(rec, CiBudget, reason), Stop)
    else
      Step(rec.(ci := rec.ci.(used := rec.ci.used + 1, usedInEpoch := rec.ci.usedInEpoch + 1,
                              authorizedFrom := Some(i.head)),
                lastError := Some(CiSent(i.head, reason))),
           Tell(CiFixSent(i.head)))
  }

  function InfrastructureRetry(c: Config, rec: Record, i: PrInput, run: string, reason: string): Step {
    if rec.lastError == Some(InfraRetried(i.head, run, rec.ci.infraRetries)) then Step(rec, Stop)
    else if rec.ci.infraRetries >= c.maxInfraRetries then Step(Block(rec, InfraBudget, reason), Stop)
    else if i.rerunFails then Step(rec.(lastError := Some(Message("rerun"))), Stop)
    else
      Step(rec.(ci := rec.ci.(infraRetries := rec.ci.infraRetries + 1),
                lastError := Some(InfraRetried(i.head, run, rec.ci.infraRetries + 1))),
           Tell(RerunAsked(i.head)))
  }

  function CiNotPassed(c: Config, before: Record, i: PrInput): Step
    requires i.ci != Pass
  {
    var rec := before.(status := Ci);
    match i.ci
    case Wait(reason) => Step(rec.(lastError := Some(Message(reason))), Stop)
    case Fail(reason, kind) =>
      if kind.Infrastructure? && kind.run.Some? then InfrastructureRetry(c, rec, i, kind.run.value, reason)
      else if rec.session.None? || rec.lastError == Some(CiSent(i.head, reason)) then Step(rec, Stop)
      else if kind.Unclassified? then Step(rec.(lastError := Some(Message(kind.detail))), Stop)
      else CiCorrection(c, rec, i, reason)
  }

  function Claim(rec: Record, i: PrInput): Record {
    rec.(dispatch := Dispatch(Some(i.key), Some(Claimed), Some(i.head), rec.dispatch.runId,
                              rec.dispatch.attempts + 1, 1, Some(i.recordedAt)),
         status := Review)
  }

  function ClaimAgain(rec: Record, i: PrInput): Record {
    rec.(dispatch := rec.dispatch.(triggerAttempts := rec.dispatch.triggerAttempts + 1,
      lastAttempt := Some(i.recordedAt)),
         status := Review)
  }

  /** The claim is saved, then the review is triggered, and only then does memory say so. */
  function TriggerReview(p: Progress, i: PrInput): Progress {
    Emit(Save(p), ReviewTriggered(i.key, i.now + i.delay)).(rec := AfterTrigger(p.rec, i.triggerFails))
  }

  function AfterTrigger(rec: Record, fails: bool): Record {
    if fails then rec.(dispatch := rec.dispatch.(state := Some(Unknown)), lastError := Some(Message("trigger")))
    else rec.(dispatch := rec.dispatch.(state := Some(Triggered)))
  }

  function WithRun(rec: Record, i: PrInput, run: ReviewRun): Record {
    rec.(dispatch := rec.dispatch.(key := Some(i.key), sha := Some(i.head), runId := run.id))
  }

  function ForgetVerdict(rec: Record): Record {
    rec.(review := rec.review.(verdict := None, sha := None))
  }

  function Processed(rec: Record, head: string, verdict: string): Record {
    rec.(review := rec.review.(sha := Some(head), verdict := Some(verdict)),
         dispatch := rec.dispatch.(state := Some(Done), triggerAttempts := 0, lastAttempt := None))
  }

  predicate Approving(verdict: string) {
    verdict == "approved" || verdict == "pass"
  }

  predicate AskingForChanges(verdict: string) {
    verdict == "changes_requested" || verdict == "findings"
  }

  predicate Commenting(verdict: string) {
    verdict == "commented" || verdict == "missing"
  }

  /** A frozen baseline stands, so that this review closes it. */
  predicate InClosure(rec: Record, i: PrInput) {
    rec.ledger.baselineId.Some? && !i.scopeChanged
  }

  /** A review proves its authority by naming exactly the digest of the expected context. */
  function AuthorityOf(rec: Record, i: PrInput, run: ReviewRun): Authority {
    if !Commenting(run.raw) && run.markers == [i.digest] then Proven
    else
      Unproven(Approving(run.raw),
               InClosure(rec, i) && !Commenting(run.raw) && rec.ledger.digest.Some?
                 && rec.ledger.digest.value in run.markers)
  }

  /** What the run itself says outright goes with what its payload states. */
  function ReadingOf(run: ReviewRun): FindingLedger.Reading {
    var payload := run.reading.stated;
    run.reading.(stated :=
      if Approving(run.raw) || payload == FindingLedger.StatedApproval then FindingLedger.StatedApproval
                           else if AskingForChanges(run.raw) then FindingLedger.StatedChanges else payload)
  }

  function Judged(c: Config, rec: Record, i: PrInput, run: ReviewRun): FindingLedger.Judgement {
    FindingLedger.Judge(c.reader, InClosure(rec, i), Some(rec.ledger.findings), ReadingOf(run))
  }

  function SemanticsOf(verdict: FindingLedger.Verdict, run: ReviewRun): Semantics {
    match verdict
    case Approved => Accepted("approved")
    case ChangesRequested => Rejected("changes_requested", run.reason)
    case Raw => Rejected(if run.raw == "" then "missing" else run.raw, run.reason)
    case _ => Invalid
  }

  /** The judged ledger, and in a first review the baseline that it freezes. */
  function WithLedger(rec: Record, i: PrInput, run: ReviewRun, findings: seq<FindingLedger.Finding>): Record {
    if InClosure(rec, i) then rec.(ledger := rec.ledger.(findings := findings))
    else rec.(ledger := ReviewLedger(Some(if run.id.Some? then run.id.value else i.key), Some(i.digest), findings))
  }

  /** A rejection that was not yet answered is, while corrections are left in this epoch. */
  function ReviewRejected(c: Config, rec: Record, i: PrInput, verdict: string, reason: string): Step {
    if rec.review.usedInEpoch < c.maxReviewCycles then
      if rec.lastError == Some(ReviewSent(i.head, verdict, reason)) then Step(rec.(status := PrWaiting), Stop)
      else
        Step(rec.(review := rec.review.(usedInEpoch := rec.review.usedInEpoch + 1, used := rec.review.used + 1,
                                        authorizedFrom := Some(i.head)),
                  lastError := Some(ReviewSent(i.head, verdict, reason)), status := PrWaiting),
             SendCorrection)
    else if Approving(verdict) then Step(rec.(status := Review), Stop)
    else if rec.review.authorizedFrom == Some(i.head) then Step(rec.(status := PrWaiting), Stop)
    else Escalate(c, rec.(review := rec.review.(terminalRejection := Some(i.head))), ReplanFor(i))
  }

  function FinishedRun(c: Config, before: Record, i: PrInput, run: ReviewRun): Step {
    var rec := WithRun(before, i, run);
    match AuthorityOf(before, i, run)
    case Unproven(approved, namesBaseline) =>
      if approved && !namesBaseline then Step(Block(rec, UnprovenApproval, ""), Stop)
      else if rec.dispatch.state == Some(Triggered) && run.id.Some? then Step(rec.(status := Review), Stop)
      else Step(Claim(ForgetVerdict(rec), i), Trigger)
    case Proven =>
      var judged := Judged(c, before, i, run);
      ProvenRun(c, rec, i, SemanticsOf(judged.verdict, run), WithLedger(rec, i, run, judged.ledger))
  }

  /** `kept` is the record with the judged ledger. */
  function ProvenRun(c: Config, rec: Record, i: PrInput, semantics: Semantics, kept: Record): Step {
    match semantics
    case Invalid => Step(Claim(ForgetVerdict(rec), i), Trigger)
    case Accepted(verdict) =>
      var done := Processed(kept, i.head, verdict);
      Step(done.(review := done.review.(terminalRejection := None), blocked := None, lastError := None), GoOn)
    case Rejected(verdict, reason) =>
      ReviewRejected(c, Processed(kept, i.head, verdict), i, verdict, reason)
  }

  predicate IsClaim(state: Option<DispatchState>) {
    state == Some(Claimed) || state == Some(Unknown)
  }

  function NoRun(c: Config, rec: Record, i: PrInput): Step {
    var d := rec.dispatch;
    if d.key == Some(i.key) && d.state == Some(Triggered) then Step(rec.(status := Review), Stop)
    else if d.key == Some(i.key) && IsClaim(d.state) then
      if d.lastAttempt.Some? && i.now - d.lastAttempt.value < GRACE then Step(rec.(status := Review), Stop)
      else if d.triggerAttempts < MAX_TRIGGERS then Step(ClaimAgain(rec, i), Trigger)
      else Step(Block(rec.(dispatch := d.(state := Some(Lost))), DispatchExhausted, ""), Stop)
    else if rec.review.terminalRejection.Some? && rec.review.authorizedFrom != rec.review.terminalRejection then
      Step(Block(rec, ReviewBudget, rec.review.terminalRejection.value), Stop)
    else Step(Claim(rec.(review := rec.review.(terminalRejection := None)), i), Trigger)
  }

  /** A dispatch for another key is dropped. */
  function ForKey(rec: Record, key: string): Record {
    if rec.dispatch.key.Some? && rec.dispatch.key != Some(key) then DropAnsweredRejection(DropDispatch(rec)) else rec
  }

  function Reviewed(c: Config, before: Record, i: PrInput): Step {
    if before.session.None? then Step(Block(before, NoSession, ""), Stop)
    else
      var rec := ForKey(before, i.key);
      match i.run
      case None => NoRun(c, rec, i)
      case Some(run) =>
        if !run.finished then
          var running := WithRun(rec, i, run);
          Step(running.(dispatch := running.dispatch.(state := Some(Triggered)), status := Review), Stop)
        else FinishedRun(c, rec, i, run)
  }

  /** When the pull request is not merged. */
  function NotMerged(c: Config, rec: Record, i: PrInput): Step
    requires i.protectedPaths || !i.merge.Mergeable?
  {
    if i.protectedPaths then Step(Block(rec, ProtectedPaths, ""), Stop)
    else
      match i.merge
      case Conflicting(text) =>
        if rec.session.None? || rec.lastError == Some(MergeSent(i.head, text)) then
          Step(rec.(status := PrWaiting), Stop)
        else if rec.ci.integrationUsed >= c.maxIntegration then Escalate(c, rec, ReplanFor(i))
        else
          Step(rec.(ci := rec.ci.(integrationUsed := rec.ci.integrationUsed + 1),
                    lastError := Some(MergeSent(i.head, text)), status := PrWaiting),
               Tell(MergeUpdateSent(i.head)))
      case NotMergeable(text) => Step(rec.(status := PrWaiting, lastError := Some(Message(text))), Stop)
  }

  /** The record of a step, and the message or event that goes with it. */
  function Take(p: Progress, step: Step): Progress {
    var q := p.(rec := step.rec);
    if step.action.Tell? then Emit(q, step.action.effect) else q
  }

  function Merge(c: Config, p: Progress, i: PrInput): Progress {
    if i.protectedPaths || !i.merge.Mergeable? then Take(p, NotMerged(c, p.rec, i))
    else Emit(p, Merged(i.head)).(rec := p.rec.(status := Completed))
  }

  function HandlePr(c: Config, p: Progress, i: PrInput): Progress {
    if p.rec.status == Blocked then p
    else if i.ci != Pass then Take(p, CiNotPassed(c, p.rec, i))
    else if !i.reviewRequired then Merge(c, p, i)
    else
      var step := Reviewed(c, p.rec, i);
      var q := Take(p, step);
      match step.action
      case Trigger => TriggerReview(q, i)
      case SendCorrection => Emit(q, CorrectionSent(i.head))
      case GoOn => Merge(c, q, i)
      case _ => q
  }

  // ---------------------------------------------------------------------------------------------
  // Ticks
  // ---------------------------------------------------------------------------------------------

  /** What a tick may do to the record after reconciling it. The worker handlers appear with what they
      change, and hand no pull request over when they give up; which of these a tick does, and in which
      order, is left open. */
  datatype Work =
    | LookAtPr(input: PrInput)
    | GiveUpOnWorker(replan: Replan)
    | NudgeWorker(status: Status, problem: Option<string>)
    | RequeueWorker(evidence: string)
    | SpawnWorker(session: string, provider: Provider)
    | SpawnFails(error: string)
    | MilestoneStagnates

  function Requeued(rec: Record, evidence: string): Record {
    rec.(status := Ready, session := None, ci := CiWork(0, rec.ci.usedInEpoch, None, 0, 0),
      lastError := Some(Message(evidence)))
  }

  function DoRecord(c: Config, rec: Record, w: Work): Record
    requires !w.LookAtPr?
  {
    match w
    case GiveUpOnWorker(replan) => Escalate(c, rec, replan.(head := None)).rec
    case NudgeWorker(status, problem) =>
      rec.(status := status, lastError := if problem.Some? then Some(Message(problem.value)) else rec.lastError)
    case RequeueWorker(evidence) => Requeued(rec, evidence)
    case SpawnWorker(session, provider) => rec.(status := Starting, session := Some(session),
        provider := Some(provider))
    case SpawnFails(error) => Block(rec, SpawnFailed, error)
    case MilestoneStagnates => if rec.status == Completed then rec else Block(rec, StagnantMilestone, "")
  }

  function Do(c: Config, p: Progress, w: Work): Progress {
    if w.LookAtPr? then HandlePr(c, p, w.input)
    else Take(p, Step(DoRecord(c, p.rec, w), if w.RequeueWorker? then Tell(WorkerRequeued) else Stop))
  }

  function DoAll(c: Config, p: Progress, work: seq<Work>): Progress {
    if work == [] then p else Do(c, DoAll(c, p, work[..|work| - 1]), work[|work| - 1])
  }

  /** A tick that dies, by a crash or by an exception, makes only its first `life` effects. */
  datatype Tick = Tick(observation: Observation, work: seq<Work>, life: nat)

  function TickEffects(c: Config, disk: Record, t: Tick): seq<Effect> {
    Save(DoAll(c, Reconcile(c, disk, t.observation), t.work)).effects
  }

  function Cut(effects: seq<Effect>, life: nat): seq<Effect> {
    if |effects| <= life then effects else effects[..life] + [Crashed]
  }

  /** What is on disk after a log that began with a fresh record. */
  function DiskAfter(log: seq<Effect>): Record {
    if log == [] then FRESH
    else match log[|log| - 1] case Saved(rec) => rec case _ => DiskAfter(log[..|log| - 1])
  }

  function RunLog(c: Config, ticks: seq<Tick>): seq<Effect> {
    if ticks == [] then []
    else
      var before := RunLog(c, ticks[..|ticks| - 1]);
      before + Cut(TickEffects(c, DiskAfter(before), ticks[|ticks| - 1]), ticks[|ticks| - 1].life)
  }

  // ---------------------------------------------------------------------------------------------
  // The controller, updating the record in place
  // ---------------------------------------------------------------------------------------------

  lemma {:induction false} CutSnoc(before: seq<Effect>, effects: seq<Effect>, e: Effect, life: nat)
    ensures before + Cut(effects + [e], life)
            == if |effects| < life then before + Cut(effects, life) + [e]
               else if |effects| == life then before + Cut(effects, life) + [Crashed]
               else before + Cut(effects, life)
  {
    assert life <= |effects| ==> (effects + [e])[..life] == effects[..life];
  }

  lemma {:induction false} DiskSnoc(log: seq<Effect>, e: Effect)
    ensures DiskAfter(log + [e]) == if e.Saved? then e.record else DiskAfter(log)
  {
    assert (log + [e])[..|log|] == log;
  }

  class Controller {
    const c: Config
    var disk: Record
    var log: seq<Effect>
    var rec: Record // lost in a crash
    var life: nat
    var dead: bool

    // the tick at hand: where it began, and what it does when it is not cut short
    ghost var history: seq<Effect>
    ghost var lifetime: nat
    ghost var trace: seq<Effect>

    constructor (c: Config)
      ensures this.c == c && disk == FRESH && log == [] && disk == DiskAfter(log)
    {
      this.c, disk, log, rec, life, dead := c, FRESH, [], FRESH, 0, false;
      history, lifetime, trace := [], 0, [];
    }

    /** The log and the disk hold what the tick has done, up to its death. */
    ghost predicate Valid()
      reads this`disk, this`log, this`life, this`dead, this`history, this`lifetime, this`trace
    {
      && log == history + Cut(trace, lifetime)
      && disk == DiskAfter(log)
      && (dead <==> |trace| > lifetime)
      && (!dead ==> life == lifetime - |trace|)
    }

    ghost function Now(): Progress
      reads this`rec, this`trace
    {
      Progress(rec, trace)
    }

    /** A durable effect. A dead process runs on without any. */
    method Perform(e: Effect)
      requires Valid()
      modifies this`disk, this`log, this`life, this`dead, this`trace
      ensures Valid() && trace == old(trace) + [e]
    {
      CutSnoc(history, trace, e, lifetime);
      DiskSnoc(log, e);
      DiskSnoc(log, Crashed);
      trace := trace + [e];
      if !dead {
        if life == 0 {
          dead, log := true, log + [Crashed];
        } else {
          log, life := log + [e], life - 1;
          if e.Saved? {
            disk := e.record;
          }
        }
      }
    }

    method SaveRecord()
      requires Valid()
      modifies this`disk, this`log, this`life, this`dead, this`trace
      ensures Valid() && Now() == Save(old(Now()))
    {
      Perform(Saved(rec));
    }

    method BlockPackage(kind: ReasonKind, text: string)
      modifies this`rec
      ensures rec == Block(old(rec), kind, text)
    {
      rec := rec.(status := Blocked, blocked := Some(Reason(kind, text)));
      rec := rec.(lastError := Some(Message(text)));
    }

    method EscalateReplan(r: Replan) returns (action: Action)
      modifies this`rec
      ensures Step(rec, action) == Escalate(c, old(rec), r)
    {
      action := Stop;
      if rec.recovery.epoch >= c.maxEpochs || rec.recovery.cycles >= c.maxCycles {
        BlockPackage(RecoveryExhausted, "");
      } else if r.head.Some? {
        action := RecoverOnPr(r);
      } else if rec.recovery.attempted {
        BlockPackage(ReplanAlreadyAttempted, "");
      } else {
        rec := rec.(recovery := rec.recovery.(cycles := rec.recovery.cycles + 1, attempted := true));
        match r.answer
        case CallFails(error) => BlockPackage(ReplanUnavailable, error);
        case EmergencyFails(error) => BlockPackage(EmergencyUnavailable, error);
        case Contradicts(text) => BlockPackage(Contradiction, text);
        case Replanned => BlockPackage(SupersededByReplan, "");
        case OtherAnswer => BlockPackage(NoDeterministicPlan, "");
      }
    }

    method RecoverOnPr(r: Replan) returns (action: Action)
      modifies this`rec
      ensures Step(rec, action) == RecoverPr(c, old(rec), r)
    {
      action := Stop;
      if r.answer.CallFails? {
        BlockPackage(ReplanUnavailable, r.answer.error);
        return;
      }
      if r.answer.EmergencyFails? {
        BlockPackage(EmergencyUnavailable, r.answer.error);
        return;
      }
      if r.answer.Contradicts? {
        BlockPackage(Contradiction, r.answer.text);
        return;
      }
      if rec.recovery.planDigest == Some(r.digest) {
        rec := rec.(recovery := rec.recovery.(noProgress := rec.recovery.noProgress + 1));
        if rec.recovery.noProgress >= 2 || rec.recovery.cycles + 1 >= c.maxCycles {
          BlockPackage(RepeatedPlan, "");
          return;
        }
      } else {
        rec := rec.(recovery := rec.recovery.(noProgress := 0));
      }
      AdvanceEpoch(r);
      action := Tell(EpochBegun);
    }

    method AdvanceEpoch(r: Replan)
      modifies this`rec
      ensures rec == NextEpoch(old(rec), r)
    {
      rec := rec.(recovery := rec.recovery.(epoch := rec.recovery.epoch + 1, cycles := rec.recovery.cycles + 1,
                                            attempted := true, planDigest := Some(r.digest)));
      rec := rec.(review := rec.review.(usedInEpoch := 0, authorizedFrom := None, terminalRejection := None));
      rec := rec.(ci := rec.ci.(usedInEpoch := 0, authorizedFrom := None, infraRetries := 0));
      rec := rec.(blocked := None, lastError := None, status := PrWaiting);
      if r.provider.Some? && r.provider != rec.provider {
        rec := rec.(provider := r.provider, dispatch := rec.dispatch.(key := None, state := None));
      }
      if rec.session.Some? && r.promptFails {
        rec := rec.(lastError := Some(Message("send")));
      }
    }

    method HandleCi(i: PrInput) returns (action: Action)
      requires i.ci != Pass
      modifies this`rec
      ensures Step(rec, action) == CiNotPassed(c, old(rec), i)
    {
      action := Stop;
      rec := rec.(status := Ci);
      if i.ci.Wait? {
        rec := rec.(lastError := Some(Message(i.ci.reason)));
        return;
      }
      var reason, kind := i.ci.reason, i.ci.kind;
      if kind.Infrastructure? && kind.run.Some? {
        action := RetryInfrastructure(i, kind.run.value, reason);
        return;
      }
      if rec.session.Some? && rec.lastError != Some(CiSent(i.head, reason)) {
        if kind.Unclassified? {
          rec := rec.(lastError := Some(Message(kind.detail)));
          return;
        }
        action := CorrectCi(i, reason);
      }
    }

    method CorrectCi(i: PrInput, reason: string) returns (action: Action)
      modifies this`rec
      ensures Step(rec, action) == CiCorrection(c, old(rec), i, reason)
    {
      action := Tell(CiFixRepeated(i.head));
      if rec.ci.authorizedFrom != Some(i.head) {
        if rec.ci.usedInEpoch >= c.maxCiRounds {
          action := Stop;
          if rec.recovery.epoch < c.maxEpochs {
            action := EscalateReplan(ReplanFor(i));
          } else {
            BlockPackage(CiBudget, reason);
          }
          return;
        }
        rec := rec.(ci := rec.ci.(used := rec.ci.used + 1, usedInEpoch := rec.ci.usedInEpoch + 1));
        rec := rec.(ci := rec.ci.(authorizedFrom := Some(i.head)));
        action := Tell(CiFixSent(i.head));
      }
      rec := rec.(lastError := Some(CiSent(i.head, reason)));
    }

    method RetryInfrastructure(i: PrInput, run: string, reason: string) returns (action: Action)
      modifies this`rec
      ensures Step(rec, action) == InfrastructureRetry(c, old(rec), i, run, reason)
    {
      action := Stop;
      if rec.lastError == Some(InfraRetried(i.head, run, rec.ci.infraRetries)) {
        return;
      }
      if rec.ci.infraRetries < c.maxInfraRetries {
        if i.rerunFails {
          rec := rec.(lastError := Some(Message("rerun")));
        } else {
          rec := rec.(ci := rec.ci.(infraRetries := rec.ci.infraRetries + 1));
          rec := rec.(lastError := Some(InfraRetried(i.head, run, rec.ci.infraRetries)));
          action := Tell(RerunAsked(i.head));
        }
      } else {
        BlockPackage(InfraBudget, reason);
      }
    }

    method RejectReview(i: PrInput, verdict: string, reason: string) returns (action: Action)
      modifies this`rec
      ensures Step(rec, action) == ReviewRejected(c, old(rec), i, verdict, reason)
    {
      action := Stop;
      if rec.review.usedInEpoch < c.maxReviewCycles {
        if rec.lastError != Some(ReviewSent(i.head, verdict, reason)) {
          rec := rec.(review := rec.review.(usedInEpoch := rec.review.usedInEpoch + 1, used := rec.review.used + 1));
          rec := rec.(review := rec.review.(authorizedFrom := Some(i.head)));
          rec := rec.(lastError := Some(ReviewSent(i.head, verdict, reason)));
          action := SendCorrection;
        }
        rec := rec.(status := PrWaiting);
      } else if !Approving(verdict) && rec.review.authorizedFrom == Some(i.head) {
        rec := rec.(status := PrWaiting);
      } else if !Approving(verdict) {
        rec := rec.(review := rec.review.(terminalRejection := Some(i.head)));
        action := EscalateReplan(ReplanFor(i));
      } else {
        rec := rec.(status := Review);
      }
    }

    method ClaimReview(i: PrInput)
      modifies this`rec
      ensures rec == Claim(old(rec), i)
    {
      rec := rec.(dispatch := rec.dispatch.(key := Some(i.key), state := Some(Claimed), sha := Some(i.head)));
      rec := rec.(dispatch := rec.dispatch.(triggerAttempts := 1, lastAttempt := Some(i.recordedAt)));
      rec := rec.(dispatch := rec.dispatch.(attempts := rec.dispatch.attempts + 1), status := Review);
    }

    method HandleFinishedRun(i: PrInput, run: ReviewRun) returns (action: Action)
      modifies this`rec
      ensures Step(rec, action) == FinishedRun(c, old(rec), i, run)
    {
      var authority := AuthorityOf(rec, i, run);
      rec := rec.(dispatch := rec.dispatch.(key := Some(i.key), sha := Some(i.head), runId := run.id));
      action := Stop;
      if authority.Unproven? {
        if authority.approved && !authority.namesBaseline {
          BlockPackage(UnprovenApproval, "");
        } else if rec.dispatch.state == Some(Triggered) && run.id.Some? {
          rec := rec.(status := Review);
        } else {
          rec := rec.(review := rec.review.(verdict := None, sha := None));
          ClaimReview(i);
          action := Trigger;
        }
        return;
      }
      var judged := FindingLedger.EvaluateReview(c.reader, InClosure(rec, i), Some(rec.ledger.findings),
          ReadingOf(run));
      action := HandleProvenRun(i, run, SemanticsOf(judged.verdict, run), judged.ledger);
    }

    method HandleProvenRun(i: PrInput, run: ReviewRun, semantics: Semantics, findings: seq<FindingLedger.Finding>)
      returns (action: Action)
      modifies this`rec
      ensures Step(rec, action) == ProvenRun(c, old(rec), i, semantics, WithLedger(old(rec), i, run, findings))
    {
      if semantics.Invalid? {
        rec := rec.(review := rec.review.(verdict := None, sha := None));
        ClaimReview(i);
        return Trigger;
      }
      if !InClosure(rec, i) {
        var id := if run.id.Some? then run.id.value else i.key;
        rec := rec.(ledger := rec.ledger.(baselineId := Some(id), digest := Some(i.digest)));
      }
      rec := rec.(ledger := rec.ledger.(findings := findings));
      rec := rec.(review := rec.review.(sha := Some(i.head), verdict := Some(semantics.verdict)));
      rec := rec.(dispatch := rec.dispatch.(state := Some(Done), triggerAttempts := 0, lastAttempt := None));
      if semantics.Accepted? {
        rec := rec.(review := rec.review.(terminalRejection := None), blocked := None, lastError := None);
        return GoOn;
      }
      action := RejectReview(i, semantics.verdict, semantics.reason);
    }

    method HandleNoRun(i: PrInput) returns (action: Action)
      modifies this`rec
      ensures Step(rec, action) == NoRun(c, old(rec), i)
    {
      action := Stop;
      var d := rec.dispatch;
      if d.key == Some(i.key) && d.state == Some(Triggered) {
        rec := rec.(status := Review);
      } else if d.key == Some(i.key) && IsClaim(d.state) {
        if d.lastAttempt.Some? && i.now - d.lastAttempt.value < GRACE {
          rec := rec.(status := Review);
        } else if d.triggerAttempts < MAX_TRIGGERS {
          rec := rec.(dispatch := d.(triggerAttempts := d.triggerAttempts + 1));
          rec := rec.(dispatch := rec.dispatch.(lastAttempt := Some(i.recordedAt)), status := Review);
          action := Trigger;
        } else {
          rec := rec.(dispatch := d.(state := Some(Lost)));
          BlockPackage(DispatchExhausted, "");
        }
      } else {
        if rec.review.terminalRejection.Some? {
          if rec.review.authorizedFrom == rec.review.terminalRejection {
            rec := rec.(review := rec.review.(terminalRejection := None));
          } else {
            BlockPackage(ReviewBudget, rec.review.terminalRejection.value);
            return;
          }
        }
        ClaimReview(i);
        action := Trigger;
      }
    }

    method HandleReview(i: PrInput) returns (action: Action)
      modifies this`rec
      ensures Step(rec, action) == Reviewed(c, old(rec), i)
    {
      if rec.session.None? {
        BlockPackage(NoSession, "");
        return Stop;
      }
      if rec.dispatch.key.Some? && rec.dispatch.key != Some(i.key) {
        rec := rec.(dispatch := rec.dispatch.(state := Some(Stale), triggerAttempts := 0, lastAttempt := None));
        rec := rec.(review := rec.review.(verdict := None, sha := None));
        if rec.review.terminalRejection.Some? && rec.review.authorizedFrom == rec.review.terminalRejection {
          rec := rec.(review := rec.review.(terminalRejection := None));
        }
      }
      if i.run.None? {
        action := HandleNoRun(i);
      } else if i.run.value.finished {
        action := HandleFinishedRun(i, i.run.value);
      } else {
        rec := rec.(dispatch := rec.dispatch.(key := Some(i.key), sha := Some(i.head), runId := i.run.value.id));
        rec := rec.(dispatch := rec.dispatch.(state := Some(Triggered)), status := Review);
        action := Stop;
      }
    }

    /** Claim first, then trigger. */
    method SaveAndTrigger(i: PrInput)
      requires Valid()
      modifies this`disk, this`log, this`life, this`dead, this`trace, this`rec
      ensures Valid() && Now() == TriggerReview(old(Now()), i)
    {
      ClaimAndPerform(i);
      ghost var claimed := Now();
      NoteTrigger(i.triggerFails);
      assert Now() == claimed.(rec := AfterTrigger(claimed.rec, i.triggerFails));
    }

    method ClaimAndPerform(i: PrInput)
      requires Valid()
      modifies this`disk, this`log, this`life, this`dead, this`trace
      ensures Valid() && Now() == Emit(Save(old(Now())), ReviewTriggered(i.key, i.now + i.delay))
    {
      SaveRecord();
      Perform(ReviewTriggered(i.key, i.now + i.delay));
    }

    method NoteTrigger(fails: bool)
      modifies this`rec
      ensures rec == AfterTrigger(old(rec), fails)
    {
      if fails {
        rec := rec.(dispatch := rec.dispatch.(state := Some(Unknown)));
        rec := rec.(lastError := Some(Message("trigger")));
      } else {
        rec := rec.(dispatch := rec.dispatch.(state := Some(Triggered)));
      }
    }

    method MergePr(i: PrInput)
      requires Valid()
      modifies this`disk, this`log, this`life, this`dead, this`trace, this`rec
      ensures Valid() && Now() == Merge(c, old(Now()), i)
    {
      if i.protectedPaths || !i.merge.Mergeable? {
        var action := HandleUnmerged(i);
        Announce(action);
      } else {
        Perform(Merged(i.head));
        rec := rec.(status := Completed);
      }
    }

    method HandleUnmerged(i: PrInput) returns (action: Action)
      requires i.protectedPaths || !i.merge.Mergeable?
      modifies this`rec
      ensures Step(rec, action) == NotMerged(c, old(rec), i)
    {
      action := Stop;
      if i.protectedPaths {
        BlockPackage(ProtectedPaths, "");
        return;
      }
      match i.merge
      case Conflicting(text) =>
        if rec.session.Some? && rec.lastError != Some(MergeSent(i.head, text)) {
          if rec.ci.integrationUsed >= c.maxIntegration {
            action := EscalateReplan(ReplanFor(i));
            return;
          }
          rec := rec.(ci := rec.ci.(integrationUsed := rec.ci.integrationUsed + 1),
            lastError := Some(MergeSent(i.head, text)));
          action := Tell(MergeUpdateSent(i.head));
        }
        rec := rec.(status := PrWaiting);
      case NotMergeable(text) =>
        rec := rec.(status := PrWaiting, lastError := Some(Message(text)));
    }

    /** The message or event of a step. */
    method Announce(action: Action)
      requires Valid()
      modifies this`disk, this`log, this`life, this`dead, this`trace
      ensures Valid() && Now() == Take(old(Now()), Step(rec, action))
    {
      if action.Tell? {
        Perform(action.effect);
      }
    }

    method HandlePullRequest(i: PrInput)
      requires Valid()
      modifies this`disk, this`log, this`life, this`dead, this`trace, this`rec
      ensures Valid() && Now() == HandlePr(c, old(Now()), i)
    {
      if rec.status == Blocked {
        return;
      }
      var action := GoOn;
      if i.ci != Pass {
        action := HandleCi(i);
        Announce(action);
        return;
      }
      if i.reviewRequired {
        action := HandleReview(i);
      }
      match action
      case Trigger => SaveAndTrigger(i);
      case SendCorrection => Perform(CorrectionSent(i.head));
      case GoOn => MergePr(i);
      case _ => Announce(action);
    }

    method DoWork(w: Work)
      requires Valid()
      modifies this`disk, this`log, this`life, this`dead, this`trace, this`rec
      ensures Valid() && Now() == Do(c, old(Now()), w)
    {
      match w
      case LookAtPr(input) => HandlePullRequest(input);
      case GiveUpOnWorker(replan) => var _ := EscalateReplan(replan.(head := None));
      case RequeueWorker(evidence) =>
        rec := Requeued(rec, evidence);
        Announce(Tell(WorkerRequeued));
      case _ => rec := DoRecord(c, rec, w);
    }

    method AdoptPr(o: Observation)
      requires o.openHeads != []
      modifies this`rec
      ensures rec == WithOpenPr(c, old(rec), o.openHeads[0], o)
    {
      var head := o.openHeads[0];
      rec := ApplyPr(rec, head, o.rewritten);
      if o.sessions != [] {
        rec := ApplySession(rec, o.sessions[0]);
      }
      if rec.dispatch.sha.Some? && rec.dispatch.sha != Some(head) {
        rec := DropDispatch(rec);
      }
      if rec.review.terminalRejection != Some(head) {
        rec := DropAnsweredRejection(rec);
      }
      var triggered := rec.dispatch.state == Some(Triggered) && rec.dispatch.sha == Some(head);
      rec := rec.(status := if triggered then Review else PrWaiting);
      if rec.blocked.Some? && ClearedByPr(c, rec.blocked.value) && rec.review.terminalRejection.None? {
        rec := rec.(blocked := None, lastError := None);
      }
    }

    method PlaceRecord(o: Observation)
      modifies this`rec
      ensures rec == Placed(c, old(rec), o)
    {
      if |o.openHeads| > 1 || |o.sessions| > 1 {
        rec := rec.(status := Blocked, blocked := Some(Reason(DuplicateWork, "")));
      } else if o.mergedHead.Some? {
        rec := ApplyPr(rec, o.mergedHead.value, o.rewritten);
        rec := rec.(status := Completed, blocked := None, lastError := None);
      } else if o.openHeads != [] {
        AdoptPr(o);
      } else if o.sessions != [] {
        rec := WithSession(c, rec, o.sessions[0], o.sessions[0].status);
      } else if OwnTerminal(rec, o.terminal).Some? {
        rec := WithSession(c, rec, OwnTerminal(rec, o.terminal).value, Failed);
      } else if o.terminal != [] {
        rec := rec.(status := Blocked, blocked := Some(Reason(ForeignSession, "")));
      } else if o.branchExists {
        rec := rec.(status := Blocked, blocked := Some(Reason(OrphanBranch, "")));
      } else if rec.status != Blocked {
        rec := rec.(status := if o.issue && o.dependenciesDone then Ready else Planned);
        if o.issue {
          rec := rec.(blocked := None);
        }
      }
    }

    method ReconcileRecord(o: Observation)
      requires Valid() && trace == []
      modifies this`disk, this`log, this`life, this`dead, this`trace, this`rec
      ensures Valid() && Now() == Reconcile(c, old(disk), o)
    {
      rec := Loaded(disk);
      if IsReset(c, rec, o) {
        Perform(LegacyReconciled);
        rec := LegacyReset(rec);
      } else if o.mergedHead.None? && rec.recovery.attempted && rec.recovery.cycles == 0 {
        rec := rec.(recovery := rec.recovery.(cycles := 1));
      }
      PlaceRecord(o);
      SaveRecord();
    }

    method DoAllWork(work: seq<Work>)
      requires Valid()
      modifies this`disk, this`log, this`life, this`dead, this`trace, this`rec
      ensures Valid() && Now() == DoAll(c, old(Now()), work)
    {
      assert work[..0] == [];
      for k := 0 to |work|
        invariant Valid() && Now() == DoAll(c, old(Now()), work[..k])
      {
        assert work[..k + 1][..k] == work[..k];
        DoWork(work[k]);
      }
      assert work[..|work|] == work;
    }

    /** One tick that dies after `t.life` effects, if it makes more. */
    method RunTick(t: Tick)
      requires disk == DiskAfter(log)
      modifies this
      ensures disk == DiskAfter(log)
      ensures log == old(log) + Cut(TickEffects(c, old(disk), t), t.life)
    {
      history, lifetime, trace := log, t.life, [];
      life, dead := t.life, false;
      assert Cut([], t.life) == [] && log + [] == log;
      ReconcileRecord(t.observation);
      DoAllWork(t.work);
      SaveRecord();
    }
  }
}
