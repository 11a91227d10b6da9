/** The pure reducer of the second controller: one work item and what was observed in, the next work
    item and the commands to run out. */
module Reducer {
  import opened Text

  datatype Status = Planned | Ready | Implementing | PrOpen | CiWait | ProductFix | ReviewBaselineWait | ReviewFix
                  | ReviewVerifyWait | MergeReady | Merging | Complete | Recovery | HumanRequired

  datatype WorkItem = WorkItem(
    workId: string,
    gapKey: string,
    status: Status,
    issueNumber: Option<int>,
    branch: Option<string>,
    prNumber: Option<int>,
    sessionId: Option<string>,
    headSha: Option<string>)

  datatype PrState = OpenPr | ClosedPr | MergedPr

  datatype PrObservation = PrObservation(pr: int, headSha: string, state: PrState, mergeable: bool)

  datatype Classification = Product | Infrastructure | Unclassified

  datatype CiObservation = CiObservation(pr: int, head: string, passed: bool, classification: Classification,
      hasEvidence: bool)

  datatype ReviewMode = Baseline | Verify | OtherMode

  datatype Verdict = Pass | ChangesRequested | OtherVerdict

  datatype ReviewObservation = ReviewObservation(
    workId: string,
    targetHead: string,
    mode: ReviewMode,
    reviewScopeId: string,
    contextDigest: string,
    verdict: Verdict,
    blockingFindings: seq<string>,
    malformed: bool)

  datatype Observations = Observations(
    prs: seq<PrObservation>, ci: seq<CiObservation>, reviews: seq<ReviewObservation>)

  /** The two payloads of a product correction are two cases here. */
  datatype CommandType =
    | CreateIssue(gapKey: string)
    | StartWorker(branch: string)
    | SendCiCorrection(head: string)
    | SendReviewCorrection(findings: seq<string>)
    | TriggerReview(mode: ReviewMode, head: string)
    | RetryCiInfra(head: string)
    | MergePr(pr: int, mergedHead: string)

  datatype Command = Command(workId: string, stateVersion: int, commandType: CommandType)

  datatype Step = Step(work: WorkItem, commands: seq<Command>)

  /** What the caller fixes for one call. */
  datatype Authority = Authority(reviewScope: Option<string>, reviewDigest: Option<string>, stateVersion: int)

  // ---------------------------------------------------------------------------------------------
  // The step
  // ---------------------------------------------------------------------------------------------

  /** Present and not the empty text. */
  predicate Given(text: Option<string>) {
    text.Some? && text.value != ""
  }

  function PrOf(work: WorkItem, obs: Observations): Option<PrObservation> {
    FirstWhere(obs.prs, (p: PrObservation) => Some(p.pr) == work.prNumber)
  }

  function CiOf(pr: int, head: string, obs: Observations): Option<CiObservation> {
    LastWhere(obs.ci, (c: CiObservation) => c.pr == pr && Lower(c.head) == Lower(head))
  }

  function ReviewOf(workId: string, obs: Observations): Option<ReviewObservation> {
    LastWhere(obs.reviews, (r: ReviewObservation) => r.workId == workId)
  }

  /** The item with the head moved to the one observed on its pull request. */
  function AtObservedHead(work: WorkItem, obs: Observations): WorkItem {
    match PrOf(work, obs)
    case None => work
    case Some(p) => if p.headSha != "" && work.headSha != Some(Lower(p.headSha))
                    then work.(headSha := Some(Lower(p.headSha))) else work
  }

  /** The CI evidence looked up in the waiting and fixing states. */
  function CiForHead(work: WorkItem, obs: Observations): Option<CiObservation> {
    var next := AtObservedHead(work, obs);
    if Given(next.headSha)
    then CiOf(if next.prNumber.Some? then next.prNumber.value else 0, next.headSha.value, obs)
    else None
  }

  predicate Stale(rev: ReviewObservation, next: WorkItem, auth: Authority) {
    || (Given(next.headSha) && Lower(rev.targetHead) != Lower(next.headSha.value))
    || (Given(auth.reviewScope) && rev.reviewScopeId != auth.reviewScope.value)
    || (Given(auth.reviewDigest) && rev.contextDigest != auth.reviewDigest.value)
  }

  function Reduce(work: WorkItem, obs: Observations, auth: Authority): Step {
    if work.status == Planned then Step(work.(status := Ready), [])
    else if work.status == Ready && work.issueNumber.None? then
      Emit(work, CreateIssue(work.gapKey), auth)
    else if work.status == Implementing && work.sessionId.None? && work.issueNumber.Some? then
      Emit(work, StartWorker(if Given(work.branch) then work.branch.value else "work/" + work.gapKey), auth)
    else
      var next := AtObservedHead(work, obs);
      var ci := CiForHead(work, obs);
      if work.status in {CiWait, ProductFix, PrOpen, ReviewFix} && ci.Some?
          && !(work.status == PrOpen && Passing(ci.value)) then
        ReduceCi(work.status, next, ci.value, auth)
      else
        ReduceReviewAndMerge(work.status, next, obs, auth)
  }

  function Emit(work: WorkItem, commandType: CommandType, auth: Authority): Step {
    Step(work, [Command(work.workId, auth.stateVersion, commandType)])
  }

  predicate Passing(ci: CiObservation) {
    ci.hasEvidence && ci.passed
  }

  function ReduceCi(status: Status, next: WorkItem, ci: CiObservation, auth: Authority): Step
    requires next.headSha.Some?
  {
    var head := next.headSha.value;
    if Passing(ci) then
      if status == ReviewFix then Emit(next.(status := ReviewVerifyWait), TriggerReview(Verify, head), auth)
      else Emit(next.(status := ReviewBaselineWait), TriggerReview(Baseline, head), auth)
    else if !ci.hasEvidence || ci.classification == Unclassified then Step(next, [])
    else if ci.classification == Infrastructure then Emit(next, RetryCiInfra(head), auth)
    else if next.status == ProductFix then Step(next, [])
    else Emit(next.(status := ProductFix), SendCiCorrection(head), auth)
  }

  function ReduceReviewAndMerge(status: Status, next: WorkItem, obs: Observations, auth: Authority): Step {
    var rev := ReviewOf(next.workId, obs);
    if status in {ReviewBaselineWait, ReviewVerifyWait} then
      if rev.None? || rev.value.malformed || Stale(rev.value, next, auth) then Step(next, [])
      else if rev.value.mode != (if status == ReviewBaselineWait then Baseline else Verify) then Step(next, [])
      else
        match rev.value.verdict
        case Pass => Step(next.(status := MergeReady), [])
        case ChangesRequested =>
          Emit(next.(status := ReviewFix), SendReviewCorrection(rev.value.blockingFindings), auth)
        case OtherVerdict => Step(next, [])
    else
      var pr := PrOf(next, obs);
      if status == PrOpen && pr.Some? && pr.value.state == OpenPr then Step(next.(status := CiWait), [])
      else if status == MergeReady && Mergeable(next, obs) then
        Emit(next.(status := Merging), MergePr(next.prNumber.value, next.headSha.value), auth)
      else Step(next, [])
  }

  /** The evidence a merge needs, all of it for the item's exact head. */
  predicate Mergeable(next: WorkItem, obs: Observations) {
    && Given(next.headSha) && next.prNumber.Some? && next.prNumber.value != 0
    && var pr, ci, rev :=
       PrOf(next, obs), CiOf(next.prNumber.value, next.headSha.value, obs), ReviewOf(next.workId, obs);
    && pr.Some? && pr.value.state == OpenPr && pr.value.mergeable
    && ci.Some? && Passing(ci.value) && ci.value.classification != Unclassified
    && rev.Some? && !rev.value.malformed && rev.value.verdict == Pass && rev.value.mode == Verify
    && Lower(rev.value.targetHead) == Lower(next.headSha.value)
  }

  // ---------------------------------------------------------------------------------------------
  // Merging
  // ---------------------------------------------------------------------------------------------

  predicate IsMerge(c: Command) {
    c.commandType.MergePr?
  }

  /** The item has been handed to the merge, or is past it. */
  predicate Entered(work: WorkItem) {
    work.status in {Merging, Complete}
  }

  function Merges(commands: seq<Command>): nat {
    if commands == [] then 0 else (if IsMerge(commands[0]) then 1 else 0) + Merges(commands[1..])
  }

  /** A merge command is emitted exactly by the step that enters MERGING, once, for the item's own
      pull request and head; nothing is emitted for an item that has entered, and it stays entered. */
  lemma {:induction false} MergeIsTheStepIntoMerging(work: WorkItem, obs: Observations, auth: Authority)
    ensures var step := Reduce(work, obs, auth);
            && Merges(step.commands) == (if step.work.status == Merging && work.status != Merging then 1 else 0)
            && (Merges(step.commands) == 1 ==>
                  && work.status == MergeReady && step.work.prNumber == work.prNumber && step.work.headSha.Some?
                  && step.commands == [Command(work.workId, auth.stateVersion,
                                               MergePr(work.prNumber.value, step.work.headSha.value))])
            && (Entered(work) ==> Entered(step.work) && step.commands == [])
  {
    var next := AtObservedHead(work, obs);
    var ci := CiForHead(work, obs);
    if ci.Some? && work.status in {CiWait, ProductFix, PrOpen, ReviewFix} {
      CiStepNeverMerges(work.status, next, ci.value, auth);
    }
    LateStepMerges(work.status, next, obs, auth);
    var step := Reduce(work, obs, auth);
    if step.commands != [] {
      MergesOfOne(step.commands[0]);
    }
  }

  lemma {:induction false} CiStepNeverMerges(status: Status, next: WorkItem, ci: CiObservation, auth: Authority)
    requires next.headSha.Some? && next.status == status && status in {CiWait, ProductFix, PrOpen, ReviewFix}
    ensures var step := ReduceCi(status, next, ci, auth);
            !Entered(step.work) && Merges(step.commands) == 0
  {
    var step := ReduceCi(status, next, ci, auth);
    if step.commands != [] {
      MergesOfOne(step.commands[0]);
    }
  }

  lemma {:induction false} LateStepMerges(status: Status, next: WorkItem, obs: Observations, auth: Authority)
    requires next.status == status
    ensures var step := ReduceReviewAndMerge(status, next, obs, auth);
            && Merges(step.commands) == (if step.work.status == Merging && status != Merging then 1 else 0)
            && (step.work.status == Merging && status != Merging ==>
                  && status == MergeReady && next.headSha.Some? && next.prNumber.Some?
                  && step == Emit(next.(status := Merging), MergePr(next.prNumber.value, next.headSha.value), auth))
            && (Entered(next) ==> Entered(step.work) && step.commands == [])
  {
    var step := ReduceReviewAndMerge(status, next, obs, auth);
    if step.commands != [] {
      MergesOfOne(step.commands[0]);
    }
  }

  lemma {:induction false} MergesOfOne(c: Command)
    ensures Merges([c]) == if IsMerge(c) then 1 else 0
  {
    assert [c][1..] == [];
  }

  /** The evidence behind an emitted merge, among the observations of that very step: an open mergeable
      pull request, passing classified CI, and a well-formed VERIFY PASS review, all for the merged head. */
  lemma {:induction false} MergeSeesEvidence(work: WorkItem, obs: Observations, auth: Authority)
    returns (pr: PrObservation, ci: CiObservation, rev: ReviewObservation)
    requires Merges(Reduce(work, obs, auth).commands) > 0
    ensures var merged := Reduce(work, obs, auth).work.headSha;
            && merged.Some?
            && var head := merged.value;
            && pr in obs.prs && Some(pr.pr) == work.prNumber && pr.state == OpenPr && pr.mergeable
            && (pr.headSha != "" ==> head == Lower(pr.headSha))
            && ci in obs.ci && ci.pr == pr.pr && Lower(ci.head) == Lower(head)
            && ci.hasEvidence && ci.passed && ci.classification != Unclassified
            && rev in obs.reviews && rev.workId == work.workId && Lower(rev.targetHead) == Lower(head)
            && !rev.malformed && rev.mode == Verify && rev.verdict == Pass
  {
    MergeIsTheStepIntoMerging(work, obs, auth);
    var next := AtObservedHead(work, obs);
    assert Mergeable(next, obs);
    var isPr := (p: PrObservation) => Some(p.pr) == work.prNumber;
    var head := next.headSha.value;
    var isCi := (c: CiObservation) => c.pr == next.prNumber.value && Lower(c.head) == Lower(head);
    var isRev := (r: ReviewObservation) => r.workId == next.workId;
    FirstWhereFinds(obs.prs, isPr);
    LastWhereFinds(obs.ci, isCi);
    LastWhereFinds(obs.reviews, isRev);
    assert PrOf(work, obs) == FirstWhere(obs.prs, isPr) == PrOf(next, obs);
    assert CiOf(next.prNumber.value, head, obs) == LastWhere(obs.ci, isCi);
    assert ReviewOf(next.workId, obs) == LastWhere(obs.reviews, isRev);
    pr, ci, rev := PrOf(next, obs).value, CiOf(next.prNumber.value, head, obs).value, ReviewOf(next.workId, obs).value;
  }

  /** One step of a run: the item as the outside left it (issues, sessions, pull requests and even the
      status may have been set by the executors), then one reducer call. */
  datatype Tick = Tick(before: WorkItem, obs: Observations, auth: Authority)

  /** The outside keeps the identity and never takes an item back out of the merge. */
  ghost predicate IsRun(start: WorkItem, ticks: seq<Tick>)
    decreases |ticks|
  {
    ticks != [] ==>
      var t := ticks[0];
      && t.before.workId == start.workId
      && (Entered(start) ==> Entered(t.before))
      && IsRun(Reduce(t.before, t.obs, t.auth).work, ticks[1..])
  }

  function MergesInRun(ticks: seq<Tick>): nat {
    if ticks == [] then 0
    else Merges(Reduce(ticks[0].before, ticks[0].obs, ticks[0].auth).commands) + MergesInRun(ticks[1..])
  }

  /** Over every run at most one merge is ordered, and none once the item has entered the merge. */
  lemma {:induction false} AtMostOneMerge(start: WorkItem, ticks: seq<Tick>)
    requires IsRun(start, ticks)
    ensures MergesInRun(ticks) <= 1
    ensures Entered(start) ==> MergesInRun(ticks) == 0
    decreases |ticks|
  {
    if ticks != [] {
      var t := ticks[0];
      MergeIsTheStepIntoMerging(t.before, t.obs, t.auth);
      AtMostOneMerge(Reduce(t.before, t.obs, t.auth).work, ticks[1..]);
    }
  }

  /** A malformed review, or one of another head, scope or digest, has no effect at all: the step is the
      one that would have been taken had no review been observed. */
  lemma {:induction false} BadReviewHasNoEffect(work: WorkItem, obs: Observations, auth: Authority)
    requires work.status in {ReviewBaselineWait, ReviewVerifyWait} && ReviewOf(work.workId, obs).Some?
    requires var rev := ReviewOf(work.workId, obs).value;
             rev.malformed || Stale(rev, AtObservedHead(work, obs), auth)
    ensures Reduce(work, obs, auth) == Reduce(work, obs.(reviews := []), auth)
  {
    var none := obs.(reviews := []);
    assert PrOf(work, none) == PrOf(work, obs);
    assert ReviewOf(work.workId, none).None?;
  }

  // ---------------------------------------------------------------------------------------------
  // Where each piece of evidence leads
  // ---------------------------------------------------------------------------------------------

  /** The observation `m` is the first of the item's pull request. */
  predicate IsPrOf(work: WorkItem, obs: Observations, m: int) {
    && 0 <= m < |obs.prs| && Some(obs.prs[m].pr) == work.prNumber
    && forall j | 0 <= j < m :: Some(obs.prs[j].pr) != work.prNumber
  }

  /** The observation `k` is the last review of the item. */
  predicate IsReviewOf(work: WorkItem, obs: Observations, k: int) {
    && 0 <= k < |obs.reviews| && obs.reviews[k].workId == work.workId
    && forall j | k < j < |obs.reviews| :: obs.reviews[j].workId != work.workId
  }

  predicate IsAbout(c: CiObservation, pr: int, head: string) {
    c.pr == pr && Lower(c.head) == Lower(head)
  }

  /** The observation `n` is the last CI result of that head. */
  predicate IsCiOf(pr: int, head: string, obs: Observations, n: int) {
    && 0 <= n < |obs.ci| && IsAbout(obs.ci[n], pr, head)
    && forall j | n < j < |obs.ci| :: !IsAbout(obs.ci[j], pr, head)
  }

  lemma {:induction false} LookupsFind(work: WorkItem, obs: Observations, pr: int, head: string)
    ensures forall m | IsPrOf(work, obs, m) :: PrOf(work, obs) == Some(obs.prs[m])
    ensures forall k | IsReviewOf(work, obs, k) :: ReviewOf(work.workId, obs) == Some(obs.reviews[k])
    ensures forall n | IsCiOf(pr, head, obs, n) :: CiOf(pr, head, obs) == Some(obs.ci[n])
  {
    forall m | IsPrOf(work, obs, m) ensures PrOf(work, obs) == Some(obs.prs[m]) {
      FirstWhereIsFirst(obs.prs, (p: PrObservation) => Some(p.pr) == work.prNumber, m);
    }
    forall k | IsReviewOf(work, obs, k) ensures ReviewOf(work.workId, obs) == Some(obs.reviews[k]) {
      LastWhereIsLast(obs.reviews, (r: ReviewObservation) => r.workId == work.workId, k);
    }
    forall n | IsCiOf(pr, head, obs, n) ensures CiOf(pr, head, obs) == Some(obs.ci[n]) {
      LastWhereIsLast(obs.ci, (c: CiObservation) => c.pr == pr && Lower(c.head) == Lower(head), n);
    }
  }

  /** The item with the head of its pull request, if one was observed. */
  lemma {:induction false} HeadFollowsPr(work: WorkItem, obs: Observations, m: nat)
    requires IsPrOf(work, obs, m)
    ensures AtObservedHead(work, obs)
            == work.(headSha := if obs.prs[m].headSha != "" then Some(Lower(obs.prs[m].headSha)) else work.headSha)
  {
    LookupsFind(work, obs, 0, "");
  }

  /** The review is readable, in the mode waited for, and of the head, scope and digest at hand. */
  predicate Answers(rev: ReviewObservation, status: Status, head: Option<string>, auth: Authority) {
    && !rev.malformed
    && ((status == ReviewBaselineWait && rev.mode == Baseline) || (status == ReviewVerifyWait && rev.mode == Verify))
    && (head.Some? && head.value != "" ==> Lower(rev.targetHead) == Lower(head.value))
    && (auth.reviewScope.Some? && auth.reviewScope.value != "" ==> auth.reviewScope == Some(rev.reviewScopeId))
    && (auth.reviewDigest.Some? && auth.reviewDigest.value != "" ==> auth.reviewDigest == Some(rev.contextDigest))
  }

  /** The last review of a waiting item decides: a PASS that answers makes it ready to merge, requested
      changes send the findings of that review and wait for the fix, anything else changes nothing. */
  lemma {:induction false} ReviewDecides(work: WorkItem, obs: Observations, auth: Authority, k: nat)
    requires work.status in {ReviewBaselineWait, ReviewVerifyWait} && IsReviewOf(work, obs, k)
    ensures var next, step, rev := AtObservedHead(work, obs), Reduce(work, obs, auth), obs.reviews[k];
            var counts := Answers(rev, work.status, next.headSha, auth);
            && step.work == next.(status := step.work.status)
            && (step.work.status == MergeReady <==> counts && rev.verdict == Pass)
            && (step.work.status == ReviewFix <==> counts && rev.verdict == ChangesRequested)
            && (step.work.status in {work.status, MergeReady, ReviewFix})
            && step.commands == if step.work.status == ReviewFix
               then [Command(work.workId, auth.stateVersion, SendReviewCorrection(rev.blockingFindings))] else []
  {
    LookupsFind(work, obs, 0, "");
  }

  /** The last CI result of the head decides over an item that waits for it: a pass asks for the review, a
      VERIFY one exactly after a review fix; a product failure is sent to the worker once; a failure of the
      infrastructure is retried; without evidence or classification nothing happens. */
  lemma {:induction false} CiDecides(work: WorkItem, obs: Observations, auth: Authority, n: nat)
    requires work.status in {CiWait, ProductFix, ReviewFix} && Given(AtObservedHead(work, obs).headSha)
    requires IsCiOf(if work.prNumber.Some? then work.prNumber.value else 0,
                    AtObservedHead(work, obs).headSha.value, obs, n)
    ensures var next, step, ci := AtObservedHead(work, obs), Reduce(work, obs, auth), obs.ci[n];
            var head := next.headSha.value;
            var failed := ci.hasEvidence && !ci.passed;
            && step.work == next.(status := step.work.status)
            && (step.work.status == ReviewVerifyWait <==> ci.hasEvidence && ci.passed && work.status == ReviewFix)
            && (step.work.status == ReviewBaselineWait <==> ci.hasEvidence && ci.passed && work.status != ReviewFix)
            && (step.work.status == ProductFix
                <==> (failed && ci.classification == Product)
                     || (work.status == ProductFix && !(ci.hasEvidence && ci.passed)))
            && step.work.status in {work.status, ReviewVerifyWait, ReviewBaselineWait, ProductFix}
            && (forall c :: c in step.commands
                            <==> && c.workId == work.workId && c.stateVersion == auth.stateVersion
                                 && c.commandType in (
                                   if ci.hasEvidence && ci.passed
                                   then {TriggerReview(if work.status == ReviewFix then Verify else Baseline, head)}
                                   else if failed && ci.classification == Infrastructure then {RetryCiInfra(head)}
                                   else if failed && ci.classification == Product && work.status != ProductFix
                                   then {SendCiCorrection(head)} else {}))
            && |step.commands| <= 1
  {
    LookupsFind(work, obs, if work.prNumber.Some? then work.prNumber.value else 0,
                AtObservedHead(work, obs).headSha.value);
  }

  /** An opened item with its pull request in sight waits for CI as soon as that is open, unless a CI result of
      its head that is no pass comes first. */
  lemma {:induction false} OpenedItemDecides(work: WorkItem, obs: Observations, auth: Authority, m: nat)
    requires work.status == PrOpen && IsPrOf(work, obs, m)
    requires var ci := CiForHead(work, obs); ci.Some? ==> ci.value.hasEvidence && ci.value.passed
    ensures var step := Reduce(work, obs, auth);
            && step.commands == [] && step.work == AtObservedHead(work, obs).(status := step.work.status)
            && step.work.status == if obs.prs[m].state == OpenPr then CiWait else PrOpen
  {
    LookupsFind(work, obs, 0, "");
  }

  /** The evidence that a merge needs is also enough: an item that is ready merges exactly on an open mergeable
      pull request, a classified pass of its head and a readable VERIFY PASS of it, each the one that counts. */
  lemma {:induction false} MergesExactlyOn(work: WorkItem, obs: Observations, auth: Authority, m: nat, n: nat, k: nat)
    requires work.status == MergeReady && Given(AtObservedHead(work, obs).headSha)
    requires work.prNumber.Some? && work.prNumber.value != 0
    requires IsPrOf(work, obs, m) && IsReviewOf(work, obs, k)
    requires IsCiOf(work.prNumber.value, AtObservedHead(work, obs).headSha.value, obs, n)
    ensures var pr, ci, rev := obs.prs[m], obs.ci[n], obs.reviews[k];
            Merges(Reduce(work, obs, auth).commands) == 1
            <==> && pr.state == OpenPr && pr.mergeable
                 && ci.hasEvidence && ci.passed && ci.classification != Unclassified
                 && !rev.malformed && rev.mode == Verify && rev.verdict == Pass
                 && Lower(rev.targetHead) == Lower(AtObservedHead(work, obs).headSha.value)
  {
    var next := AtObservedHead(work, obs);
    LookupsFind(work, obs, work.prNumber.value, next.headSha.value);
    assert PrOf(next, obs) == PrOf(work, obs);
    MergeIsTheStepIntoMerging(work, obs, auth);
  }

  /** Why a BASELINE PASS alone does not lead to a merge: an item that is ready stays so, and asks for nothing,
      as long as its last review is no VERIFY one. */
  lemma {:induction false} BaselinePassWaitsForVerify(work: WorkItem, obs: Observations, auth: Authority)
    requires work.status == MergeReady
    requires forall k | IsReviewOf(work, obs, k) :: obs.reviews[k].mode != Verify
    ensures var step := Reduce(work, obs, auth);
            step.work.status == MergeReady && step.commands == []
  {
    var rev := ReviewOf(work.workId, obs);
    if rev.Some? {
      var k := ReviewIndex(work, obs);
    }
    assert AtObservedHead(work, obs).workId == work.workId;
  }

  lemma {:induction false} ReviewIndex(work: WorkItem, obs: Observations) returns (k: nat)
    requires ReviewOf(work.workId, obs).Some?
    ensures IsReviewOf(work, obs, k) && ReviewOf(work.workId, obs) == Some(obs.reviews[k])
  {
    k := LastIndex(obs.reviews, (r: ReviewObservation) => r.workId == work.workId);
  }

  // ---------------------------------------------------------------------------------------------
  // Observation order
  // ---------------------------------------------------------------------------------------------

  ghost predicate SameElements<T(!new)>(s: seq<T>, t: seq<T>) {
    forall x :: x in s <==> x in t
  }

  lemma {:induction false} LastWhereIgnoresOrder<T(!new)>(s: seq<T>, t: seq<T>, p: T -> bool)
    requires SameElements(s, t) && forall x, y | x in s && y in s && p(x) && p(y) :: x == y
    ensures LastWhere(s, p) == LastWhere(t, p)
  {
    LastWhereFinds(s, p);
    LastWhereFinds(t, p);
  }

  lemma {:induction false} FirstWhereIgnoresOrder<T(!new)>(s: seq<T>, t: seq<T>, p: T -> bool)
    requires SameElements(s, t) && forall x, y | x in s && y in s && p(x) && p(y) :: x == y
    ensures FirstWhere(s, p) == FirstWhere(t, p)
  {
    FirstWhereFinds(s, p);
    FirstWhereFinds(t, p);
  }

  /** No two different observations under one key. */
  ghost predicate DistinctKeys(obs: Observations) {
    && (forall x, y | x in obs.prs && y in obs.prs && x.pr == y.pr :: x == y)
    && (forall x, y | x in obs.ci && y in obs.ci && x.pr == y.pr && Lower(x.head) == Lower(y.head) :: x == y)
    && (forall x, y | x in obs.reviews && y in obs.reviews && x.workId == y.workId :: x == y)
  }

  ghost predicate SameObservations(a: Observations, b: Observations) {
    SameElements(a.prs, b.prs) && SameElements(a.ci, b.ci) && SameElements(a.reviews, b.reviews)
  }

  /** With distinct keys the result depends on what was observed, not on the order it was listed in. */
  lemma {:induction false} OrderDoesNotMatter(work: WorkItem, a: Observations, b: Observations, auth: Authority)
    requires DistinctKeys(a) && SameObservations(a, b)
    ensures Reduce(work, a, auth) == Reduce(work, b, auth)
  {
    LookupsAgree(a, b);
    assert AtObservedHead(work, a) == AtObservedHead(work, b);
    assert CiForHead(work, a) == CiForHead(work, b);
    LateStepAgrees(work.status, AtObservedHead(work, a), a, b, auth);
  }

  lemma {:induction false} LateStepAgrees(
    status: Status, next: WorkItem, a: Observations, b: Observations, auth: Authority)
    requires PrOf(next, a) == PrOf(next, b) && ReviewOf(next.workId, a) == ReviewOf(next.workId, b)
    requires forall pr, head :: CiOf(pr, head, a) == CiOf(pr, head, b)
    ensures ReduceReviewAndMerge(status, next, a, auth) == ReduceReviewAndMerge(status, next, b, auth)
  {
    assert Mergeable(next, a) == Mergeable(next, b);
  }

  lemma {:induction false} LookupsAgree(a: Observations, b: Observations)
    requires DistinctKeys(a) && SameObservations(a, b)
    ensures forall work :: PrOf(work, a) == PrOf(work, b)
    ensures forall pr, head :: CiOf(pr, head, a) == CiOf(pr, head, b)
    ensures forall workId :: ReviewOf(workId, a) == ReviewOf(workId, b)
  {
    forall work: WorkItem ensures PrOf(work, a) == PrOf(work, b) {
      FirstWhereIgnoresOrder(a.prs, b.prs, (p: PrObservation) => Some(p.pr) == work.prNumber);
    }
    forall pr, head ensures CiOf(pr, head, a) == CiOf(pr, head, b) {
      LastWhereIgnoresOrder(a.ci, b.ci, (c: CiObservation) => c.pr == pr && Lower(c.head) == Lower(head));
    }
    forall workId ensures ReviewOf(workId, a) == ReviewOf(workId, b) {
      LastWhereIgnoresOrder(a.reviews, b.reviews, (r: ReviewObservation) => r.workId == workId);
    }
  }

  /** Distinct keys are needed: the later of two conflicting CI results for one head wins. */
  lemma {:induction false} ConflictingEvidenceDependsOnOrder()
    ensures exists work, a, b, auth :: SameObservations(a, b) && Reduce(work, a, auth) != Reduce(work, b, auth)
  {
    var good, bad := CiObservation(1, "h", true, Product, true), CiObservation(1, "h", false, Product, true);
    var work := WorkItem("w", "g", CiWait, None, None, Some(1), None, Some("h"));
    var a, b := Observations([], [good, bad], []), Observations([], [bad, good], []);
    var auth := Authority(None, None, 0);
    assert [good, bad][..1] == [good] && [bad, good][..1] == [bad];
    assert SameObservations(a, b);
    assert Reduce(work, a, auth).work.status == ProductFix;
    assert Reduce(work, b, auth).work.status == ReviewBaselineWait;
  }

  // ---------------------------------------------------------------------------------------------
  // The published transition table
  // ---------------------------------------------------------------------------------------------

  const TABLE: set<(Status, Status)> := {
    (Planned, Ready), (Ready, Implementing), (Implementing, PrOpen), (PrOpen, CiWait), (CiWait, ReviewBaselineWait),
    (CiWait, ProductFix), (CiWait, CiWait), (ProductFix, ReviewBaselineWait), (ReviewBaselineWait, MergeReady),
    (ReviewBaselineWait, ReviewFix), (ReviewFix, ReviewVerifyWait), (ReviewVerifyWait, MergeReady),
    (ReviewVerifyWait, ReviewFix), (MergeReady, Merging), (Merging, Complete)
  }

  /** A step leaves the published table exactly when a freshly opened or review-fixing item meets a
      proven product failure of its head; it then goes to PRODUCT_FIX. */
  lemma {:induction false} TableHoldsExactly(work: WorkItem, obs: Observations, auth: Authority)
    ensures var next := Reduce(work, obs, auth).work.status;
            var ci := CiForHead(work, obs);
            next != work.status && (work.status, next) !in TABLE
            <==> work.status in {PrOpen, ReviewFix} && ci.Some? && ci.value.hasEvidence && !ci.value.passed
                 && ci.value.classification == Product
  {
    var next := AtObservedHead(work, obs);
    var ci := CiForHead(work, obs);
    assert next.status == work.status;
    if ci.Some? && work.status in {CiWait, ProductFix, PrOpen, ReviewFix} {
      assert next.headSha.Some?;
    }
  }
}
