/** Where the package controller does less than its own words promise: a dispatch given up is triggered
    again, and a rewritten head is merged. Each comes with the exact condition, and the first with a run
    from a fresh record. */
module PackageLimits {
  import opened Text
  import opened PackageController
  import opened PackageRuns
  import FindingLedger

  // ---------------------------------------------------------------------------------------------
  // When a look triggers a review
  // ---------------------------------------------------------------------------------------------

  /** Nothing stands against a new claim: there is no terminal rejection, or it has been answered. */
  predicate MayClaim(rec: Record) {
    rec.review.terminalRejection.None? || rec.review.authorizedFrom == rec.review.terminalRejection
  }

  predicate TriggersWithoutRun(rec: Record, i: PrInput) {
    var d := rec.dispatch;
    if d.key == Some(i.key) && d.state == Some(Triggered) then false
    else if d.key == Some(i.key) && IsClaim(d.state) then
      d.triggerAttempts < 2 && (d.lastAttempt.Some? ==> i.now - d.lastAttempt.value >= 30_000_000)
    else MayClaim(rec)
  }

  /** A finished review is asked for again when it does not prove its authority, unless it approves or its
      dispatch counts as under way, and when the ledger cannot read it. */
  predicate TriggersAfterRun(c: Config, rec: Record, i: PrInput, run: ReviewRun) {
    match AuthorityOf(rec, i, run)
    case Proven => Judged(c, rec, i, run).verdict in {FindingLedger.Contradiction, FindingLedger.PayloadInvalid}
    case Unproven(approved, namesBaseline) =>
      && (approved ==> namesBaseline)
      && !(rec.dispatch.state == Some(Triggered) && rec.dispatch.key in {None, Some(i.key)} && run.id.Some?)
  }

  predicate LookTriggers(c: Config, rec: Record, i: PrInput) {
    && rec.status != Blocked && i.ci == Pass && i.reviewRequired && rec.session.Some?
    && match i.run
       case None => TriggersWithoutRun(rec, i)
       case Some(run) => run.finished && TriggersAfterRun(c, rec, i, run)
  }

  lemma {:induction false} ReviewedTriggers(c: Config, rec: Record, i: PrInput)
    requires rec.session.Some?
    ensures Reviewed(c, rec, i).action.Trigger? <==>
              match i.run
              case None => TriggersWithoutRun(rec, i)
              case Some(run) => run.finished && TriggersAfterRun(c, rec, i, run)
  {
    var plain := ForKey(rec, i.key);
    if i.run.None? {
      NoRunTriggers(c, rec, i);
    } else if i.run.value.finished {
      FinishedTriggers(c, plain, i, i.run.value);
      assert plain.ledger == rec.ledger;
      assert AuthorityOf(plain, i, i.run.value) == AuthorityOf(rec, i, i.run.value);
      assert Judged(c, plain, i, i.run.value) == Judged(c, rec, i, i.run.value);
    }
  }

  lemma {:induction false} NoRunTriggers(c: Config, rec: Record, i: PrInput)
    ensures NoRun(c, ForKey(rec, i.key), i).action.Trigger? <==> TriggersWithoutRun(rec, i)
  {
  }

  lemma {:induction false} FinishedTriggers(c: Config, rec: Record, i: PrInput, run: ReviewRun)
    ensures FinishedRun(c, rec, i, run).action.Trigger?
            <==> match AuthorityOf(rec, i, run)
                 case Proven =>
                   Judged(c, rec, i, run).verdict in {FindingLedger.Contradiction, FindingLedger.PayloadInvalid}
                 case Unproven(approved, namesBaseline) =>
                   (approved ==> namesBaseline) && !(rec.dispatch.state == Some(Triggered) && run.id.Some?)
  {
    var judged, running := Judged(c, rec, i, run), WithRun(rec, i, run);
    RunTriggers(c, running, i, SemanticsOf(judged.verdict, run), WithLedger(running, i, run, judged.ledger));
  }

  lemma {:induction false} RunTriggers(c: Config, rec: Record, i: PrInput, semantics: Semantics, kept: Record)
    ensures ProvenRun(c, rec, i, semantics, kept).action.Trigger? <==> semantics.Invalid?
  {
    if semantics.Rejected? {
      var done := Processed(kept, i.head, semantics.verdict);
      EscalateSays(c, done.(review := done.review.(terminalRejection := Some(i.head))), ReplanFor(i));
    }
  }

  /** A look triggers exactly then, and what it adds to the effects is the save of the claim and the
      trigger. */
  lemma {:induction false} LookTriggersExactlyWhen(c: Config, p: Progress, i: PrInput)
    ensures var after := HandlePr(c, p, i).effects;
            && p.effects <= after
            && (ReviewTriggered(i.key, i.now + i.delay) in after[|p.effects|..] <==> LookTriggers(c, p.rec, i))
  {
    LookAdds(c, p, i);
    NewsTriggers(c, p.rec, i);
  }

  lemma {:induction false} NewsTriggers(c: Config, rec: Record, i: PrInput)
    ensures ReviewTriggered(i.key, i.now + i.delay) in News(c, rec, i) <==> LookTriggers(c, rec, i)
  {
    OnlyReviewTriggers(c, rec, i);
    if rec.session.Some? {
      ReviewedTriggers(c, rec, i);
    }
  }

  lemma {:induction false} OnlyReviewTriggers(c: Config, rec: Record, i: PrInput)
    ensures ReviewTriggered(i.key, i.now + i.delay) in News(c, rec, i)
            <==> rec.status != Blocked && i.ci == Pass && i.reviewRequired && Reviewed(c, rec, i).action.Trigger?
  {
    if i.ci != Pass {
      CiSays(c, rec, i);
    } else if !i.reviewRequired {
      MergeSays(c, rec, i);
    } else {
      ReviewSays(c, rec, i);
      MergeSays(c, Reviewed(c, rec, i).rec, i);
    }
  }

  lemma {:induction false} OneLook(c: Config, disk: Record, o: Observation, i: PrInput, life: nat)
    ensures TickEffects(c, disk, Tick(o, [LookAtPr(i)], life)) == Save(HandlePr(c, Reconcile(c, disk, o), i)).effects
  {
    var start := Reconcile(c, disk, o);
    var work := [LookAtPr(i)];
    assert work[..0] == [];
    assert DoAll(c, start, work) == HandlePr(c, start, i);
  }

  /** The same for a whole tick with one look. */
  lemma {:induction false} TickTriggersExactlyWhen(c: Config, disk: Record, o: Observation, i: PrInput)
    ensures ReviewTriggered(i.key, i.now + i.delay) in TickEffects(c, disk, Tick(o, [LookAtPr(i)], 0))
            <==> LookTriggers(c, Reconcile(c, disk, o).rec, i)
  {
    var start := Reconcile(c, disk, o);
    var trigger := ReviewTriggered(i.key, i.now + i.delay);
    OneLook(c, disk, o, i, 0);
    LookTriggersExactlyWhen(c, start, i);
    var after := HandlePr(c, start, i).effects;
    assert after == start.effects + after[|start.effects|..];
    assert trigger !in start.effects;
  }

  lemma {:induction false} AttachedKeeps(rec: Record, head: string, o: Observation)
    ensures var attached := Attached(rec, head, o);
            && attached.dispatch == rec.dispatch && (MayClaim(attached) <==> MayClaim(rec))
            && (attached.session.Some? <==> rec.session.Some? || o.sessions != [])
  {
  }

  lemma {:induction false} ForHeadKeeps(rec: Record, head: string)
    ensures var current := ForHead(rec, head);
            && current.dispatch.key == rec.dispatch.key && current.dispatch.state in {rec.dispatch.state, Some(Stale)}
            && (MayClaim(current) <==> MayClaim(rec)) && current.session == rec.session
  {
  }

  lemma {:induction false} ShownKeeps(c: Config, rec: Record, head: string)
    ensures var shown := Shown(c, rec, head);
            && shown.dispatch == rec.dispatch && shown.session == rec.session && shown.review == rec.review
            && shown.status != Blocked
  {
  }

  lemma {:induction false} UnlegaciedKeeps(c: Config, rec: Record, o: Observation)
    ensures var plain := Unlegacied(c, Loaded(rec), o);
            && plain.dispatch == rec.dispatch && plain.session == rec.session && (MayClaim(plain) <==> MayClaim(rec))
  {
  }

  /** What reconciling one open pull request leaves of a record: it is never blocked unless there are two
      sessions, whatever it was blocked for. */
  lemma {:induction false} OnePrReconciled(c: Config, disk: Record, o: Observation, head: string)
    requires o.mergedHead.None? && o.openHeads == [head]
    ensures var rec := Reconcile(c, disk, o).rec;
            && (rec.status != Blocked <==> |o.sessions| <= 1)
            && (|o.sessions| <= 1 ==>
                  && (rec.session.Some? <==> disk.session.Some? || o.sessions != [])
                  && rec.dispatch.key == disk.dispatch.key
                  && rec.dispatch.state in {disk.dispatch.state, Some(Stale)}
                  && (MayClaim(rec) <==> MayClaim(disk)))
  {
    var plain := Unlegacied(c, Loaded(disk), o);
    UnlegaciedKeeps(c, disk, o);
    AttachedKeeps(plain, head, o);
    ForHeadKeeps(Attached(plain, head, o), head);
    ShownKeeps(c, ForHead(Attached(plain, head, o), head), head);
  }

  /** A dispatch given up after two triggers is claimed and triggered again by the next look at its open
      pull request without a run, exactly when nothing but the give-up stands against a review. */
  lemma {:induction false} GivenUpDispatchIsTriggeredAgain(c: Config, disk: Record, o: Observation, i: PrInput)
    requires disk.dispatch.state == Some(Lost) && disk.dispatch.key == Some(i.key)
    requires o.mergedHead.None? && o.openHeads == [i.head] && i.run.None?
    ensures ReviewTriggered(i.key, i.now + i.delay) in TickEffects(c, disk, Tick(o, [LookAtPr(i)], 0))
            <==> && |o.sessions| <= 1 && (disk.session.Some? || o.sessions != [])
                 && i.ci == Pass && i.reviewRequired && MayClaim(disk)
  {
    OnePrReconciled(c, disk, o, i.head);
    TickTriggersExactlyWhen(c, disk, o, i);
  }

  // ---------------------------------------------------------------------------------------------
  // Where reconciling puts a record
  // ---------------------------------------------------------------------------------------------

  /** Nothing of the package is there but, perhaps, its issue. */
  predicate NothingThere(o: Observation) {
    && o.mergedHead.None? && o.openHeads == [] && o.sessions == [] && o.terminal == [] && !o.branchExists
  }

  /** More than one pull request or session. */
  predicate Ambiguous(o: Observation) {
    |o.openHeads| > 1 || |o.sessions| > 1
  }

  /** A package without work of its own is ready exactly with its issue and all its dependencies done, and
      planned otherwise; a block of it is left alone. */
  lemma {:induction false} NewPackageIsReadyExactlyWhen(c: Config, rec: Record, o: Observation)
    requires NothingThere(o)
    ensures var after := Placed(c, rec, o);
            && (rec.status == Blocked ==> after == rec)
            && (rec.status != Blocked ==>
                  && (after.status == Ready <==> o.issue && o.dependenciesDone)
                  && (after.status == Planned <==> !(o.issue && o.dependenciesDone))
                  && after.blocked == if o.issue then None else rec.blocked)
  {
    NoTerminal(rec);
  }

  lemma {:induction false} NoTerminal(rec: Record)
    ensures OwnTerminal(rec, []).None?
  {
  }

  /** What is there decides before the issue does: an ambiguous package, a foreign terminated session and an
      orphaned branch block it, a merge completes it, and a session, live or terminated, of its own is
      attached. */
  lemma {:induction false} ExistingWorkDecides(c: Config, rec: Record, o: Observation)
    ensures var after := Placed(c, rec, o);
            && (Ambiguous(o) ==> after.status == Blocked && after.blocked == Some(Reason(DuplicateWork, "")))
            && (!Ambiguous(o) && o.mergedHead.Some? ==>
                  after.status == Completed && after.blocked.None? && after.lastError.None?)
            && (!Ambiguous(o) && o.mergedHead.None? && o.openHeads == [] ==>
                  && (o.sessions != [] ==>
                        after.session == Some(o.sessions[0].id) && after.status == o.sessions[0].status)
                  && (o.sessions == [] && o.terminal != [] ==>
                        if exists s :: s in o.terminal && rec.session == Some(s.id)
                        then after.status == Failed && after.session == rec.session
                        else after.status == Blocked && after.blocked == Some(Reason(ForeignSession, "")))
                  && (o.sessions == [] && o.terminal == [] && o.branchExists ==>
                        after.status == Blocked && after.blocked == Some(Reason(OrphanBranch, ""))))
  {
    NoTerminal(rec);
    FirstWhereFinds(o.terminal, (s: Session) => rec.session == Some(s.id));
  }

  /** An open pull request is under review exactly if its dispatch was triggered for its very head, and waits
      otherwise. A dispatch for another head is stale, and what was said of that head is forgotten. */
  lemma {:induction false} OpenPrDecides(c: Config, rec: Record, o: Observation)
    requires !Ambiguous(o) && o.mergedHead.None? && o.openHeads != []
    ensures var after, head := Placed(c, rec, o), o.openHeads[0];
            var another := rec.dispatch.sha.Some? && rec.dispatch.sha != Some(head);
            && (after.status == Review <==> rec.dispatch.state == Some(Triggered) && rec.dispatch.sha == Some(head))
            && (after.status == PrWaiting <==> after.status != Review)
            && after.dispatch.attempts == rec.dispatch.attempts && after.dispatch.key == rec.dispatch.key
            && (another ==> && after.dispatch.state == Some(Stale) && after.dispatch.triggerAttempts == 0
                            && after.review.verdict.None? && after.review.sha.None?)
            && (!another ==> after.dispatch == rec.dispatch)
            && (rec.head.Some? && rec.head != Some(head) && !o.rewritten ==>
                  after.head == Some(head) && after.review.verdict.None? && after.review.sha.None?)
            && (o.sessions != [] ==> after.session == Some(o.sessions[0].id))
            && (o.sessions == [] ==> after.session == rec.session)
  {
    var head := o.openHeads[0];
    AttachedToPr(rec, head, o);
    KeptForHead(Attached(rec, head, o), head);
    ShownKeeps(c, ForHead(Attached(rec, head, o), head), head);
  }

  lemma {:induction false} AttachedToPr(rec: Record, head: string, o: Observation)
    ensures var attached := Attached(rec, head, o);
            && attached.dispatch == rec.dispatch
            && attached.session == (if o.sessions != [] then Some(o.sessions[0].id) else rec.session)
            && (rec.head.Some? && rec.head != Some(head) && !o.rewritten ==>
                  attached.head == Some(head) && attached.review.verdict.None? && attached.review.sha.None?)
  {
  }

  lemma {:induction false} KeptForHead(rec: Record, head: string)
    ensures var current := ForHead(rec, head);
            var another := rec.dispatch.sha.Some? && rec.dispatch.sha != Some(head);
            && current.session == rec.session && current.head == rec.head
            && (another ==> && current.dispatch == rec.dispatch.(state := Some(Stale), triggerAttempts := 0,
                                                                 lastAttempt := None)
                            && current.review.verdict.None? && current.review.sha.None?)
            && (!another ==> && current.dispatch == rec.dispatch && current.review.verdict == rec.review.verdict
                             && current.review.sha == rec.review.sha)
  {
  }

  // ---------------------------------------------------------------------------------------------
  // When a look merges
  // ---------------------------------------------------------------------------------------------

  /** A look merges exactly when it approves. */
  lemma {:induction false} LookMergesExactlyWhen(c: Config, p: Progress, i: PrInput)
    ensures var after := HandlePr(c, p, i).effects;
            p.effects <= after && (Merged(i.head) in after[|p.effects|..] <==> Merges(c, p.rec, i, i.head))
  {
    LookAdds(c, p, i);
    NewsMerges(c, p.rec, i);
  }

  lemma {:induction false} NewsMerges(c: Config, rec: Record, i: PrInput)
    ensures Merged(i.head) in News(c, rec, i) <==> Merges(c, rec, i, i.head)
  {
    if i.ci != Pass {
      CiSays(c, rec, i);
    } else if !i.reviewRequired {
      MergeNewsMerges(c, rec, i);
    } else {
      ReviewSays(c, rec, i);
      GoesOnExactlyWhen(c, rec, i);
      MergeNewsMerges(c, Reviewed(c, rec, i).rec, i);
      if Reviewed(c, rec, i).action.GoOn? {
        ReviewGoesOn(c, rec, i);
      }
    }
  }

  lemma {:induction false} MergeNewsMerges(c: Config, rec: Record, i: PrInput)
    ensures Merged(i.head) in MergeNews(c, rec, i) <==> !i.protectedPaths && i.merge == Mergeable
  {
    if i.protectedPaths || !i.merge.Mergeable? {
      UnmergedSays(c, rec, i);
    }
  }

  /** The review that a look needs for a merge: finished, naming exactly the expected context, and acceptable
      for the ledger. */
  ghost predicate Approves(c: Config, rec: Record, i: PrInput) {
    && i.run.Some? && i.run.value.finished
    && i.run.value.raw !in {"commented", "missing"} && i.run.value.markers == [i.digest]
    && Acceptable(c, rec, i, i.run.value)
  }

  lemma {:induction false} LedgerIsReconciled(c: Config, disk: Record, o: Observation)
    ensures Reconcile(c, disk, o).rec.ledger == disk.ledger
  {
    assert Unlegacied(c, Loaded(disk), o).ledger == disk.ledger;
    LedgerIsPlaced(c, Unlegacied(c, Loaded(disk), o), o);
  }

  lemma {:induction false} LedgerIsPlaced(c: Config, rec: Record, o: Observation)
    ensures Placed(c, rec, o).ledger == rec.ledger
  {
    if o.openHeads != [] {
      var attached := Attached(rec, o.openHeads[0], o);
      assert attached.ledger == rec.ledger && ForHead(attached, o.openHeads[0]).ledger == rec.ledger;
    }
  }

  lemma {:induction false} MergesByLedger(c: Config, rec: Record, disk: Record, i: PrInput)
    requires rec.ledger == disk.ledger
    ensures Merges(c, rec, i, i.head)
            <==> && rec.status != Blocked && i.ci == Pass && !i.protectedPaths && i.merge == Mergeable
                 && (i.reviewRequired ==> rec.session.Some? && Approves(c, disk, i))
  {
    if i.reviewRequired && rec.session.Some? && Approves(c, disk, i) {
      assert Acceptable(c, rec, i, i.run.value);
      GoesOnExactlyWhen(c, rec, i);
      ReviewGoesOn(c, rec, i);
    }
  }

  /** A pull request whose head was rewritten is blocked to preserve the work, and then not: reconciling
      goes on to the status of an open pull request, so that the same tick merges it exactly when it would
      have merged any other. */
  lemma {:induction false} RewrittenHeadIsMerged(c: Config, disk: Record, o: Observation, i: PrInput)
    requires o.mergedHead.None? && o.openHeads == [i.head] && o.rewritten
    requires disk.head.Some? && disk.head != Some(i.head)
    ensures ApplyPr(disk, i.head, o.rewritten).status == Blocked
    ensures Merged(i.head) in TickEffects(c, disk, Tick(o, [LookAtPr(i)], 0))
            <==> && |o.sessions| <= 1 && i.ci == Pass && !i.protectedPaths && i.merge == Mergeable
                 && (i.reviewRequired ==> (disk.session.Some? || o.sessions != []) && Approves(c, disk, i))
  {
    var start := Reconcile(c, disk, o);
    OnePrReconciled(c, disk, o, i.head);
    LedgerIsReconciled(c, disk, o);
    MergesByLedger(c, start.rec, disk, i);
    TickMergesExactlyWhen(c, disk, o, i);
  }

  lemma {:induction false} TickMergesExactlyWhen(c: Config, disk: Record, o: Observation, i: PrInput)
    ensures Merged(i.head) in TickEffects(c, disk, Tick(o, [LookAtPr(i)], 0))
            <==> Merges(c, Reconcile(c, disk, o).rec, i, i.head)
  {
    var start := Reconcile(c, disk, o);
    OneLook(c, disk, o, i, 0);
    LookMergesExactlyWhen(c, start, i);
    var after := HandlePr(c, start, i).effects;
    assert after == start.effects + after[|start.effects|..];
    assert Merged(i.head) !in start.effects;
  }

  // ---------------------------------------------------------------------------------------------
  // A run that triggers one key three times
  // ---------------------------------------------------------------------------------------------

  /** An open pull request, and the review it asks for. */
  datatype Pr = Pr(head: string, key: string, digest: string, session: string)

  function Seen(q: Pr): Observation {
    Observation(None, [q.head], false, [Session(q.session, None, Active)], [], false, true, true)
  }

  const NO_REPLAN := Replan(None, OtherAnswer, "", None, false)

  /** A look at the green pull request that asks for its review and cannot trigger it. */
  function LookAt(q: Pr, now: int): PrInput {
    PrInput(q.head, Pass, false, true, q.key, q.digest, false, None, now, now, 0, true, false, Mergeable, NO_REPLAN)
  }

  function TickAt(q: Pr, now: int): Tick {
    Tick(Seen(q), [LookAtPr(LookAt(q, now))], 9)
  }

  /** A record of that pull request that no rejection stands against. */
  predicate OnPr(q: Pr, rec: Record) {
    && rec.head in {None, Some(q.head)} && rec.dispatch.sha in {None, Some(q.head)}
    && rec.review.terminalRejection.None?
  }

  lemma {:induction false} TriggersConcat(a: seq<Effect>, b: seq<Effect>, key: string)
    ensures KeyTriggers(a + b, key) == KeyTriggers(a, key) + KeyTriggers(b, key)
  {
    if b == [] {
      assert a + b == a;
    } else {
      TriggersConcat(a, b[..|b| - 1], key);
      assert (a + b)[..|a + b| - 1] == a + b[..|b| - 1];
    }
  }

  lemma {:induction false} ReconciledOnPr(q: Pr, c: Config, disk: Record)
    requires OnPr(q, disk)
    ensures var start := Reconcile(c, disk, Seen(q));
            && OnPr(q, start.rec) && start.rec.dispatch == disk.dispatch && start.rec.session.Some?
            && start.rec.status != Blocked
            && |start.effects| <= 2 && KeyTriggers(start.effects, q.key) == 0
  {
    var start, plain := Reconcile(c, disk, Seen(q)), Unlegacied(c, Loaded(disk), Seen(q));
    assert OnPr(q, plain) && plain.dispatch == disk.dispatch;
    OpenedOnPr(q, c, plain);
    assert start.rec == WithOpenPr(c, plain, q.head, Seen(q));
    StartTriggersNothing(c, disk, Seen(q), q.key);
  }

  lemma {:induction false} OpenedOnPr(q: Pr, c: Config, plain: Record)
    requires OnPr(q, plain)
    ensures var shown := WithOpenPr(c, plain, q.head, Seen(q));
            && OnPr(q, shown) && shown.dispatch == plain.dispatch && shown.session.Some?
            && shown.status != Blocked
  {
    var attached := Attached(plain, q.head, Seen(q));
    assert OnPr(q, attached) && attached.dispatch == plain.dispatch && attached.session.Some?;
    assert ForHead(attached, q.head) == attached;
  }

  lemma {:induction false} StartTriggersNothing(c: Config, disk: Record, o: Observation, key: string)
    ensures var start := Reconcile(c, disk, o);
            |start.effects| <= 2 && KeyTriggers(start.effects, key) == 0
  {
    var start := Reconcile(c, disk, o);
    assert start.effects == [Saved(start.rec)] || start.effects == [LegacyReconciled, Saved(start.rec)];
    assert KeyTriggers([Saved(start.rec)], key) == 0 by { assert [Saved(start.rec)][..0] == []; }
    var both := [LegacyReconciled, Saved(start.rec)];
    assert both[..1] == [LegacyReconciled] && [LegacyReconciled][..0] == [];
    assert KeyTriggers(both, key) == 0;
  }

  /** What a tick makes of a dispatch: a fresh or given-up key is claimed, a claim is triggered once more
      or, after two triggers, given up. */
  predicate Turned(q: Pr, d: Dispatch, e: Dispatch, now: int) {
    && e.key == Some(q.key)
    && if d.state == Some(Unknown) && d.triggerAttempts >= MAX_TRIGGERS then e.state == Some(Lost)
       else && e.state == Some(Unknown) && e.lastAttempt == Some(now)
            && e.triggerAttempts == if d.state == Some(Unknown) then d.triggerAttempts + 1 else 1
  }

  function TurnTriggers(d: Dispatch): nat {
    if d.state == Some(Unknown) && d.triggerAttempts >= MAX_TRIGGERS then 0 else 1
  }

  /** A dispatch that a tick at this time turns. */
  predicate Turns(q: Pr, d: Dispatch, now: int) {
    || (d.key in {None, Some(q.key)} && d.state in {None, Some(Lost)})
    || (d.key == Some(q.key) && d.state == Some(Unknown) && d.lastAttempt.Some? && now - d.lastAttempt.value >= GRACE)
  }

  lemma {:induction false} NoRunTurns(q: Pr, c: Config, rec: Record, now: int)
    requires OnPr(q, rec) && Turns(q, rec.dispatch, now)
    ensures var step := NoRun(c, rec, LookAt(q, now));
            && OnPr(q, step.rec) && (step.action.Trigger? <==> TurnTriggers(rec.dispatch) == 1)
            && (step.action.Trigger? ==> OnPr(q, AfterTrigger(step.rec, true))
                                         && Turned(q, rec.dispatch, AfterTrigger(step.rec, true).dispatch, now))
            && (!step.action.Trigger? ==> step.action.Stop? && Turned(q, rec.dispatch, step.rec.dispatch, now))
  {
  }

  /** Such a look saves what it claims before it triggers. */
  lemma {:induction false} LookTurns(q: Pr, c: Config, start: Progress, now: int)
    requires OnPr(q, start.rec) && start.rec.session.Some? && start.rec.status != Blocked
    requires Turns(q, start.rec.dispatch, now)
    ensures var rec := NoRun(c, start.rec, LookAt(q, now)).rec;
            Save(HandlePr(c, start, LookAt(q, now))).effects
            == if TurnTriggers(start.rec.dispatch) == 0 then start.effects + [Saved(rec)]
               else start.effects + [Saved(rec)] + [ReviewTriggered(q.key, now)] + [Saved(AfterTrigger(rec, true))]
  {
    NoRunTurns(q, c, start.rec, now);
    assert ForKey(start.rec, q.key) == start.rec;
    assert Reviewed(c, start.rec, LookAt(q, now)) == NoRun(c, start.rec, LookAt(q, now));
  }

  /** The effects of such a tick. */
  lemma {:induction false} TickTurns(
    q: Pr, c: Config, disk: Record, now: int)
    returns (before: seq<Effect>, after: Record)
    requires OnPr(q, disk) && Turns(q, disk.dispatch, now)
    ensures OnPr(q, after) && Turned(q, disk.dispatch, after.dispatch, now) && |before| < 9
    ensures TickEffects(c, disk, TickAt(q, now)) == before + [Saved(after)]
    ensures KeyTriggers(before, q.key) == TurnTriggers(disk.dispatch)
  {
    var start := Reconcile(c, disk, Seen(q));
    ReconciledOnPr(q, c, disk);
    OneLook(c, disk, Seen(q), LookAt(q, now), 9);
    LookTurns(q, c, start, now);
    before, after := TurnEffects(q, c, start, now, TickEffects(c, disk, TickAt(q, now)));
  }

  lemma {:induction false} TurnEffects(q: Pr, c: Config, start: Progress, now: int, all: seq<Effect>)
    returns (before: seq<Effect>, after: Record)
    requires OnPr(q, start.rec) && Turns(q, start.rec.dispatch, now)
    requires |start.effects| <= 2 && KeyTriggers(start.effects, q.key) == 0
    requires var rec := NoRun(c, start.rec, LookAt(q, now)).rec;
             all == if TurnTriggers(start.rec.dispatch) == 0 then start.effects + [Saved(rec)]
                    else start.effects + [Saved(rec)] + [ReviewTriggered(q.key, now)] + [Saved(AfterTrigger(rec, true))]
    ensures OnPr(q, after) && Turned(q, start.rec.dispatch, after.dispatch, now) && |before| < 9
    ensures all == before + [Saved(after)] && KeyTriggers(before, q.key) == TurnTriggers(start.rec.dispatch)
  {
    NoRunTurns(q, c, start.rec, now);
    var rec := NoRun(c, start.rec, LookAt(q, now)).rec;
    if TurnTriggers(start.rec.dispatch) == 0 {
      before, after := start.effects, rec;
    } else {
      before, after := start.effects + [Saved(rec)] + [ReviewTriggered(q.key, now)], AfterTrigger(rec, true);
      TriggersSnoc(q, start.effects, Saved(rec));
      TriggersSnoc(q, start.effects + [Saved(rec)], ReviewTriggered(q.key, now));
    }
  }

  lemma {:induction false} TriggersSnoc(q: Pr, log: seq<Effect>, e: Effect)
    ensures KeyTriggers(log + [e], q.key)
            == KeyTriggers(log, q.key) + (if e.ReviewTriggered? && e.key == q.key then 1 else 0)
  {
    assert (log + [e])[..|log|] == log;
  }

  lemma {:induction false} OneMoreTick(c: Config, ticks: seq<Tick>, t: Tick)
    ensures var log := RunLog(c, ticks);
            RunLog(c, ticks + [t]) == log + Cut(TickEffects(c, DiskAfter(log), t), t.life)
  {
    assert (ticks + [t])[..|ticks|] == ticks;
  }

  /** The next tick of a run. */
  lemma {:induction false} RunTurns(q: Pr, c: Config, ticks: seq<Tick>, now: int)
    requires var disk := DiskAfter(RunLog(c, ticks)); OnPr(q, disk) && Turns(q, disk.dispatch, now)
    ensures var log, next := RunLog(c, ticks), RunLog(c, ticks + [TickAt(q, now)]);
            && OnPr(q, DiskAfter(next)) && Turned(q, DiskAfter(log).dispatch, DiskAfter(next).dispatch, now)
            && KeyTriggers(next, q.key) == KeyTriggers(log, q.key) + TurnTriggers(DiskAfter(log).dispatch)
  {
    var log := RunLog(c, ticks);
    var before, after := TickTurns(q, c, DiskAfter(log), now);
    OneMoreTick(c, ticks, TickAt(q, now));
    AppendTurn(q, log, before, after);
  }

  lemma {:induction false} AppendTurn(q: Pr, log: seq<Effect>, before: seq<Effect>, after: Record)
    ensures DiskAfter(log + (before + [Saved(after)])) == after
    ensures KeyTriggers(log + (before + [Saved(after)]), q.key) == KeyTriggers(log, q.key) + KeyTriggers(before, q.key)
  {
    assert log + (before + [Saved(after)]) == log + before + [Saved(after)];
    TriggersConcat(log, before, q.key);
    TriggersSnoc(q, log + before, Saved(after));
    DiskSnoc(log + before, Saved(after));
  }

  /** Ticks half a minute apart. */
  function HalfMinutes(q: Pr, n: nat): seq<Tick> {
    seq(n, k => TickAt(q, k * GRACE))
  }

  /** Where the key stands after `n` such ticks. */
  predicate Phase(q: Pr, n: nat, disk: Record, triggers: nat) {
    && triggers == n - n / 3
    && OnPr(q, disk) && disk.dispatch.key == (if n == 0 then None else Some(q.key))
    && if n % 3 == 0 then disk.dispatch.state == (if n == 0 then None else Some(Lost))
       else && disk.dispatch.state == Some(Unknown) && disk.dispatch.triggerAttempts == n % 3
            && disk.dispatch.lastAttempt == Some((n - 1) * GRACE)
  }

  lemma {:induction false} PhaseTurns(q: Pr, n: nat, disk: Record, triggers: nat, after: Record)
    requires Phase(q, n, disk, triggers) && OnPr(q, after) && Turned(q, disk.dispatch, after.dispatch, n * GRACE)
    ensures Phase(q, n + 1, after, triggers + TurnTriggers(disk.dispatch))
  {
  }

  predicate PhaseAfter(q: Pr, n: nat, log: seq<Effect>) {
    Phase(q, n, DiskAfter(log), KeyTriggers(log, q.key))
  }

  lemma {:induction false} PhaseOfNextTick(q: Pr, c: Config, ticks: seq<Tick>, next: seq<Tick>, n: nat)
    requires PhaseAfter(q, n, RunLog(c, ticks)) && next == ticks + [TickAt(q, n * GRACE)]
    ensures PhaseAfter(q, n + 1, RunLog(c, next))
  {
    var log := RunLog(c, ticks);
    PhaseAllowsTurn(q, n, DiskAfter(log), KeyTriggers(log, q.key));
    RunTurns(q, c, ticks, n * GRACE);
    PhaseTurns(q, n, DiskAfter(log), KeyTriggers(log, q.key), DiskAfter(RunLog(c, next)));
  }

  lemma {:induction false} HalfMinutesGrow(q: Pr, n: nat)
    ensures HalfMinutes(q, n + 1) == HalfMinutes(q, n) + [TickAt(q, n * GRACE)]
  {
  }

  lemma {:induction false} PhaseAllowsTurn(q: Pr, n: nat, disk: Record, triggers: nat)
    requires Phase(q, n, disk, triggers)
    ensures OnPr(q, disk) && Turns(q, disk.dispatch, n * GRACE)
  {
  }

  lemma {:induction false} PhaseOfRun(q: Pr, c: Config, n: nat)
    ensures PhaseAfter(q, n, RunLog(c, HalfMinutes(q, n)))
  {
    if n == 0 {
      PhaseAtStart(q, c);
    } else {
      PhaseOfRun(q, c, n - 1);
      PhaseStep(q, c, n - 1, n);
    }
  }

  lemma {:induction false} PhaseStep(q: Pr, c: Config, m: nat, n: nat)
    requires n == m + 1 && PhaseAfter(q, m, RunLog(c, HalfMinutes(q, m)))
    ensures PhaseAfter(q, n, RunLog(c, HalfMinutes(q, n)))
  {
    HalfMinutesGrow(q, m);
    PhaseOfNextTick(q, c, HalfMinutes(q, m), HalfMinutes(q, n), m);
  }

  lemma {:induction false} PhaseAtStart(q: Pr, c: Config)
    ensures PhaseAfter(q, 0, RunLog(c, HalfMinutes(q, 0)))
  {
    assert RunLog(c, []) == [];
  }

  /** From a fresh record, ticks half a minute apart trigger one key in two ticks out of three, without
      end: three times in four ticks. */
  lemma {:induction false} OneKeyIsTriggeredForever(q: Pr, c: Config, n: nat)
    ensures KeyTriggers(RunLog(c, HalfMinutes(q, n)), q.key) == n - n / 3
  {
    PhaseOfRun(q, c, n);
  }

  lemma {:induction false} ThreeTriggersOfOneKey(q: Pr, c: Config)
    ensures KeyTriggers(RunLog(c, HalfMinutes(q, 4)), q.key) == 3
  {
    OneKeyIsTriggeredForever(q, c, 4);
  }
}
