/** From a converged milestone to the next one: the planner is claimed before it is called, its plan is
    validated before it is stored, and the old milestone is archived before the active one changes.
    Everything durable is an effect; a crash cuts the effects of a tick short anywhere. */
module MilestoneTransition {
  import opened Text
  import PlanDelta

  datatype Stage =
    | Converged | PrimaryClaimed | PrimaryFailed | FallbackClaimed
    | NextValidated | NextInstalled | TransitionBlocked

  /** What a planner returns: a plan whose schema and requirement ids are sound or not. */
  datatype Plan = Plan(id: string, packages: seq<PlanDelta.WorkPackage>, fitsSchema: bool, knownRequirements: bool)

  /** The metadata of the state file that the transition uses. */
  datatype Meta = Meta(
    milestoneId: Option<string>,
    stage: Option<Stage>,
    validatedPlan: Option<Plan>,
    converged: bool,
    convergedId: Option<string>,
    convergedHead: Option<string>,
    blocked: bool,
    blockedHead: Option<string>)

  const FRESH := Meta(None, None, None, false, None, None, false, None)

  /** What survives a crash: the metadata, the active milestone, the archive, the planner's last output. */
  datatype Disk = Disk(meta: Meta, active: Plan, archived: set<string>, plannerOutput: Option<Plan>)

  datatype Effect =
    | Saved(meta: Meta)
    | ConvergenceRecorded // the event that opens an entry to CONVERGED
    | PrimaryCalled(output: Option<Plan>)
    | FallbackCalled(output: Option<Plan>)
    | Archived(id: string)
    | Activated(plan: Plan)
    | Crashed

  datatype Verdict = ConvergedAt(head: Option<string>) | Gaps | Replanned | Unusable | Raises

  /** What one tick meets outside. `attempt` says that every package is completed and convergence is on;
      `head` is None while the integration head is not in sync; `headNow` is the head read when the
      factory is blocked; a planner output is None when the call raises or its text cannot be read. */
  datatype Input = Input(
    attempt: bool,
    head: Option<string>,
    headNow: Option<string>,
    verdict: Verdict,
    primaryBudgetLeft: bool,
    primary: Option<Plan>,
    fallback: Option<Plan>)

  ghost predicate ValidFor(plan: Plan, target: string) {
    plan.fitsSchema && PlanDelta.WellFormed(plan.packages) && plan.id == target && plan.knownRequirements
  }

  /** The id after `id` on the roadmap. */
  function NextOn(roadmap: seq<string>, id: string): Option<string> {
    if |roadmap| < 2 then None
    else if roadmap[0] == id then Some(roadmap[1])
    else NextOn(roadmap[1..], id)
  }

  function Apply(disk: Disk, e: Effect): Disk {
    match e
    case Saved(meta) => disk.(meta := meta)
    case PrimaryCalled(output) => disk.(plannerOutput := if output.Some? then output else disk.plannerOutput)
    case FallbackCalled(output) => disk.(plannerOutput := if output.Some? then output else disk.plannerOutput)
    case Archived(id) => disk.(archived := disk.archived + {id})
    case Activated(plan) => disk.(active := plan)
    case _ => disk
  }

  function Replay(disk: Disk, log: seq<Effect>): Disk {
    if log == [] then disk else Apply(Replay(disk, log[..|log| - 1]), log[|log| - 1])
  }

  // ---------------------------------------------------------------------------------------------
  // One tick as its effects
  // ---------------------------------------------------------------------------------------------

  /** A handler is going on, has returned (the tick then ends with a save), or has raised. */
  datatype Outcome = Going | Returned | Raised

  /** The metadata held in memory, the effects so far, and how the tick goes on. */
  datatype Progress = Progress(meta: Meta, effects: seq<Effect>, outcome: Outcome)

  function Emit(p: Progress, e: Effect): Progress {
    p.(effects := p.effects + [e])
  }

  function Save(p: Progress, meta: Meta): Progress {
    Emit(p.(meta := meta), Saved(meta))
  }

  function Return(p: Progress): Progress {
    p.(outcome := Returned)
  }

  function Reconciled(meta: Meta, active: Plan): Meta {
    if meta.milestoneId == None || meta.milestoneId == Some(active.id) then meta.(milestoneId := Some(active.id))
    else FRESH.(milestoneId := Some(active.id))
  }

  /** The head moved since the milestone converged or was blocked. */
  predicate HeadMoved(meta: Meta, head: string) {
    var last := if meta.convergedHead.Some? then meta.convergedHead else meta.blockedHead;
    last.Some? && last.value != head
  }

  function Blocked(meta: Meta, headNow: Option<string>): Meta {
    meta.(blocked := true, blockedHead := if headNow.Some? then headNow else meta.blockedHead)
  }

  function Installed(meta: Meta, plan: Plan): Meta {
    FRESH.(milestoneId := Some(plan.id), stage := Some(NextInstalled), blocked := meta.blocked,
      blockedHead := meta.blockedHead)
  }

  function Entered(meta: Meta, active: Plan, at: Option<string>, head: string): Meta {
    meta.(stage := Some(Converged), converged := true, convergedId := Some(active.id),
          convergedHead := if at.Some? then at else Some(head))
  }

  /** The plan a planner call yields, if it passes validation. */
  ghost function Accepted(output: Option<Plan>, target: string): Option<Plan> {
    if output.Some? && ValidFor(output.value, target) then output else None
  }

  function MoveTo(p: Progress, stage: Stage): Progress {
    Save(p, p.meta.(stage := Some(stage)))
  }

  /** What a planner call leads to; `failure` is the stage after a plan that does not pass. */
  function Concluded(p: Progress, plan: Option<Plan>, failure: Stage): Progress {
    if plan.Some? then MoveTo(p.(meta := p.meta.(validatedPlan := plan)), NextValidated) else MoveTo(p, failure)
  }

  ghost function PlanPrimary(p: Progress, target: string, input: Input): Progress {
    if p.meta.stage != None && p.meta.stage != Some(Converged) then p
    else if !input.primaryBudgetLeft then MoveTo(p, PrimaryFailed)
    else Concluded(Emit(MoveTo(p, PrimaryClaimed), PrimaryCalled(input.primary)), Accepted(input.primary, target),
        PrimaryFailed)
  }

  /** A claim found at this point was left by a crash during the call. */
  function DropClaim(p: Progress): Progress {
    if p.meta.stage == Some(PrimaryClaimed) then MoveTo(p, PrimaryFailed) else p
  }

  ghost function FallbackAsked(p: Progress, target: string, input: Input): Progress {
    var called := Emit(MoveTo(p, FallbackClaimed), FallbackCalled(input.fallback));
    Concluded(called, Accepted(input.fallback, target), TransitionBlocked)
  }

  ghost function PlanFallback(p: Progress, target: string, input: Input): Progress {
    if p.meta.stage != Some(PrimaryFailed) && p.meta.stage != Some(FallbackClaimed) then p
    else
      var asked := FallbackAsked(p, target, input);
      if Accepted(input.fallback, target).Some? then asked else Return(Save(asked, Blocked(asked.meta, input.headNow)))
  }

  function Install(p: Progress, disk: Disk, input: Input): Progress {
    if p.outcome != Going then p
    else if p.meta.stage == Some(TransitionBlocked) then Return(Save(p, Blocked(p.meta, input.headNow)))
    else if p.meta.stage != Some(NextValidated) then Return(p)
    else
      var plan := if p.meta.validatedPlan.Some? then p.meta.validatedPlan else disk.plannerOutput;
      if plan.None? then p.(outcome := Raised) else Return(Activate(p, disk, plan.value))
  }

  function Activate(p: Progress, disk: Disk, plan: Plan): Progress {
    var archived := if disk.active.id in disk.archived then p else Emit(p, Archived(disk.active.id));
    Save(Emit(archived, Activated(plan)), Installed(p.meta, plan))
  }

  ghost function Advance(p: Progress, disk: Disk, roadmap: seq<string>, input: Input): Progress {
    if disk.active.id !in roadmap then Return(Save(p, Blocked(p.meta, input.headNow)))
    else
      match NextOn(roadmap, disk.active.id)
      case None => Return(p) // the final audit
      case Some(target) => Install(PlanFallback(DropClaim(PlanPrimary(p, target, input)), target, input), disk, input)
  }

  /** The stages with which the recorded convergence is looked at again. */
  predicate InTransition(stage: Option<Stage>) {
    stage.Some? && stage.value != TransitionBlocked
  }

  function Recorded(p: Progress, disk: Disk, at: Option<string>, head: string): Progress {
    Save(Emit(p, ConvergenceRecorded), Entered(p.meta, disk.active, at, head))
  }

  ghost function Judged(p: Progress, disk: Disk, roadmap: seq<string>, input: Input, head: string): Progress {
    match input.verdict
    case Raises => p.(outcome := Raised)
    case Unusable => Return(Save(p, Blocked(p.meta, input.headNow)))
    case Replanned => Return(p.(meta := p.meta.(converged := false)))
    case Gaps => Return(Save(p, p.meta.(converged := false)))
    case ConvergedAt(at) => Advance(Recorded(p, disk, at, head), disk, roadmap, input)
  }

  ghost function Converge(p: Progress, disk: Disk, roadmap: seq<string>, input: Input, head: string): Progress {
    var q := if HeadMoved(p.meta, head) then Save(p, FRESH.(milestoneId := p.meta.milestoneId)) else p;
    if q.meta.blocked || q.meta.stage == Some(TransitionBlocked) then Return(q)
    else if (q.meta.converged || InTransition(q.meta.stage))
            && q.meta.convergedId == Some(disk.active.id) && q.meta.convergedHead == Some(head) then
      Advance(q, disk, roadmap, input)
    else
      Judged(q, disk, roadmap, input, head)
  }

  ghost function TickProgress(disk: Disk, roadmap: seq<string>, input: Input): Progress {
    var loaded := Reconciled(disk.meta, disk.active);
    var start := Progress(loaded, [Saved(loaded)], Going);
    var done := if input.attempt && input.head.Some?
                then Converge(start, disk, roadmap, input, input.head.value)
                else start;
    if done.outcome == Raised then done else Save(done, done.meta)
  }

  /** All durable effects of one tick that is not cut short. */
  ghost function Tick(disk: Disk, roadmap: seq<string>, input: Input): seq<Effect> {
    TickProgress(disk, roadmap, input).effects
  }

  /** The tick dies instead of making its effect number `life`. */
  function Cut(effects: seq<Effect>, life: nat): seq<Effect> {
    if |effects| <= life then effects else effects[..life] + [Crashed]
  }

  // ---------------------------------------------------------------------------------------------
  // The controller, updating its metadata in place
  // ---------------------------------------------------------------------------------------------

  lemma {:induction false} CutSnoc(before: seq<Effect>, effects: seq<Effect>, e: Effect, life: nat)
    ensures before + Cut(effects + [e], life)
            == if |effects| < life then before + Cut(effects, life) + [e]
               else if |effects| == life then before + Cut(effects, life) + [Crashed]
               else before + Cut(effects, life)
  {
    assert life <= |effects| ==> (effects + [e])[..life] == effects[..life];
  }

  lemma {:induction false} ReplaySnoc(disk: Disk, log: seq<Effect>, e: Effect)
    ensures Replay(disk, log + [e]) == Apply(Replay(disk, log), e)
  {
    assert (log + [e])[..|log|] == log;
  }

  class Controller {
    const roadmap: seq<string>
    ghost const origin: Disk
    var disk: Disk
    var log: seq<Effect>
    var meta: Meta // lost in a crash
    var outcome: Outcome
    var life: nat
    var dead: bool

    // the tick at hand: where it began, and what it does when it is not cut short
    ghost var history: seq<Effect>
    ghost var lifetime: nat
    ghost var trace: seq<Effect>

    constructor (roadmap: seq<string>, disk: Disk)
      ensures this.roadmap == roadmap && this.disk == disk && disk == Replay(origin, log) && log == []
    {
      this.roadmap, this.disk, origin := roadmap, disk, disk;
      log, meta, outcome, life, dead := [], disk.meta, Returned, 0, false;
      history, lifetime, trace := [], 0, [];
    }

    /** The log and the disk hold what the tick has done, up to its death. */
    ghost predicate Valid()
      reads this`disk, this`log, this`life, this`dead, this`history, this`lifetime, this`trace
    {
      && log == history + Cut(trace, lifetime)
      && disk == Replay(origin, log)
      && (dead <==> |trace| > lifetime)
      && (!dead ==> life == lifetime - |trace|)
    }

    ghost function Now(): Progress
      reads this`meta, this`trace, this`outcome
    {
      Progress(meta, trace, outcome)
    }

    /** A durable effect. A dead process runs on without any. */
    method Perform(e: Effect)
      requires Valid()
      modifies this`disk, this`log, this`life, this`dead, this`trace
      ensures Valid() && trace == old(trace) + [e]
    {
      CutSnoc(history, trace, e, lifetime);
      trace := trace + [e];
      if !dead {
        if life == 0 {
          ReplaySnoc(origin, log, Crashed);
          dead, log := true, log + [Crashed];
        } else {
          ReplaySnoc(origin, log, e);
          disk, log, life := Apply(disk, e), log + [e], life - 1;
        }
      }
    }

    method SaveMeta()
      requires Valid()
      modifies this`disk, this`log, this`life, this`dead, this`trace
      ensures Valid() && Now() == Save(old(Now()), meta)
    {
      Perform(Saved(meta));
    }

    method Enter(stage: Stage)
      requires Valid()
      modifies this`disk, this`log, this`life, this`dead, this`trace, this`meta
      ensures Valid() && Now() == MoveTo(old(Now()), stage)
    {
      meta := meta.(stage := Some(stage));
      SaveMeta();
    }

    method Validated(output: Option<Plan>, target: string) returns (plan: Option<Plan>)
      ensures plan == Accepted(output, target)
    {
      if output.None? || !output.value.fitsSchema {
        return None;
      }
      var check := PlanDelta.CheckMilestone(output.value.packages);
      if check.Err? || output.value.id != target || !output.value.knownRequirements {
        return None;
      }
      plan := output;
    }

    method BlockFactory(headNow: Option<string>)
      requires Valid()
      modifies this`disk, this`log, this`life, this`dead, this`trace, this`meta
      ensures Valid() && Now() == Save(old(Now()), Blocked(old(meta), headNow))
    {
      meta := meta.(blocked := true);
      if headNow.Some? {
        meta := meta.(blockedHead := headNow);
      }
      SaveMeta();
    }

    method TakePlan(output: Option<Plan>, target: string, failure: Stage) returns (accepted: bool)
      requires Valid()
      modifies this`disk, this`log, this`life, this`dead, this`trace, this`meta
      ensures Valid() && Now() == Concluded(old(Now()), Accepted(output, target), failure)
      ensures accepted <==> Accepted(output, target).Some?
    {
      var plan := Validated(output, target);
      accepted := plan.Some?;
      if accepted {
        meta := meta.(validatedPlan := plan);
        Enter(NextValidated);
      } else {
        Enter(failure);
      }
    }

    method CallPrimary(target: string, input: Input)
      requires Valid()
      modifies this`disk, this`log, this`life, this`dead, this`trace, this`meta
      ensures Valid() && Now() == PlanPrimary(old(Now()), target, input)
    {
      if meta.stage == None || meta.stage == Some(Converged) {
        if !input.primaryBudgetLeft {
          Enter(PrimaryFailed);
        } else {
          Enter(PrimaryClaimed);
          Perform(PrimaryCalled(input.primary));
          var _ := TakePlan(input.primary, target, PrimaryFailed);
        }
      }
    }

    method AskFallback(target: string, input: Input) returns (accepted: bool)
      requires Valid()
      modifies this`disk, this`log, this`life, this`dead, this`trace, this`meta
      ensures Valid() && Now() == FallbackAsked(old(Now()), target, input)
      ensures accepted <==> Accepted(input.fallback, target).Some?
    {
      Enter(FallbackClaimed);
      Perform(FallbackCalled(input.fallback));
      accepted := TakePlan(input.fallback, target, TransitionBlocked);
    }

    method CallFallback(target: string, input: Input)
      requires Valid()
      modifies this`disk, this`log, this`life, this`dead, this`trace, this`meta, this`outcome
      ensures Valid() && Now() == PlanFallback(old(Now()), target, input)
    {
      if meta.stage == Some(PrimaryFailed) || meta.stage == Some(FallbackClaimed) {
        var accepted := AskFallback(target, input);
        if !accepted {
          BlockFactory(input.headNow);
          outcome := Returned;
        }
      }
    }

    method InstallNext(was: Disk, input: Input)
      requires Valid()
      modifies this`disk, this`log, this`life, this`dead, this`trace, this`meta, this`outcome
      ensures Valid() && Now() == Install(old(Now()), was, input)
    {
      if outcome != Going {
        return;
      }
      outcome := Returned;
      if meta.stage == Some(TransitionBlocked) {
        BlockFactory(input.headNow);
      } else if meta.stage == Some(NextValidated) {
        var plan := if meta.validatedPlan.Some? then meta.validatedPlan else was.plannerOutput;
        if plan.None? {
          outcome := Raised;
          return;
        }
        ActivatePlan(was, plan.value);
      }
    }

    method ActivatePlan(was: Disk, plan: Plan)
      requires Valid()
      modifies this`disk, this`log, this`life, this`dead, this`trace, this`meta
      ensures Valid() && Now() == Activate(old(Now()), was, plan)
    {
      if was.active.id !in was.archived {
        Perform(Archived(was.active.id));
      }
      Perform(Activated(plan));
      meta := Installed(meta, plan);
      SaveMeta();
    }

    method AdvanceOrAudit(was: Disk, input: Input)
      requires Valid()
      modifies this`disk, this`log, this`life, this`dead, this`trace, this`meta, this`outcome
      ensures Valid() && Now() == Advance(old(Now()), was, roadmap, input)
    {
      if was.active.id !in roadmap {
        BlockFactory(input.headNow);
        outcome := Returned;
        return;
      }
      var target := NextOn(roadmap, was.active.id);
      if target.None? {
        outcome := Returned;
        return;
      }
      CallPrimary(target.value, input);
      if meta.stage == Some(PrimaryClaimed) {
        Enter(PrimaryFailed);
      }
      CallFallback(target.value, input);
      InstallNext(was, input);
    }

    method RecordConvergence(was: Disk, at: Option<string>, head: string)
      requires Valid()
      modifies this`disk, this`log, this`life, this`dead, this`trace, this`meta
      ensures Valid() && Now() == Recorded(old(Now()), was, at, head)
    {
      Perform(ConvergenceRecorded);
      meta := Entered(meta, was.active, at, head);
      SaveMeta();
    }

    method AskForVerdict(was: Disk, input: Input, head: string)
      requires Valid()
      modifies this`disk, this`log, this`life, this`dead, this`trace, this`meta, this`outcome
      requires outcome == Going
      ensures Valid() && Now() == Judged(old(Now()), was, roadmap, input, head)
    {
      outcome := Returned;
      match input.verdict {
        case Raises =>
          outcome := Raised;
        case Unusable =>
          BlockFactory(input.headNow);
        case Replanned =>
          meta := meta.(converged := false);
        case Gaps =>
          meta := meta.(converged := false);
          SaveMeta();
        case ConvergedAt(at) =>
          outcome := Going;
          RecordConvergence(was, at, head);
          AdvanceOrAudit(was, input);
      }
    }

    method ConvergeIfNeeded(was: Disk, input: Input, head: string)
      requires Valid()
      modifies this`disk, this`log, this`life, this`dead, this`trace, this`meta, this`outcome
      requires outcome == Going
      ensures Valid() && Now() == Converge(old(Now()), was, roadmap, input, head)
    {
      if HeadMoved(meta, head) {
        meta := FRESH.(milestoneId := meta.milestoneId);
        SaveMeta();
      }
      if meta.blocked || meta.stage == Some(TransitionBlocked) {
        outcome := Returned;
        return;
      }
      if (meta.converged || InTransition(meta.stage))
         && meta.convergedId == Some(was.active.id) && meta.convergedHead == Some(head) {
        AdvanceOrAudit(was, input);
        return;
      }
      AskForVerdict(was, input, head);
    }

    /** One tick that dies after `life` effects, if it makes more. */
    method RunTick(input: Input, life: nat)
      requires disk == Replay(origin, log)
      modifies this
      ensures disk == Replay(origin, log)
      ensures log == old(log) + Cut(Tick(old(disk), roadmap, input), life)
    {
      var was := disk;
      history, lifetime, trace := log, life, [];
      this.life, dead, outcome := life, false, Going;
      meta := Reconciled(disk.meta, disk.active);
      SaveMeta();
      assert Now() == Progress(meta, [Saved(meta)], Going);
      if input.attempt && input.head.Some? {
        ConvergeIfNeeded(was, input, input.head.value);
      }
      if outcome != Raised {
        SaveMeta();
      }
    }
  }

  // ---------------------------------------------------------------------------------------------
  // The protocol that every log obeys
  // ---------------------------------------------------------------------------------------------

  /** Planner calls, and deaths with FALLBACK_CLAIMED on disk, counted from the last entry to CONVERGED. */
  datatype Counts = Counts(primary: nat, fallback: nat, deaths: nat)

  const NO_COUNTS := Counts(0, 0, 0)

  function CountOne(c: Counts, disk: Disk, e: Effect): Counts {
    match e
    case ConvergenceRecorded => NO_COUNTS
    case PrimaryCalled(_) => c.(primary := c.primary + 1)
    case FallbackCalled(_) => c.(fallback := c.fallback + 1)
    case Crashed => if disk.meta.stage == Some(FallbackClaimed) then c.(deaths := c.deaths + 1) else c
    case _ => c
  }

  function CountsFrom(c: Counts, disk: Disk, log: seq<Effect>): Counts {
    if log == [] then c
    else
      var before := log[..|log| - 1];
      CountOne(CountsFrom(c, disk, before), Replay(disk, before), log[|log| - 1])
  }

  /** Where a tick stands between a claim, its call and the save of its result. */
  datatype Mode = Idle | Entering | PrimaryArmed | PrimaryDone | FallbackDone

  /** `entered` is the milestone that was active at the last entry to CONVERGED. */
  datatype State = State(disk: Disk, counts: Counts, mode: Mode, entered: Option<string>)

  /** A validated plan is one for the milestone after the one the metadata is about. */
  ghost predicate HoldsValidPlan(meta: Meta, roadmap: seq<string>) {
    && meta.validatedPlan.Some? && meta.milestoneId.Some?
    && NextOn(roadmap, meta.milestoneId.value).Some?
    && ValidFor(meta.validatedPlan.value, NextOn(roadmap, meta.milestoneId.value).value)
  }

  /** The saves the protocol permits, by the stage on disk and the one written. */
  ghost predicate LegalSave(s: State, roadmap: seq<string>, meta: Meta) {
    var was, now := s.disk.meta.stage, meta.stage;
    var same := meta.milestoneId == s.disk.meta.milestoneId;
    var validated := now == Some(NextValidated) && HoldsValidPlan(meta, roadmap);
    (now.Some? ==> if was != now && now == Some(NextInstalled) then meta.milestoneId.Some? else same) &&
    match s.mode
    case Idle =>
      || (now == None && !meta.converged)
      || (now == was && meta.validatedPlan == s.disk.meta.validatedPlan && (meta.converged ==> s.disk.meta.converged))
      || (was == Some(Converged) && now == Some(PrimaryClaimed))
      || (was in {Some(Converged), Some(PrimaryClaimed)} && now == Some(PrimaryFailed))
      || (was == Some(PrimaryFailed) && now == Some(FallbackClaimed))
      || (was == Some(NextValidated) && now == Some(NextInstalled))
    case Entering => now == Some(Converged)
    case PrimaryDone => validated || now == Some(PrimaryFailed)
    case FallbackDone => validated || now == Some(TransitionBlocked)
    case PrimaryArmed => false
  }

  ghost predicate Legal(s: State, roadmap: seq<string>, e: Effect) {
    match e
    case Saved(meta) => LegalSave(s, roadmap, meta)
    case ConvergenceRecorded => s.mode == Idle && s.disk.meta.milestoneId == Some(s.disk.active.id)
    case PrimaryCalled(_) => s.mode == PrimaryArmed
    case FallbackCalled(_) => s.mode == Idle && s.disk.meta.stage == Some(FallbackClaimed)
    case Archived(_) => s.mode == Idle
    case Activated(plan) =>
      && s.mode == Idle && s.disk.meta.stage == Some(NextValidated) && s.disk.meta.validatedPlan == Some(plan)
      && s.disk.meta.milestoneId == Some(s.disk.active.id) && s.disk.active.id in s.disk.archived
    case Crashed => true
  }

  function Next(s: State, e: Effect): State {
    State(Apply(s.disk, e), CountOne(s.counts, s.disk, e),
          match e
          case Saved(meta) =>
            if s.mode == Idle && meta.stage == Some(PrimaryClaimed) && s.disk.meta.stage == Some(Converged) then
                PrimaryArmed
            else Idle
          case ConvergenceRecorded => Entering
          case PrimaryCalled(_) => PrimaryDone
          case FallbackCalled(_) => FallbackDone
          case Crashed => Idle
          case _ => s.mode,
          if e.ConvergenceRecorded? then Some(s.disk.active.id) else s.entered)
  }

  /** What holds at every moment, in the middle of a tick or after a crash. */
  ghost predicate Inv(s: State, roadmap: seq<string>) {
    var c, stage := s.counts, s.disk.meta.stage;
    && c.primary <= 1 && c.fallback <= 1 + c.deaths
    && (stage == Some(Converged) || s.mode == Entering ==> c.primary == 0 && c.fallback == 0)
    && (stage in {Some(PrimaryClaimed), Some(PrimaryFailed)} ==> c.fallback == 0)
    && (stage == Some(FallbackClaimed) && s.mode != FallbackDone ==> c.fallback <= c.deaths)
    && (s.mode == PrimaryArmed ==> stage == Some(PrimaryClaimed) && c.primary == 0)
    && (s.mode == PrimaryDone ==> stage == Some(PrimaryClaimed))
    && (s.mode == FallbackDone ==> stage == Some(FallbackClaimed))
    && (stage == None ==> !s.disk.meta.converged)
    && (stage == Some(NextValidated) ==> HoldsValidPlan(s.disk.meta, roadmap))
    && (stage.Some? ==> s.disk.meta.milestoneId.Some?)
    && (s.mode == Entering || (InTransition(stage) && stage != Some(NextInstalled)) ==>
          s.entered.Some? && s.entered == s.disk.meta.milestoneId)
  }

  lemma {:induction false} LegalKeepsInv(s: State, roadmap: seq<string>, e: Effect)
    requires Inv(s, roadmap) && Legal(s, roadmap, e)
    ensures Inv(Next(s, e), roadmap)
  {
  }

  function After(s: State, effects: seq<Effect>): State {
    if effects == [] then s else Next(After(s, effects[..|effects| - 1]), effects[|effects| - 1])
  }

  /** From the invariant on, every effect is one the protocol permits at its moment. */
  ghost predicate Obeys(s: State, roadmap: seq<string>, effects: seq<Effect>) {
    if effects == [] then Inv(s, roadmap)
    else
      Obeys(s, roadmap, effects[..|effects| - 1])
      && Legal(After(s, effects[..|effects| - 1]), roadmap, effects[|effects| - 1])
  }

  lemma {:induction false} ObeyingKeepsInv(s: State, roadmap: seq<string>, effects: seq<Effect>)
    requires Obeys(s, roadmap, effects)
    ensures Inv(After(s, effects), roadmap)
    ensures After(s, effects).counts == CountsFrom(s.counts, s.disk, effects)
    ensures After(s, effects).disk == Replay(s.disk, effects)
  {
    if effects == [] {
    } else {
      var front, e := effects[..|effects| - 1], effects[|effects| - 1];
      ObeyingKeepsInv(s, roadmap, front);
      LegalKeepsInv(After(s, front), roadmap, e);
    }
  }

  lemma {:induction false} ObeysSnoc(s: State, roadmap: seq<string>, effects: seq<Effect>, e: Effect)
    requires Obeys(s, roadmap, effects) && Legal(After(s, effects), roadmap, e)
    ensures Obeys(s, roadmap, effects + [e]) && After(s, effects + [e]) == Next(After(s, effects), e)
  {
    assert (effects + [e])[..|effects|] == effects;
  }

  lemma {:induction false} ObeysPrefix(s: State, roadmap: seq<string>, effects: seq<Effect>, n: nat)
    requires Obeys(s, roadmap, effects) && n <= |effects|
    ensures Obeys(s, roadmap, effects[..n])
    ensures n < |effects| ==> Legal(After(s, effects[..n]), roadmap, effects[n])
  {
    if n == |effects| {
      assert effects[..n] == effects;
    } else {
      var front := effects[..|effects| - 1];
      if n < |front| {
        ObeysPrefix(s, roadmap, front, n);
        assert front[..n] == effects[..n];
      }
    }
  }

  lemma {:induction false} ObeysConcat(s: State, roadmap: seq<string>, a: seq<Effect>, b: seq<Effect>)
    requires Obeys(s, roadmap, a) && Obeys(After(s, a), roadmap, b)
    ensures Obeys(s, roadmap, a + b) && After(s, a + b) == After(After(s, a), b)
  {
    if b == [] {
      assert a + b == a;
    } else {
      var front, e := b[..|b| - 1], b[|b| - 1];
      assert a + b == a + front + [e];
      ObeysConcat(s, roadmap, a, front);
      ObeysSnoc(s, roadmap, a + front, e);
    }
  }

  // ---------------------------------------------------------------------------------------------
  // Every tick obeys it
  // ---------------------------------------------------------------------------------------------

  /** The tick has obeyed the protocol so far, and disk and memory agree on the metadata. */
  ghost predicate OnTrack(s: State, roadmap: seq<string>, p: Progress) {
    && Obeys(s, roadmap, p.effects)
    && After(s, p.effects).mode == Idle && After(s, p.effects).disk.meta == p.meta
  }

  ghost function DiskNow(s: State, p: Progress): Disk {
    After(s, p.effects).disk
  }

  lemma {:induction false} SaveObeys(s: State, roadmap: seq<string>, p: Progress, meta: Meta)
    requires Obeys(s, roadmap, p.effects) && LegalSave(After(s, p.effects), roadmap, meta)
    ensures Obeys(s, roadmap, Save(p, meta).effects)
    ensures After(s, Save(p, meta).effects) == Next(After(s, p.effects), Saved(meta))
  {
    ObeysSnoc(s, roadmap, p.effects, Saved(meta));
  }

  /** From the save of a claim to the save of what the call led to. */
  lemma {:induction false} ConcludedIsOnTrack(
    s: State, roadmap: seq<string>, p: Progress, target: string, output: Option<Plan>,
      failure: Stage)
    requires Obeys(s, roadmap, p.effects) && DiskNow(s, p).meta == p.meta
    requires p.meta.milestoneId.Some? && NextOn(roadmap, p.meta.milestoneId.value) == Some(target)
    requires var mode := After(s, p.effects).mode;
             (mode == PrimaryDone && failure == PrimaryFailed) || (mode == FallbackDone && failure == TransitionBlocked)
    ensures var q := Concluded(p, Accepted(output, target), failure);
            OnTrack(s, roadmap, q) && DiskNow(s, q) == DiskNow(s, p).(meta := q.meta)
  {
    var plan := Accepted(output, target);
    if plan.Some? {
      var meta := p.meta.(validatedPlan := plan, stage := Some(NextValidated));
      SaveObeys(s, roadmap, p, meta);
    } else {
      SaveObeys(s, roadmap, p, p.meta.(stage := Some(failure)));
    }
  }

  /** Still on track, with the same active milestone and archive, and metadata about the same milestone. */
  ghost predicate KeepsOnTrack(s: State, roadmap: seq<string>, p: Progress, q: Progress) {
    && OnTrack(s, roadmap, q) && q.meta.milestoneId == p.meta.milestoneId
    && DiskNow(s, q).active == DiskNow(s, p).active && DiskNow(s, q).archived == DiskNow(s, p).archived
  }

  lemma {:induction false} PrimaryCallObeys(s: State, roadmap: seq<string>, p: Progress, output: Option<Plan>)
    requires OnTrack(s, roadmap, p) && p.meta.stage == Some(Converged)
    ensures var called := Emit(MoveTo(p, PrimaryClaimed), PrimaryCalled(output));
            && Obeys(s, roadmap, called.effects)
            && After(s, called.effects).mode == PrimaryDone
            && DiskNow(s, called).meta == called.meta
            && DiskNow(s, called).active == DiskNow(s, p).active
            && DiskNow(s, called).archived == DiskNow(s, p).archived
  {
    var claimed := MoveTo(p, PrimaryClaimed);
    SaveObeys(s, roadmap, p, claimed.meta);
    ObeysSnoc(s, roadmap, claimed.effects, PrimaryCalled(output));
  }

  lemma {:induction false} FallbackCallObeys(s: State, roadmap: seq<string>, p: Progress, output: Option<Plan>)
    requires OnTrack(s, roadmap, p) && (p.meta.stage == Some(PrimaryFailed) || p.meta.stage == Some(FallbackClaimed))
    ensures var called := Emit(MoveTo(p, FallbackClaimed), FallbackCalled(output));
            && Obeys(s, roadmap, called.effects)
            && After(s, called.effects).mode == FallbackDone
            && DiskNow(s, called).meta == called.meta
            && DiskNow(s, called).active == DiskNow(s, p).active
            && DiskNow(s, called).archived == DiskNow(s, p).archived
  {
    var claimed := MoveTo(p, FallbackClaimed);
    SaveObeys(s, roadmap, p, claimed.meta);
    ObeysSnoc(s, roadmap, claimed.effects, FallbackCalled(output));
  }

  lemma {:induction false} PrimaryAnswerObeys(
    s: State, roadmap: seq<string>, p: Progress, target: string, output: Option<Plan>)
    requires OnTrack(s, roadmap, p) && p.meta.stage == Some(Converged)
    requires p.meta.milestoneId.Some? && NextOn(roadmap, p.meta.milestoneId.value) == Some(target)
    ensures var called := Emit(MoveTo(p, PrimaryClaimed), PrimaryCalled(output));
            KeepsOnTrack(s, roadmap, p, Concluded(called, Accepted(output, target), PrimaryFailed))
  {
    PrimaryCallObeys(s, roadmap, p, output);
    var called := Emit(MoveTo(p, PrimaryClaimed), PrimaryCalled(output));
    ConcludedIsOnTrack(s, roadmap, called, target, output, PrimaryFailed);
  }

  lemma {:induction false} PrimaryObeys(s: State, roadmap: seq<string>, p: Progress, target: string, input: Input)
    requires OnTrack(s, roadmap, p)
    requires p.meta.milestoneId.Some? && NextOn(roadmap, p.meta.milestoneId.value) == Some(target) && p.meta.stage.Some?
    ensures KeepsOnTrack(s, roadmap, p, PlanPrimary(p, target, input))
  {
    if p.meta.stage == Some(Converged) {
      if !input.primaryBudgetLeft {
        SaveObeys(s, roadmap, p, p.meta.(stage := Some(PrimaryFailed)));
      } else {
        PrimaryAnswerObeys(s, roadmap, p, target, input.primary);
      }
    }
  }

  lemma {:induction false} DropClaimObeys(s: State, roadmap: seq<string>, p: Progress)
    requires OnTrack(s, roadmap, p)
    ensures KeepsOnTrack(s, roadmap, p, DropClaim(p)) && DropClaim(p).meta.stage != Some(PrimaryClaimed)
  {
    if p.meta.stage == Some(PrimaryClaimed) {
      SaveObeys(s, roadmap, p, p.meta.(stage := Some(PrimaryFailed)));
    }
  }

  lemma {:induction false} BlockObeys(s: State, roadmap: seq<string>, p: Progress, headNow: Option<string>)
    requires OnTrack(s, roadmap, p)
    ensures KeepsOnTrack(s, roadmap, p, Save(p, Blocked(p.meta, headNow)))
  {
    SaveObeys(s, roadmap, p, Blocked(p.meta, headNow));
  }

  lemma {:induction false} FallbackObeys(s: State, roadmap: seq<string>, p: Progress, target: string, input: Input)
    requires OnTrack(s, roadmap, p)
    requires p.meta.milestoneId.Some? && NextOn(roadmap, p.meta.milestoneId.value) == Some(target)
    ensures KeepsOnTrack(s, roadmap, p, PlanFallback(p, target, input))
  {
    if p.meta.stage == Some(PrimaryFailed) || p.meta.stage == Some(FallbackClaimed) {
      FallbackCallObeys(s, roadmap, p, input.fallback);
      var called := Emit(MoveTo(p, FallbackClaimed), FallbackCalled(input.fallback));
      ConcludedIsOnTrack(s, roadmap, called, target, input.fallback, TransitionBlocked);
      BlockObeys(s, roadmap, FallbackAsked(p, target, input), input.headNow);
    }
  }

  lemma {:induction false} ArchiveObeys(s: State, roadmap: seq<string>, p: Progress, id: string)
    requires OnTrack(s, roadmap, p)
    ensures var archived := if id in DiskNow(s, p).archived then p else Emit(p, Archived(id));
            && OnTrack(s, roadmap, archived) && DiskNow(s, archived).active == DiskNow(s, p).active
            && id in DiskNow(s, archived).archived
  {
    if id !in DiskNow(s, p).archived {
      ObeysSnoc(s, roadmap, p.effects, Archived(id));
    }
  }

  lemma {:induction false} ActivateObeys(s: State, roadmap: seq<string>, p: Progress, disk: Disk, plan: Plan)
    requires OnTrack(s, roadmap, p) && p.meta.milestoneId == Some(disk.active.id)
    requires DiskNow(s, p).active == disk.active && DiskNow(s, p).archived == disk.archived
    requires p.meta.stage == Some(NextValidated) && p.meta.validatedPlan == Some(plan)
    ensures OnTrack(s, roadmap, Activate(p, disk, plan))
  {
    var archived := if disk.active.id in disk.archived then p else Emit(p, Archived(disk.active.id));
    ArchiveObeys(s, roadmap, p, disk.active.id);
    ObeysSnoc(s, roadmap, archived.effects, Activated(plan));
    SaveObeys(s, roadmap, Emit(archived, Activated(plan)), Installed(p.meta, plan));
  }

  /** `disk` was read when the tick began. */
  lemma {:induction false} InstallObeys(s: State, roadmap: seq<string>, p: Progress, disk: Disk, input: Input)
    requires OnTrack(s, roadmap, p) && p.meta.milestoneId == Some(disk.active.id)
    requires DiskNow(s, p).active == disk.active && DiskNow(s, p).archived == disk.archived
    ensures OnTrack(s, roadmap, Install(p, disk, input))
  {
    ObeyingKeepsInv(s, roadmap, p.effects);
    if p.outcome == Going && p.meta.stage == Some(TransitionBlocked) {
      BlockObeys(s, roadmap, p, input.headNow);
    } else if p.outcome == Going && p.meta.stage == Some(NextValidated) {
      ActivateObeys(s, roadmap, p, disk, p.meta.validatedPlan.value);
    }
  }

  lemma {:induction false} AdvanceObeys(s: State, roadmap: seq<string>, p: Progress, disk: Disk, input: Input)
    requires OnTrack(s, roadmap, p) && p.meta.milestoneId == Some(disk.active.id) && p.meta.stage.Some?
    requires DiskNow(s, p).active == disk.active && DiskNow(s, p).archived == disk.archived
    ensures OnTrack(s, roadmap, Advance(p, disk, roadmap, input))
  {
    var target := NextOn(roadmap, disk.active.id);
    if disk.active.id !in roadmap {
      BlockObeys(s, roadmap, p, input.headNow);
    } else if target.Some? {
      var planned := PlanPrimary(p, target.value, input);
      PrimaryObeys(s, roadmap, p, target.value, input);
      DropClaimObeys(s, roadmap, planned);
      FallbackObeys(s, roadmap, DropClaim(planned), target.value, input);
      InstallObeys(s, roadmap, PlanFallback(DropClaim(planned), target.value, input), disk, input);
    }
  }

  /** On track but for a `milestoneConverged` flag that memory has already cleared. */
  ghost predicate NearlyOnTrack(s: State, roadmap: seq<string>, p: Progress) {
    && Obeys(s, roadmap, p.effects) && After(s, p.effects).mode == Idle
    && (p.meta == DiskNow(s, p).meta || p.meta == DiskNow(s, p).meta.(converged := false))
  }

  lemma {:induction false} JudgedObeys(
    s: State, roadmap: seq<string>, p: Progress, disk: Disk, input: Input, head: string)
    requires OnTrack(s, roadmap, p) && p.meta.milestoneId == Some(disk.active.id)
    requires DiskNow(s, p).active == disk.active && DiskNow(s, p).archived == disk.archived
    ensures NearlyOnTrack(s, roadmap, Judged(p, disk, roadmap, input, head))
  {
    match input.verdict
    case Raises =>
    case Unusable => BlockObeys(s, roadmap, p, input.headNow);
    case Replanned =>
    case Gaps => SaveObeys(s, roadmap, p, p.meta.(converged := false));
    case ConvergedAt(at) =>
      ObeysSnoc(s, roadmap, p.effects, ConvergenceRecorded);
      var recorded := Recorded(p, disk, at, head);
      SaveObeys(s, roadmap, Emit(p, ConvergenceRecorded), recorded.meta);
      AdvanceObeys(s, roadmap, recorded, disk, input);
  }

  lemma {:induction false} ConvergeObeys(
    s: State, roadmap: seq<string>, p: Progress, disk: Disk, input: Input, head: string)
    requires OnTrack(s, roadmap, p) && p.meta.milestoneId == Some(disk.active.id)
    requires DiskNow(s, p).active == disk.active && DiskNow(s, p).archived == disk.archived
    ensures NearlyOnTrack(s, roadmap, Converge(p, disk, roadmap, input, head))
  {
    var q := if HeadMoved(p.meta, head) then Save(p, FRESH.(milestoneId := p.meta.milestoneId)) else p;
    if HeadMoved(p.meta, head) {
      SaveObeys(s, roadmap, p, q.meta);
    }
    ObeyingKeepsInv(s, roadmap, q.effects);
    if q.meta.stage.Some? {
      AdvanceObeys(s, roadmap, q, disk, input);
    }
    JudgedObeys(s, roadmap, q, disk, input, head);
  }

  lemma {:induction false} StartObeys(s: State, roadmap: seq<string>, loaded: Meta)
    requires Inv(s, roadmap) && s.mode == Idle && loaded == Reconciled(s.disk.meta, s.disk.active)
    ensures Obeys(s, roadmap, [Saved(loaded)]) && After(s, [Saved(loaded)]) == Next(s, Saved(loaded))
  {
    var none: seq<Effect> := [];
    assert Obeys(s, roadmap, none) && After(s, none) == s;
    ObeysSnoc(s, roadmap, none, Saved(loaded));
    assert none + [Saved(loaded)] == [Saved(loaded)];
  }

  lemma {:induction false} TickObeys(s: State, roadmap: seq<string>, input: Input)
    requires Inv(s, roadmap) && s.mode == Idle
    ensures Obeys(s, roadmap, Tick(s.disk, roadmap, input))
    ensures After(s, Tick(s.disk, roadmap, input)).mode == Idle
  {
    var disk := s.disk;
    var loaded := Reconciled(disk.meta, disk.active);
    var empty := Progress(disk.meta, [], Going);
    var start := Progress(loaded, [Saved(loaded)], Going);
    assert empty.effects + [Saved(loaded)] == [Saved(loaded)];
    assert loaded.stage == disk.meta.stage || loaded.stage == None;
    StartObeys(s, roadmap, loaded);
    var done := start;
    if input.attempt && input.head.Some? {
      ConvergeObeys(s, roadmap, start, disk, input, input.head.value);
      done := Converge(start, disk, roadmap, input, input.head.value);
    }
    if done.outcome != Raised {
      SaveObeys(s, roadmap, done, done.meta);
    }
  }

  // ---------------------------------------------------------------------------------------------
  // Runs
  // ---------------------------------------------------------------------------------------------

  /** A tick's input, and the number of effects after which it dies if it has more. */
  datatype TickRun = TickRun(input: Input, life: nat)

  ghost function TickLog(disk: Disk, roadmap: seq<string>, t: TickRun): seq<Effect> {
    Cut(Tick(disk, roadmap, t.input), t.life)
  }

  /** The log of a run of ticks, each starting from what the last one left on disk. */
  ghost function RunLog(disk: Disk, roadmap: seq<string>, ticks: seq<TickRun>): seq<Effect> {
    if ticks == [] then []
    else
      var before := RunLog(disk, roadmap, ticks[..|ticks| - 1]);
      before + TickLog(Replay(disk, before), roadmap, ticks[|ticks| - 1])
  }

  lemma {:induction false} CutTickObeys(s: State, roadmap: seq<string>, t: TickRun)
    requires Inv(s, roadmap) && s.mode == Idle
    ensures Obeys(s, roadmap, TickLog(s.disk, roadmap, t))
    ensures After(s, TickLog(s.disk, roadmap, t)).mode == Idle
  {
    var effects := Tick(s.disk, roadmap, t.input);
    TickObeys(s, roadmap, t.input);
    if t.life < |effects| {
      ObeysPrefix(s, roadmap, effects, t.life);
      ObeysSnoc(s, roadmap, effects[..t.life], Crashed);
    }
  }

  lemma {:induction false} RunObeys(s: State, roadmap: seq<string>, ticks: seq<TickRun>)
    requires Inv(s, roadmap) && s.mode == Idle
    ensures Obeys(s, roadmap, RunLog(s.disk, roadmap, ticks))
    ensures After(s, RunLog(s.disk, roadmap, ticks)).mode == Idle
  {
    if ticks == [] {
    } else {
      var before := RunLog(s.disk, roadmap, ticks[..|ticks| - 1]);
      RunObeys(s, roadmap, ticks[..|ticks| - 1]);
      ObeyingKeepsInv(s, roadmap, before);
      var t := ticks[|ticks| - 1];
      CutTickObeys(After(s, before), roadmap, t);
      ObeysConcat(s, roadmap, before, TickLog(After(s, before).disk, roadmap, t));
    }
  }

  /** The log at some moment of some run that begins with no transition under way. */
  ghost predicate Happens(disk: Disk, roadmap: seq<string>, ticks: seq<TickRun>, log: seq<Effect>) {
    disk.meta.stage == None && !disk.meta.converged && log <= RunLog(disk, roadmap, ticks)
  }

  lemma {:induction false} HappensObeys(disk: Disk, roadmap: seq<string>, ticks: seq<TickRun>, log: seq<Effect>)
    requires Happens(disk, roadmap, ticks, log)
    ensures Obeys(State(disk, NO_COUNTS, Idle, None), roadmap, log)
  {
    var s, whole := State(disk, NO_COUNTS, Idle, None), RunLog(disk, roadmap, ticks);
    RunObeys(s, roadmap, ticks);
    ObeysPrefix(s, roadmap, whole, |log|);
    assert whole[..|log|] == log;
  }

  /** At every moment, one entry to CONVERGED has called the primary planner at most once, and the
      fallback at most once more than the process has died since with the fallback claimed. */
  lemma {:induction false} PlannerCallsAreBounded(
    disk: Disk, roadmap: seq<string>, ticks: seq<TickRun>, log: seq<Effect>)
    requires Happens(disk, roadmap, ticks, log)
    ensures var c := CountsFrom(NO_COUNTS, disk, log);
            c.primary <= 1 && c.fallback <= 1 + c.deaths
  {
    HappensObeys(disk, roadmap, ticks, log);
    ObeyingKeepsInv(State(disk, NO_COUNTS, Idle, None), roadmap, log);
  }

  lemma {:induction false} LastIsLegal(
    disk: Disk, roadmap: seq<string>, ticks: seq<TickRun>, before: seq<Effect>, e: Effect)
    requires Happens(disk, roadmap, ticks, before + [e])
    ensures var s := After(State(disk, NO_COUNTS, Idle, None), before);
            Inv(s, roadmap) && Legal(s, roadmap, e) && s.disk == Replay(disk, before)
  {
    var s := State(disk, NO_COUNTS, Idle, None);
    HappensObeys(disk, roadmap, ticks, before + [e]);
    assert (before + [e])[..|before|] == before;
    ObeyingKeepsInv(s, roadmap, before);
  }

  /** A plan becomes the active milestone only when it is valid for the roadmap's next id and the
      milestone that it replaces is in the archive. */
  lemma {:induction false} OnlyValidPlansAreActivated(
    disk: Disk, roadmap: seq<string>, ticks: seq<TickRun>, before: seq<Effect>,
      plan: Plan)
    requires Happens(disk, roadmap, ticks, before + [Activated(plan)])
    ensures var now := Replay(disk, before);
            && now.active.id in now.archived
            && NextOn(roadmap, now.active.id).Some? && ValidFor(plan, NextOn(roadmap, now.active.id).value)
  {
    LastIsLegal(disk, roadmap, ticks, before, Activated(plan));
  }

  /** A planner is called only while the claim for that call is the stage on disk. */
  lemma {:induction false} CallsAreClaimed(
    disk: Disk, roadmap: seq<string>, ticks: seq<TickRun>, before: seq<Effect>, call: Effect)
    requires Happens(disk, roadmap, ticks, before + [call])
    ensures call.PrimaryCalled? ==> Replay(disk, before).meta.stage == Some(PrimaryClaimed)
    ensures call.FallbackCalled? ==> Replay(disk, before).meta.stage == Some(FallbackClaimed)
  {
    LastIsLegal(disk, roadmap, ticks, before, call);
  }

  // ---------------------------------------------------------------------------------------------
  // A restart finishes what a dead tick began
  // ---------------------------------------------------------------------------------------------

  /** The tick finds, on disk, a transition of the active milestone that is under way. */
  ghost predicate TakesUp(disk: Disk, roadmap: seq<string>, input: Input) {
    var meta := disk.meta;
    && input.attempt && input.head.Some? && meta.convergedHead == input.head && meta.convergedId == Some(disk.active.id)
    && meta.milestoneId == Some(disk.active.id) && !meta.blocked
    && InTransition(meta.stage) && meta.stage != Some(NextInstalled)
    && (meta.stage == Some(NextValidated) ==> meta.validatedPlan.Some?)
    && disk.active.id in roadmap && NextOn(roadmap, disk.active.id).Some?
  }

  /** The plan that the stage and the answers of the planners lead to. */
  ghost function PlanAtHand(meta: Meta, target: string, input: Input): Option<Plan> {
    if meta.stage == Some(NextValidated) then meta.validatedPlan
    else if meta.stage == Some(Converged) && input.primaryBudgetLeft && Accepted(input.primary, target).Some?
    then Accepted(input.primary, target)
    else Accepted(input.fallback, target)
  }

  /** Nothing but metadata was written since, and memory holds what was. */
  ghost predicate InStep(disk: Disk, p: Progress) {
    var now := Replay(disk, p.effects);
    now.meta == p.meta && now.active == disk.active && now.archived == disk.archived
  }

  lemma {:induction false} SaveReplays(disk: Disk, p: Progress, meta: Meta)
    ensures Replay(disk, Save(p, meta).effects) == Replay(disk, p.effects).(meta := meta)
  {
    ReplaySnoc(disk, p.effects, Saved(meta));
  }

  lemma {:induction false} ConcludedInStep(disk: Disk, p: Progress, plan: Option<Plan>, failure: Stage)
    requires InStep(disk, p)
    ensures InStep(disk, Concluded(p, plan, failure))
  {
    SaveReplays(disk, p, p.meta.(validatedPlan := plan, stage := Some(NextValidated)));
    SaveReplays(disk, p, p.meta.(stage := Some(failure)));
  }

  lemma {:induction false} CallInStep(disk: Disk, p: Progress, stage: Stage, call: Effect)
    requires InStep(disk, p) && (call.PrimaryCalled? || call.FallbackCalled?)
    ensures InStep(disk, Emit(MoveTo(p, stage), call))
  {
    SaveReplays(disk, p, p.meta.(stage := Some(stage)));
    ReplaySnoc(disk, MoveTo(p, stage).effects, call);
  }

  lemma {:induction false} PlanPrimaryInStep(disk: Disk, p: Progress, target: string, input: Input)
    requires InStep(disk, p)
    ensures InStep(disk, PlanPrimary(p, target, input))
  {
    if p.meta.stage == None || p.meta.stage == Some(Converged) {
      if !input.primaryBudgetLeft {
        SaveReplays(disk, p, p.meta.(stage := Some(PrimaryFailed)));
      } else {
        CallInStep(disk, p, PrimaryClaimed, PrimaryCalled(input.primary));
        var called := Emit(MoveTo(p, PrimaryClaimed), PrimaryCalled(input.primary));
        ConcludedInStep(disk, called, Accepted(input.primary, target), PrimaryFailed);
      }
    }
  }

  lemma {:induction false} PrimaryInStep(disk: Disk, p: Progress, target: string, input: Input)
    requires InStep(disk, p)
    ensures InStep(disk, DropClaim(PlanPrimary(p, target, input)))
  {
    var q := PlanPrimary(p, target, input);
    PlanPrimaryInStep(disk, p, target, input);
    SaveReplays(disk, q, q.meta.(stage := Some(PrimaryFailed)));
  }

  /** What is left for the fallback. */
  lemma {:induction false} AfterPrimary(p: Progress, target: string, input: Input)
    requires p.meta.stage.Some? && p.outcome == Going
    ensures var q := DropClaim(PlanPrimary(p, target, input));
            && q.outcome == Going
            && (p.meta.stage in {Some(NextValidated), Some(FallbackClaimed), Some(PrimaryFailed)} ==> q == p)
            && (p.meta.stage == Some(PrimaryClaimed) ==> q.meta.stage == Some(PrimaryFailed))
            && (p.meta.stage == Some(Converged) ==>
                  if input.primaryBudgetLeft && Accepted(input.primary, target).Some?
                  then q.meta.stage == Some(NextValidated) && q.meta.validatedPlan == Accepted(input.primary, target)
                  else q.meta.stage == Some(PrimaryFailed))
  {
  }

  lemma {:induction false} FallbackInStep(disk: Disk, p: Progress, target: string, input: Input)
    requires InStep(disk, p) && p.outcome == Going
    ensures var q := PlanFallback(p, target, input);
            && InStep(disk, q)
            && (p.meta.stage == Some(NextValidated) ==> q == p)
            && (p.meta.stage in {Some(PrimaryFailed), Some(FallbackClaimed)} ==>
                  if Accepted(input.fallback, target).Some?
                  then q.outcome == Going && q.meta.stage == Some(NextValidated)
                       && q.meta.validatedPlan == Accepted(input.fallback, target)
                  else q.outcome == Returned && q.meta.stage == Some(TransitionBlocked) && q.meta.blocked)
  {
    CallInStep(disk, p, FallbackClaimed, FallbackCalled(input.fallback));
    var called := Emit(MoveTo(p, FallbackClaimed), FallbackCalled(input.fallback));
    ConcludedInStep(disk, called, Accepted(input.fallback, target), TransitionBlocked);
    var asked := FallbackAsked(p, target, input);
    SaveReplays(disk, asked, Blocked(asked.meta, input.headNow));
  }

  lemma {:induction false} ArchiveReplays(disk: Disk, p: Progress, id: string)
    requires InStep(disk, p)
    ensures var archived := if id in disk.archived then p else Emit(p, Archived(id));
            Replay(disk, archived.effects) == Replay(disk, p.effects).(archived := disk.archived + {id})
  {
    ReplaySnoc(disk, p.effects, Archived(id));
    if id in disk.archived {
      assert disk.archived + {id} == disk.archived;
    }
  }

  lemma {:induction false} ActivateReplays(disk: Disk, p: Progress, plan: Plan)
    requires InStep(disk, p)
    ensures var now := Replay(disk, Activate(p, disk, plan).effects);
            && now.meta == Installed(p.meta, plan) && now.active == plan
            && now.archived == disk.archived + {disk.active.id}
  {
    var archived := if disk.active.id in disk.archived then p else Emit(p, Archived(disk.active.id));
    ArchiveReplays(disk, p, disk.active.id);
    ReplaySnoc(disk, archived.effects, Activated(plan));
    SaveReplays(disk, Emit(archived, Activated(plan)), Installed(p.meta, plan));
  }

  /** The handlers a tick that takes up a transition goes through. */
  lemma {:induction false} TakenUp(disk: Disk, roadmap: seq<string>, input: Input)
    requires TakesUp(disk, roadmap, input)
    ensures var target := NextOn(roadmap, disk.active.id).value;
            var start := Progress(disk.meta, [Saved(disk.meta)], Going);
            var asked := PlanFallback(DropClaim(PlanPrimary(start, target, input)), target, input);
            var done := Install(asked, disk, input);
            && InStep(disk, start)
            && (done.outcome != Raised ==> Tick(disk, roadmap, input) == Save(done, done.meta).effects)
  {
    assert [Saved(disk.meta)][..0] == [];
  }

  lemma {:induction false} PlannersAsked(disk: Disk, p: Progress, target: string, input: Input)
    requires InStep(disk, p) && p.outcome == Going && InTransition(p.meta.stage) && p.meta.stage != Some(NextInstalled)
    requires p.meta.stage == Some(NextValidated) ==> p.meta.validatedPlan.Some?
    ensures var plan := PlanAtHand(p.meta, target, input);
            var asked := PlanFallback(DropClaim(PlanPrimary(p, target, input)), target, input);
            && InStep(disk, asked)
            && if plan.Some? then
               asked.outcome == Going && asked.meta.stage == Some(NextValidated) && asked.meta.validatedPlan == plan
               else asked.outcome == Returned && asked.meta.stage == Some(TransitionBlocked) && asked.meta.blocked
  {
    PrimaryInStep(disk, p, target, input);
    AfterPrimary(p, target, input);
    FallbackInStep(disk, DropClaim(PlanPrimary(p, target, input)), target, input);
  }

  lemma {:induction false} InstallEnds(disk: Disk, asked: Progress, input: Input)
    requires InStep(disk, asked)
    requires asked.outcome == Returned
             || (asked.outcome == Going && asked.meta.stage == Some(NextValidated) && asked.meta.validatedPlan.Some?)
    ensures var done := Install(asked, disk, input);
            var after := Replay(disk, Save(done, done.meta).effects);
            && done.outcome != Raised
            && (asked.outcome == Returned ==>
                  after.meta == asked.meta && after.active == disk.active && after.archived == disk.archived)
            && (asked.outcome == Going ==>
                  after.meta == Installed(asked.meta, asked.meta.validatedPlan.value)
                  && after.active == asked.meta.validatedPlan.value
                  && after.archived == disk.archived + {disk.active.id})
  {
    var done := Install(asked, disk, input);
    if asked.outcome == Going {
      ActivateReplays(disk, asked, asked.meta.validatedPlan.value);
    }
    SaveReplays(disk, done, done.meta);
  }

  /** Whatever stage a dead tick left on disk, the next whole tick brings the transition to its end: the
      plan at hand is active, its metadata saved and the old milestone archived, or, when no planner's
      answer passes validation, the factory is blocked and nothing is replaced. */
  lemma {:induction false} RestartFinishes(disk: Disk, roadmap: seq<string>, input: Input)
    requires TakesUp(disk, roadmap, input)
    ensures var plan := PlanAtHand(disk.meta, NextOn(roadmap, disk.active.id).value, input);
            var after := Replay(disk, Tick(disk, roadmap, input));
            if plan.Some?
            then && after.active == plan.value && after.meta.stage == Some(NextInstalled)
                 && after.meta.milestoneId == Some(plan.value.id) && after.archived == disk.archived + {disk.active.id}
            else && after.active == disk.active && after.archived == disk.archived
                 && after.meta.stage == Some(TransitionBlocked) && after.meta.blocked
  {
    var target := NextOn(roadmap, disk.active.id).value;
    var start := Progress(disk.meta, [Saved(disk.meta)], Going);
    TakenUp(disk, roadmap, input);
    PlannersAsked(disk, start, target, input);
    InstallEnds(disk, PlanFallback(DropClaim(PlanPrimary(start, target, input)), target, input), input);
  }

  // ---------------------------------------------------------------------------------------------
  // When the fallback is called, and called again
  // ---------------------------------------------------------------------------------------------

  function FallbackCalls(log: seq<Effect>): nat {
    if log == [] then 0
    else FallbackCalls(log[..|log| - 1]) + (if log[|log| - 1].FallbackCalled? then 1 else 0)
  }

  lemma {:induction false} CallsSnoc(log: seq<Effect>, e: Effect)
    ensures FallbackCalls(log + [e]) == FallbackCalls(log) + (if e.FallbackCalled? then 1 else 0)
  {
    assert (log + [e])[..|log|] == log;
  }

  /** Effects without a new entry add their calls to the count. */
  lemma {:induction false} CallsAreCounted(c: Counts, disk: Disk, log: seq<Effect>, more: seq<Effect>)
    requires ConvergenceRecorded !in more
    ensures CountsFrom(c, disk, log + more).fallback == CountsFrom(c, disk, log).fallback + FallbackCalls(more)
  {
    if more == [] {
      assert log + more == log;
    } else {
      CallsAreCounted(c, disk, log, more[..|more| - 1]);
      assert (log + more)[..|log + more| - 1] == log + more[..|more| - 1];
    }
  }

  lemma {:induction false} PrimaryMakesNoFallbackCall(p: Progress, target: string, input: Input)
    ensures FallbackCalls(PlanPrimary(p, target, input).effects) == FallbackCalls(p.effects)
    ensures ConvergenceRecorded in PlanPrimary(p, target, input).effects ==> ConvergenceRecorded in p.effects
  {
    CallsSnoc(p.effects, Saved(p.meta.(stage := Some(PrimaryFailed))));
    CallingPrimaryMakesNone(p, input.primary);
    var called := Emit(MoveTo(p, PrimaryClaimed), PrimaryCalled(input.primary));
    ConcludingMakesNone(called, Accepted(input.primary, target), PrimaryFailed);
  }

  lemma {:induction false} CallingPrimaryMakesNone(p: Progress, output: Option<Plan>)
    ensures var called := Emit(MoveTo(p, PrimaryClaimed), PrimaryCalled(output));
            && FallbackCalls(called.effects) == FallbackCalls(p.effects)
            && (ConvergenceRecorded in called.effects ==> ConvergenceRecorded in p.effects)
  {
    var claimed := MoveTo(p, PrimaryClaimed);
    CallsSnoc(p.effects, Saved(claimed.meta));
    CallsSnoc(claimed.effects, PrimaryCalled(output));
  }

  lemma {:induction false} ConcludingMakesNone(p: Progress, plan: Option<Plan>, failure: Stage)
    ensures var done := Concluded(p, plan, failure);
            && FallbackCalls(done.effects) == FallbackCalls(p.effects)
            && (ConvergenceRecorded in done.effects ==> ConvergenceRecorded in p.effects)
  {
    CallsSnoc(p.effects, Saved(Concluded(p, plan, failure).meta));
  }

  lemma {:induction false} DropMakesNoFallbackCall(p: Progress)
    ensures FallbackCalls(DropClaim(p).effects) == FallbackCalls(p.effects)
    ensures ConvergenceRecorded in DropClaim(p).effects ==> ConvergenceRecorded in p.effects
  {
    CallsSnoc(p.effects, Saved(p.meta.(stage := Some(PrimaryFailed))));
  }

  lemma {:induction false} AskingMakesOneCall(p: Progress, target: string, input: Input)
    ensures FallbackCalls(FallbackAsked(p, target, input).effects) == FallbackCalls(p.effects) + 1
    ensures ConvergenceRecorded in FallbackAsked(p, target, input).effects ==> ConvergenceRecorded in p.effects
  {
    var claimed := MoveTo(p, FallbackClaimed);
    var called := Emit(claimed, FallbackCalled(input.fallback));
    CallsSnoc(p.effects, Saved(claimed.meta));
    CallsSnoc(claimed.effects, FallbackCalled(input.fallback));
    CallsSnoc(called.effects, Saved(FallbackAsked(p, target, input).meta));
  }

  lemma {:induction false} FallbackMakesOneCall(p: Progress, target: string, input: Input)
    ensures FallbackCalls(PlanFallback(p, target, input).effects)
            == FallbackCalls(p.effects)
               + (if p.meta.stage == Some(PrimaryFailed) || p.meta.stage == Some(FallbackClaimed) then 1 else 0)
    ensures ConvergenceRecorded in PlanFallback(p, target, input).effects ==> ConvergenceRecorded in p.effects
  {
    var asked := FallbackAsked(p, target, input);
    AskingMakesOneCall(p, target, input);
    CallsSnoc(asked.effects, Saved(Blocked(asked.meta, input.headNow)));
  }

  lemma {:induction false} ActivateMakesNoCall(p: Progress, disk: Disk, plan: Plan)
    ensures FallbackCalls(Activate(p, disk, plan).effects) == FallbackCalls(p.effects)
    ensures ConvergenceRecorded in Activate(p, disk, plan).effects ==> ConvergenceRecorded in p.effects
  {
    var archived := if disk.active.id in disk.archived then p else Emit(p, Archived(disk.active.id));
    CallsSnoc(p.effects, Archived(disk.active.id));
    CallsSnoc(archived.effects, Activated(plan));
    CallsSnoc(Emit(archived, Activated(plan)).effects, Saved(Installed(p.meta, plan)));
  }

  lemma {:induction false} InstallMakesNoCall(p: Progress, disk: Disk, input: Input)
    ensures FallbackCalls(Install(p, disk, input).effects) == FallbackCalls(p.effects)
    ensures ConvergenceRecorded in Install(p, disk, input).effects ==> ConvergenceRecorded in p.effects
  {
    CallsSnoc(p.effects, Saved(Blocked(p.meta, input.headNow)));
    var plan := if p.meta.validatedPlan.Some? then p.meta.validatedPlan else disk.plannerOutput;
    if plan.Some? {
      ActivateMakesNoCall(p, disk, plan.value);
    }
  }

  /** The stage on disk and the primary's answer leave nothing but the fallback. */
  ghost predicate NeedsFallback(meta: Meta, target: string, input: Input) {
    meta.stage != Some(NextValidated)
    && !(meta.stage == Some(Converged) && input.primaryBudgetLeft && Accepted(input.primary, target).Some?)
  }

  /** A tick that takes up a transition calls the fallback exactly then, and once: a claim of the fallback
      found on disk does not hold it back. */
  lemma {:induction false} FallbackIsCalledExactlyWhenNeeded(disk: Disk, roadmap: seq<string>, input: Input)
    requires TakesUp(disk, roadmap, input)
    ensures FallbackCalls(Tick(disk, roadmap, input))
            == if NeedsFallback(disk.meta, NextOn(roadmap, disk.active.id).value, input) then 1 else 0
    ensures ConvergenceRecorded !in Tick(disk, roadmap, input)
  {
    var target := NextOn(roadmap, disk.active.id).value;
    var start := Progress(disk.meta, [Saved(disk.meta)], Going);
    TakenUp(disk, roadmap, input);
    PlannersAsked(disk, start, target, input);
    var primary := PlanPrimary(start, target, input);
    var planned := DropClaim(primary);
    var asked := PlanFallback(planned, target, input);
    InstallEnds(disk, asked, input);
    AfterPrimary(start, target, input);
    PlannersCall(start, target, input);
    OneSaveMakesNoCall(disk.meta);
    EndMakesNoCall(asked, disk, input);
  }

  lemma {:induction false} OneSaveMakesNoCall(meta: Meta)
    ensures FallbackCalls([Saved(meta)]) == 0 && ConvergenceRecorded !in [Saved(meta)]
  {
    CallsSnoc([], Saved(meta));
    assert [] + [Saved(meta)] == [Saved(meta)];
  }

  /** The calls of both planners' stages. */
  lemma {:induction false} PlannersCall(p: Progress, target: string, input: Input)
    ensures var planned := DropClaim(PlanPrimary(p, target, input));
            var asked := PlanFallback(planned, target, input);
            && FallbackCalls(asked.effects)
               == FallbackCalls(p.effects)
                  + (if planned.meta.stage == Some(PrimaryFailed) || planned.meta.stage == Some(FallbackClaimed) then 1
                     else 0)
            && (ConvergenceRecorded in asked.effects ==> ConvergenceRecorded in p.effects)
  {
    var primary := PlanPrimary(p, target, input);
    PrimaryMakesNoFallbackCall(p, target, input);
    DropMakesNoFallbackCall(primary);
    FallbackMakesOneCall(DropClaim(primary), target, input);
  }

  lemma {:induction false} EndMakesNoCall(asked: Progress, disk: Disk, input: Input)
    ensures var done := Install(asked, disk, input);
            && FallbackCalls(Save(done, done.meta).effects) == FallbackCalls(asked.effects)
            && (ConvergenceRecorded in Save(done, done.meta).effects ==> ConvergenceRecorded in asked.effects)
  {
    var done := Install(asked, disk, input);
    InstallMakesNoCall(asked, disk, input);
    CallsSnoc(done.effects, Saved(done.meta));
  }

  /** The first tick of an entry without a primary budget, up to the call of the fallback. */
  function FirstCall(disk: Disk, head: string, output: Option<Plan>): seq<Effect> {
    var start := Progress(disk.meta, [Saved(disk.meta)], Going);
    var entered := Recorded(start, disk, None, head);
    Emit(MoveTo(MoveTo(entered, PrimaryFailed), FallbackClaimed), FallbackCalled(output)).effects
  }

  /** A milestone at rest, and what its ticks meet: it converges, and the primary planner has no budget. */
  ghost predicate Converging(disk: Disk, roadmap: seq<string>, input: Input) {
    && disk.meta == FRESH.(milestoneId := Some(disk.active.id))
    && disk.active.id in roadmap && NextOn(roadmap, disk.active.id).Some?
    && input.attempt && input.head.Some? && input.verdict == ConvergedAt(None) && !input.primaryBudgetLeft
  }

  lemma {:induction false} FirstTickCalls(disk: Disk, roadmap: seq<string>, input: Input)
    requires Converging(disk, roadmap, input)
    ensures FirstCall(disk, input.head.value, input.fallback) <= Tick(disk, roadmap, input)
    ensures |FirstCall(disk, input.head.value, input.fallback)| == 6
  {
    var head, target := input.head.value, NextOn(roadmap, disk.active.id).value;
    var start := Progress(disk.meta, [Saved(disk.meta)], Going);
    var entered := Recorded(start, disk, None, head);
    assert PlanPrimary(entered, target, input) == MoveTo(entered, PrimaryFailed);
    var failed := MoveTo(entered, PrimaryFailed);
    assert DropClaim(failed) == failed;
    var asked := PlanFallback(failed, target, input);
    assert FirstCall(disk, head, input.fallback) <= FallbackAsked(failed, target, input).effects <= asked.effects;
    InstallExtends(asked, disk, input);
    assert Converge(start, disk, roadmap, input, head) == Install(asked, disk, input);
  }

  lemma {:induction false} InstallExtends(p: Progress, disk: Disk, input: Input)
    ensures p.effects <= Install(p, disk, input).effects
  {
  }

  lemma {:induction false} CountOfFirstCall(disk: Disk, head: string, output: Option<Plan>)
    ensures CountsFrom(NO_COUNTS, disk, FirstCall(disk, head, output) + [Crashed]).fallback == 1
  {
    var entry := [Saved(disk.meta), ConvergenceRecorded];
    var entered := Entered(disk.meta, disk.active, None, head);
    var failed := entered.(stage := Some(PrimaryFailed));
    var claimed := failed.(stage := Some(FallbackClaimed));
    var rest := [Saved(entered), Saved(failed), Saved(claimed), FallbackCalled(output), Crashed];
    assert FirstCall(disk, head, output) + [Crashed] == entry + rest;
    assert entry[..1] == [Saved(disk.meta)];
    CallsAreCounted(NO_COUNTS, disk, entry, rest);
    assert FallbackCalls(rest) == 1 by {
      assert rest[..4] + [Crashed] == rest && rest[..3] + [FallbackCalled(output)] == rest[..4];
      assert rest[..2] + [Saved(claimed)] == rest[..3] && rest[..1] + [Saved(failed)] == rest[..2];
      assert [] + [Saved(entered)] == rest[..1];
      CallsSnoc([], Saved(entered));
      CallsSnoc(rest[..1], Saved(failed));
      CallsSnoc(rest[..2], Saved(claimed));
      CallsSnoc(rest[..3], FallbackCalled(output));
      CallsSnoc(rest[..4], Crashed);
    }
  }

  lemma {:induction false} ReplayOfFirstCall(disk: Disk, head: string, output: Option<Plan>)
    ensures var now := Replay(disk, FirstCall(disk, head, output) + [Crashed]);
            && now.meta == Entered(disk.meta, disk.active, None, head).(stage := Some(FallbackClaimed))
            && now.active == disk.active
  {
    var start := Progress(disk.meta, [Saved(disk.meta)], Going);
    var recorded := Emit(start, ConvergenceRecorded);
    var entered := Recorded(start, disk, None, head);
    var failed := MoveTo(entered, PrimaryFailed);
    var claimed := MoveTo(failed, FallbackClaimed);
    assert [] + [Saved(disk.meta)] == start.effects;
    ReplaySnoc(disk, [], Saved(disk.meta));
    ReplaySnoc(disk, start.effects, ConvergenceRecorded);
    SaveReplays(disk, recorded, entered.meta);
    SaveReplays(disk, entered, failed.meta);
    SaveReplays(disk, failed, claimed.meta);
    ReplaySnoc(disk, claimed.effects, FallbackCalled(output));
    ReplaySnoc(disk, FirstCall(disk, head, output), Crashed);
  }

  lemma {:induction false} FirstTickDies(disk: Disk, roadmap: seq<string>, input: Input)
    requires Converging(disk, roadmap, input)
    ensures RunLog(disk, roadmap, [TickRun(input, 6)]) == FirstCall(disk, input.head.value, input.fallback) + [Crashed]
  {
    var ticks := [TickRun(input, 6)];
    FirstTickCalls(disk, roadmap, input);
    assert ticks[..0] == [];
    assert RunLog(disk, roadmap, ticks) == [] + TickLog(disk, roadmap, ticks[0]);
  }

  /** A run of two ticks: the first dies right after it called the fallback, and the second, whatever it
      meets, calls it again for the same entry to CONVERGED. */
  lemma {:induction false} TwoTicksCallTheFallbackTwice(
    disk: Disk, roadmap: seq<string>, first: Input, second: Input, life: nat)
    requires Converging(disk, roadmap, first) && second.attempt && second.head == first.head
    requires |Tick(Replay(disk, RunLog(disk, roadmap, [TickRun(first, 6)])), roadmap, second)| <= life
    ensures CountsFrom(NO_COUNTS, disk, RunLog(disk, roadmap, [TickRun(first, 6), TickRun(second, life)])).fallback == 2
  {
    var died := RunLog(disk, roadmap, [TickRun(first, 6)]);
    var head := first.head.value;
    FirstTickDies(disk, roadmap, first);
    CountOfFirstCall(disk, head, first.fallback);
    ReplayOfFirstCall(disk, head, first.fallback);
    var now := Replay(disk, died);
    assert TakesUp(now, roadmap, second);
    FallbackIsCalledExactlyWhenNeeded(now, roadmap, second);
    var ticks := [TickRun(first, 6), TickRun(second, life)];
    assert ticks[..1] == [TickRun(first, 6)];
    assert RunLog(disk, roadmap, ticks) == died + Tick(now, roadmap, second);
    CallsAreCounted(NO_COUNTS, disk, died, Tick(now, roadmap, second));
  }

  // ---------------------------------------------------------------------------------------------
  // The two deaths that RestartFinishes leaves
  // ---------------------------------------------------------------------------------------------

  lemma {:induction false} TwoSaves(disk: Disk, meta: Meta)
    ensures Replay(disk, [Saved(meta), Saved(meta)]) == disk.(meta := meta)
  {
    ReplaySnoc(disk, [], Saved(meta));
    assert [] + [Saved(meta)] == [Saved(meta)];
    ReplaySnoc(disk, [Saved(meta)], Saved(meta));
    assert [Saved(meta)] + [Saved(meta)] == [Saved(meta), Saved(meta)];
  }

  /** A death after the plan of the fallback was rejected, before the factory counts as blocked: while the
      head stays, further ticks call no planner and change nothing. */
  lemma {:induction false} RejectedTransitionStays(disk: Disk, roadmap: seq<string>, input: Input)
    requires disk.meta.stage == Some(TransitionBlocked) && disk.meta.milestoneId == Some(disk.active.id)
    requires input.head.Some? ==> !HeadMoved(disk.meta, input.head.value)
    ensures Tick(disk, roadmap, input) == [Saved(disk.meta), Saved(disk.meta)]
    ensures Replay(disk, Tick(disk, roadmap, input)) == disk
  {
    var tick := [Saved(disk.meta), Saved(disk.meta)];
    assert Tick(disk, roadmap, input) == tick;
    TwoSaves(disk, disk.meta);
  }

  /** A death after the next milestone became active, before its metadata was saved: the next tick saves
      that it starts afresh, and keeps it active. */
  lemma {:induction false} ActivatedMilestoneStarts(disk: Disk, roadmap: seq<string>, input: Input)
    requires disk.meta.milestoneId.Some? && disk.meta.milestoneId != Some(disk.active.id) && !input.attempt
    ensures var after := Replay(disk, Tick(disk, roadmap, input));
            after == disk.(meta := FRESH.(milestoneId := Some(disk.active.id)))
  {
    var started := FRESH.(milestoneId := Some(disk.active.id));
    var tick := [Saved(started), Saved(started)];
    assert Tick(disk, roadmap, input) == tick;
    TwoSaves(disk, started);
  }
}
