/** Milestones, the checks they pass when loaded, and the merge of a proposed plan into the running one. */
module PlanDelta {
  import opened Text
  import opened Graph

  datatype WorkPackage = WorkPackage(
    id: string,
    objective: string,
    acceptance: seq<string>,
    dependencies: seq<string>,
    requirementIds: seq<string>,
    protectedPaths: seq<string>,
    planEpoch: int)

  function Ids(packages: seq<WorkPackage>): seq<string> {
    seq(|packages|, i requires 0 <= i < |packages| => packages[i].id)
  }

  function GraphOf(packages: seq<WorkPackage>): Graph<string> {
    if packages == [] then map[]
    else
      var last := packages[|packages| - 1];
      GraphOf(packages[..|packages| - 1])[last.id := last.dependencies]
  }

  lemma {:induction false} GraphNodes(packages: seq<WorkPackage>)
    ensures forall n :: n in GraphOf(packages) <==> n in Ids(packages)
    ensures Distinct(Ids(packages)) ==>
              forall i | 0 <= i < |packages| ::
                packages[i].id in GraphOf(packages) && GraphOf(packages)[packages[i].id] == packages[i].dependencies
  {
    if packages != [] {
      var front, last := packages[..|packages| - 1], packages[|packages| - 1];
      GraphNodes(front);
      assert Ids(packages) == Ids(front) + [last.id];
      SnocDistinct(Ids(front), last.id);
      forall i | 0 <= i < |packages| && Distinct(Ids(packages))
        ensures packages[i].id in GraphOf(packages) && GraphOf(packages)[packages[i].id] == packages[i].dependencies
      {
        assert Ids(packages)[i] == packages[i].id;
        if i < |front| {
          assert Ids(front)[i] == front[i].id;
        }
      }
    }
  }

  datatype MilestoneError = DuplicateId | UnknownDependencies(id: string) | SelfDependency(id: string)
      | Cycle(id: string)

  /** What a loaded milestone promises. */
  ghost predicate WellFormed(packages: seq<WorkPackage>) {
    Distinct(Ids(packages)) && Closed(GraphOf(packages)) && !HasCycle(GraphOf(packages))
  }

  method HasDuplicates(ids: seq<string>) returns (found: bool)
    ensures found <==> !Distinct(ids)
  {
    var seen := {};
    for i := 0 to |ids|
      invariant seen == Elements(ids[..i]) && Distinct(ids[..i])
    {
      if ids[i] in seen {
        var k :| 0 <= k < i && ids[k] == ids[i];
        return true;
      }
      seen := seen + {ids[i]};
      assert ids[..i + 1] == ids[..i] + [ids[i]];
    }
    assert ids[..|ids|] == ids;
    found := false;
  }

  method AllKnown(dependencies: seq<string>, ids: set<string>) returns (known: bool)
    ensures known <==> forall d | d in dependencies :: d in ids
  {
    for j := 0 to |dependencies|
      invariant forall k | 0 <= k < j :: dependencies[k] in ids
    {
      if dependencies[j] !in ids {
        return false;
      }
    }
    known := true;
  }

  /** The loader's checks, in its order: they pass exactly for well-formed milestones. */
  method CheckMilestone(packages: seq<WorkPackage>) returns (r: Result<(), MilestoneError>)
    ensures r.Ok? <==> WellFormed(packages)
  {
    var ids := Ids(packages);
    var twice := HasDuplicates(ids);
    if twice {
      return Err(DuplicateId);
    }
    GraphNodes(packages);
    var graph := GraphOf(packages);
    for i := 0 to |packages|
      invariant forall k, d | 0 <= k < i && d in packages[k].dependencies :: d in ids
    {
      assert ids[i] == packages[i].id && graph[packages[i].id] == packages[i].dependencies;
      var known := AllKnown(packages[i].dependencies, Elements(ids));
      if !known {
        var d :| d in packages[i].dependencies && d !in ids;
        assert d in graph[packages[i].id] && !Closed(graph);
        return Err(UnknownDependencies(packages[i].id));
      }
      if packages[i].id in packages[i].dependencies {
        assert IsCycle(graph, [packages[i].id, packages[i].id]);
        return Err(SelfDependency(packages[i].id));
      }
    }
    KnownCloses(packages);
    var acyclic := AssertAcyclic(graph, ids);
    r := if acyclic.Err? then Err(Cycle(acyclic.error)) else Ok(());
  }

  lemma {:induction false} KnownCloses(packages: seq<WorkPackage>)
    requires Distinct(Ids(packages))
    requires forall k, d | 0 <= k < |packages| && d in packages[k].dependencies :: d in Ids(packages)
    ensures Closed(GraphOf(packages))
  {
    var graph, ids := GraphOf(packages), Ids(packages);
    GraphNodes(packages);
    forall n, d | n in graph && d in graph[n] ensures d in graph {
      var k :| 0 <= k < |ids| && ids[k] == n;
      assert graph[packages[k].id] == packages[k].dependencies;
    }
  }

  // ---------------------------------------------------------------------------------------------
  // The merge
  // ---------------------------------------------------------------------------------------------

  /** The fingerprint of the gap a package closes; a function of its requirements, acceptance and objective. */
  type Gap = WorkPackage -> string

  function ById(packages: seq<WorkPackage>, id: string): Option<WorkPackage> {
    LastWhere(packages, (p: WorkPackage) => p.id == id)
  }

  lemma {:induction false} ByIdFinds(packages: seq<WorkPackage>, id: string)
    ensures ById(packages, id).Some? ==> ById(packages, id).value in packages && ById(packages, id).value.id == id
    ensures ById(packages, id).None? ==> forall p | p in packages :: p.id != id
  {
    LastWhereFinds(packages, (p: WorkPackage) => p.id == id);
  }

  /** Of running packages that close one gap, the last. */
  function ByGap(packages: seq<WorkPackage>, gap: Gap, fingerprint: string): Option<WorkPackage> {
    LastWhere(packages, (p: WorkPackage) => gap(p) == fingerprint)
  }

  function OrElse<T(==)>(s: seq<T>, fallback: seq<T>): seq<T> {
    if s == [] then fallback else s
  }

  /** A running package that takes over what a proposal says; what the proposal leaves empty it keeps. */
  function Updated(existing: WorkPackage, proposal: WorkPackage): WorkPackage {
    WorkPackage(existing.id,
                OrElse(proposal.objective, existing.objective),
                OrElse(proposal.acceptance, existing.acceptance),
                OrElse(proposal.dependencies, existing.dependencies),
                OrElse(proposal.requirementIds, existing.requirementIds),
                OrElse(proposal.protectedPaths, existing.protectedPaths),
                (if existing.planEpoch < proposal.planEpoch then proposal.planEpoch else existing.planEpoch) + 1)
  }

  /** The running package a proposal is about, if any: the one it names, else one that closes its gap. */
  function Existing(current: seq<WorkPackage>, gap: Gap, proposal: WorkPackage): Option<WorkPackage> {
    if ById(current, proposal.id).Some? then ById(current, proposal.id) else ByGap(current, gap, gap(proposal))
  }

  function TargetId(current: seq<WorkPackage>, gap: Gap, proposal: WorkPackage): string {
    match Existing(current, gap, proposal)
    case Some(existing) => existing.id
    case None => proposal.id
  }

  /** The package a proposal turns into when it is placed. */
  function Placement(current: seq<WorkPackage>, gap: Gap, proposal: WorkPackage): WorkPackage {
    match Existing(current, gap, proposal)
    case Some(existing) => Updated(existing, proposal)
    case None => proposal
  }

  /** One proposal placed: a proposal that names a running package is always taken, one that is adopted
      or new only if its place is still free. */
  function Place(current: seq<WorkPackage>, gap: Gap, merged: seq<WorkPackage>,
      proposal: WorkPackage): seq<WorkPackage> {
    var named := ById(current, proposal.id).Some?;
    if !named && TargetId(current, gap, proposal) in Ids(merged) then merged
    else merged + [Placement(current, gap, proposal)]
  }

  function PlaceAll(current: seq<WorkPackage>, gap: Gap, proposed: seq<WorkPackage>): seq<WorkPackage> {
    if proposed == [] then []
    else Place(current, gap, PlaceAll(current, gap, proposed[..|proposed| - 1]), proposed[|proposed| - 1])
  }

  /** The merge. Durable packages that no proposal is about are kept as they are, in some order. */
  method InstallPlanDelta(current: seq<WorkPackage>, proposed: seq<WorkPackage>, isDurable: string -> bool, gap: Gap)
    returns (merged: seq<WorkPackage>)
    requires Distinct(Ids(current))
    ensures IsMerge(current, proposed, isDurable, gap, merged)
    ensures Distinct(Ids(merged)) <==> Distinct(Ids(PlaceAll(current, gap, proposed)))
  {
    var durable: set<string> := {};
    for i := 0 to |current|
      invariant durable == set k | 0 <= k < i && isDurable(current[k].id) :: current[k].id
    {
      if isDurable(current[i].id) {
        durable := durable + {current[i].id};
      }
    }
    merged := [];
    var seen: set<string> := {};
    assert proposed[..0] == [];
    for i := 0 to |proposed|
      invariant merged == PlaceAll(current, gap, proposed[..i])
      invariant seen == Elements(Ids(merged))
    {
      assert proposed[..i + 1][..i] == proposed[..i];
      merged, seen := PlaceProposal(current, gap, merged, seen, proposed[i]);
    }
    assert proposed[..|proposed|] == proposed;
    merged := KeepDurable(current, durable, merged, isDurable);
  }

  method PlaceProposal(current: seq<WorkPackage>, gap: Gap, before: seq<WorkPackage>, seenBefore: set<string>,
      proposal: WorkPackage)
    returns (merged: seq<WorkPackage>, seen: set<string>)
    requires seenBefore == Elements(Ids(before))
    ensures merged == Place(current, gap, before, proposal)
    ensures seen == Elements(Ids(merged))
  {
    merged, seen := before, seenBefore;
    var named, same := ById(current, proposal.id), ByGap(current, gap, gap(proposal));
    ByIdFinds(current, proposal.id);
    if named.Some? {
      merged := merged + [Updated(named.value, proposal)];
      seen := seen + {proposal.id};
    } else if same.Some? {
      if same.value.id !in seen {
        merged := merged + [Updated(same.value, proposal)];
        seen := seen + {same.value.id};
      }
    } else if proposal.id !in seen {
      merged := merged + [proposal];
      seen := seen + {proposal.id};
    }
    assert merged != before ==> Ids(merged) == Ids(before) + [merged[|before|].id];
  }

  method KeepDurable(current: seq<WorkPackage>, durable: set<string>, placed: seq<WorkPackage>,
      ghost isDurable: string -> bool)
    returns (merged: seq<WorkPackage>)
    requires Distinct(Ids(current)) && durable == set p | p in current && isDurable(p.id) :: p.id
    ensures placed <= merged
    ensures Distinct(Ids(merged)) <==> Distinct(Ids(placed))
    ensures forall p :: p in merged[|placed|..] <==> p in current && isDurable(p.id) && p.id !in Ids(placed)
  {
    var kept: seq<WorkPackage> := [];
    var left := durable;
    while left != {}
      invariant left <= durable
      invariant forall p :: p in kept <==> p in current && p.id in durable - left && p.id !in Ids(placed)
      invariant Distinct(Ids(kept))
    {
      var id :| id in left;
      left := left - {id};
      var existing := ById(current, id);
      ByIdFinds(current, id);
      OnlyOneWithId(current, id);
      if id !in Ids(placed) {
        assert id !in Ids(kept);
        assert Ids(kept + [existing.value]) == Ids(kept) + [id];
        kept := kept + [existing.value];
      }
    }
    merged := placed + kept;
    assert merged[|placed|..] == kept;
    assert Ids(merged) == Ids(placed) + Ids(kept);
    assert Ids(merged)[..|placed|] == Ids(placed);
    forall id | id in Ids(kept) ensures id !in Ids(placed) {
      var k :| 0 <= k < |kept| && kept[k].id == id;
      assert kept[k] in kept;
    }
  }

  lemma {:induction false} OnlyOneWithId(current: seq<WorkPackage>, id: string)
    requires Distinct(Ids(current))
    ensures forall p, q | p in current && q in current && p.id == id && q.id == id :: p == q
  {
    forall p, q | p in current && q in current && p.id == id && q.id == id ensures p == q {
      var i :| 0 <= i < |current| && current[i] == p;
      var j :| 0 <= j < |current| && current[j] == q;
      assert Ids(current)[i] == Ids(current)[j];
    }
  }

  // ---------------------------------------------------------------------------------------------
  // What the merge keeps
  // ---------------------------------------------------------------------------------------------

  lemma {:induction false} PlacedIds(current: seq<WorkPackage>, gap: Gap, proposed: seq<WorkPackage>)
    ensures forall id :: id in Ids(PlaceAll(current, gap, proposed))
                         <==> exists p :: p in proposed && TargetId(current, gap, p) == id
  {
    if proposed != [] {
      var front, last := proposed[..|proposed| - 1], proposed[|proposed| - 1];
      PlacedIds(current, gap, front);
      var before, after := PlaceAll(current, gap, front), PlaceAll(current, gap, proposed);
      var target := TargetId(current, gap, last);
      assert after != before ==> Ids(after) == Ids(before) + [target];
      assert forall p :: p in proposed <==> p in front || p == last;
    }
  }

  /** A running package that took over a proposal: under its own id, each field is the proposal's unless that
      is empty, and the plan epoch is the next after both. */
  ghost predicate TookOver(existing: WorkPackage, p: WorkPackage, r: WorkPackage) {
    && r.id == existing.id
    && (if p.objective != "" then r.objective == p.objective else r.objective == existing.objective)
    && (if p.acceptance != [] then r.acceptance == p.acceptance else r.acceptance == existing.acceptance)
    && (if p.dependencies != [] then r.dependencies == p.dependencies else r.dependencies == existing.dependencies)
    && (if p.requirementIds != [] then r.requirementIds == p.requirementIds
        else r.requirementIds == existing.requirementIds)
    && (if p.protectedPaths != [] then r.protectedPaths == p.protectedPaths
        else r.protectedPaths == existing.protectedPaths)
    && r.planEpoch - 1 in {existing.planEpoch, p.planEpoch}
    && r.planEpoch > existing.planEpoch && r.planEpoch > p.planEpoch
  }

  /** The running package that a proposal is about: the last of its id, or without one the last that closes
      its gap. */
  ghost predicate IsTheOne(current: seq<WorkPackage>, gap: Gap, p: WorkPackage, k: int) {
    && 0 <= k < |current|
    && if p.id in Ids(current) then current[k].id == p.id && forall j | k < j < |current| :: current[j].id != p.id
       else gap(current[k]) == gap(p) && forall j | k < j < |current| :: gap(current[j]) != gap(p)
  }

  /** Every merged package is a new proposal or the running package it is about, which took it over. */
  lemma {:induction false} PlacedOrigins(current: seq<WorkPackage>, gap: Gap, proposed: seq<WorkPackage>,
      r: WorkPackage)
    requires r in PlaceAll(current, gap, proposed)
    ensures exists p :: p in proposed && IsOriginOf(current, gap, p, r)
  {
    var front, last := proposed[..|proposed| - 1], proposed[|proposed| - 1];
    if r in PlaceAll(current, gap, front) {
      PlacedOrigins(current, gap, front, r);
      assert forall p | p in front :: p in proposed;
    } else {
      PlacementIsOrigin(current, gap, last);
      assert last in proposed;
    }
  }

  ghost predicate IsOriginOf(current: seq<WorkPackage>, gap: Gap, p: WorkPackage, r: WorkPackage) {
    || (r == p && p.id !in Ids(current) && forall q | q in current :: gap(q) != gap(p))
    || exists k :: IsTheOne(current, gap, p, k) && TookOver(current[k], p, r)
  }

  lemma {:induction false} PlacementIsOrigin(current: seq<WorkPackage>, gap: Gap, p: WorkPackage)
    ensures IsOriginOf(current, gap, p, Placement(current, gap, p))
  {
    ByIdFinds(current, p.id);
    LastWhereFinds(current, (q: WorkPackage) => gap(q) == gap(p));
    if ById(current, p.id).Some? {
      var k := LastIndex(current, (q: WorkPackage) => q.id == p.id);
      assert Ids(current)[k] == p.id;
      assert IsTheOne(current, gap, p, k);
    } else {
      assert p.id !in Ids(current);
      if ByGap(current, gap, gap(p)).Some? {
        var k := LastIndex(current, (q: WorkPackage) => gap(q) == gap(p));
        assert IsTheOne(current, gap, p, k);
      }
    }
  }

  /** What the merge may return: the placed proposals, then the durable packages they are not about. */
  ghost predicate IsMerge(
    current: seq<WorkPackage>, proposed: seq<WorkPackage>, isDurable: string -> bool, gap: Gap,
    merged: seq<WorkPackage>)
  {
    var placed := PlaceAll(current, gap, proposed);
    && placed <= merged
    && forall p :: p in merged[|placed|..] <==> p in current && isDurable(p.id) && p.id !in Ids(placed)
  }

  /** Every durable package id is still there, and every proposal is there as itself or under the id of
      the running package it is about. */
  lemma {:induction false} MergeKeepsIdentities(
    current: seq<WorkPackage>, proposed: seq<WorkPackage>, isDurable: string -> bool, gap: Gap,
    merged: seq<WorkPackage>)
    requires IsMerge(current, proposed, isDurable, gap, merged)
    ensures forall p | p in current && isDurable(p.id) :: p.id in Ids(merged)
    ensures forall p | p in proposed :: TargetId(current, gap, p) in Ids(merged)
  {
    var placed := PlaceAll(current, gap, proposed);
    var kept := merged[|placed|..];
    PlacedIds(current, gap, proposed);
    assert merged == placed + kept;
    assert Ids(merged) == Ids(placed) + Ids(kept);
    KeptIds(kept);
  }

  /** No id comes from anywhere else. */
  lemma {:induction false} MergeAddsNothingElse(
    current: seq<WorkPackage>, proposed: seq<WorkPackage>, isDurable: string -> bool, gap: Gap,
    merged: seq<WorkPackage>, id: string)
    requires IsMerge(current, proposed, isDurable, gap, merged) && id in Ids(merged)
    ensures (exists p :: p in proposed && TargetId(current, gap, p) == id)
            || (exists p :: p in current && isDurable(p.id) && p.id == id)
  {
    var placed := PlaceAll(current, gap, proposed);
    var kept := merged[|placed|..];
    assert merged == placed + kept;
    assert Ids(merged) == Ids(placed) + Ids(kept);
    if id in Ids(placed) {
      PlacedIds(current, gap, proposed);
    } else {
      KeptIds(kept);
      var p :| p in kept && p.id == id;
    }
  }

  lemma {:induction false} KeptIds(kept: seq<WorkPackage>)
    ensures forall p | p in kept :: p.id in Ids(kept)
    ensures forall id | id in Ids(kept) :: exists p :: p in kept && p.id == id
  {
    forall p | p in kept ensures p.id in Ids(kept) {
      var k :| 0 <= k < |kept| && kept[k] == p;
      assert Ids(kept)[k] == p.id;
    }
    forall id | id in Ids(kept) ensures exists p :: p in kept && p.id == id {
      var k :| 0 <= k < |kept| && kept[k].id == id;
      assert kept[k] in kept;
    }
  }

  /** An earlier proposal adopted, by its gap, onto the id that a later one names. */
  ghost predicate Clash(current: seq<WorkPackage>, gap: Gap, proposed: seq<WorkPackage>, i: int, j: int) {
    && 0 <= i < j < |proposed|
    && ById(current, proposed[i].id).None? && ById(current, proposed[j].id).Some?
    && TargetId(current, gap, proposed[i]) == proposed[j].id
  }

  /** The merged ids are distinct exactly when no proposal clashes with a later one. */
  lemma {:induction false} DistinctUnlessClash(current: seq<WorkPackage>, gap: Gap, proposed: seq<WorkPackage>)
    requires Distinct(Ids(proposed))
    ensures Distinct(Ids(PlaceAll(current, gap, proposed))) <==> !exists i, j :: Clash(current, gap, proposed, i, j)
  {
    if proposed != [] {
      var n := |proposed| - 1;
      var front, last := proposed[..n], proposed[n];
      assert Ids(front) == Ids(proposed)[..n];
      DistinctUnlessClash(current, gap, front);
      ClashesOfFront(current, gap, proposed);
      PlacedIds(current, gap, front);
      NamedIsItsOwnTarget(current, gap, last);
      var before, after := PlaceAll(current, gap, front), PlaceAll(current, gap, proposed);
      if ById(current, last.id).Some? {
        assert Ids(after) == Ids(before) + [last.id];
        LastClashes(current, gap, proposed);
        SnocDistinct(Ids(before), last.id);
      } else if after != before {
        assert Ids(after) == Ids(before) + [TargetId(current, gap, last)];
        SnocDistinct(Ids(before), TargetId(current, gap, last));
      }
    }
  }

  lemma {:induction false} ClashesOfFront(current: seq<WorkPackage>, gap: Gap, proposed: seq<WorkPackage>)
    requires proposed != []
    ensures var n := |proposed| - 1;
            (exists i, j :: Clash(current, gap, proposed, i, j))
            <==> || (exists i, j :: Clash(current, gap, proposed[..n], i, j))
                 || (exists i :: Clash(current, gap, proposed, i, n))
  {
    var n := |proposed| - 1;
    if i, j :| Clash(current, gap, proposed, i, j) {
      assert j == n || Clash(current, gap, proposed[..n], i, j);
    }
    if i, j :| Clash(current, gap, proposed[..n], i, j) {
      assert Clash(current, gap, proposed, i, j);
    }
  }

  lemma {:induction false} NamedIsItsOwnTarget(current: seq<WorkPackage>, gap: Gap, p: WorkPackage)
    ensures ById(current, p.id).Some? ==> TargetId(current, gap, p) == p.id
    ensures ById(current, p.id).None? ==>
              TargetId(current, gap, p) == p.id || ById(current, TargetId(current, gap, p)).Some?
  {
    ByIdFinds(current, p.id);
    LastWhereFinds(current, (q: WorkPackage) => gap(q) == gap(p));
    var target := TargetId(current, gap, p);
    ByIdFinds(current, target);
  }

  lemma {:induction false} LastClashes(current: seq<WorkPackage>, gap: Gap, proposed: seq<WorkPackage>)
    requires Distinct(Ids(proposed)) && proposed != [] && ById(current, proposed[|proposed| - 1].id).Some?
    ensures var n := |proposed| - 1;
            (exists p :: p in proposed[..n] && TargetId(current, gap, p) == proposed[n].id)
            <==> exists i :: Clash(current, gap, proposed, i, n)
  {
    var n := |proposed| - 1;
    if p :| p in proposed[..n] && TargetId(current, gap, p) == proposed[n].id {
      var i :| 0 <= i < n && proposed[i] == p;
      assert Ids(proposed)[i] != Ids(proposed)[n];
      NamedIsItsOwnTarget(current, gap, p);
      assert Clash(current, gap, proposed, i, n);
    }
    if i :| Clash(current, gap, proposed, i, n) {
      assert proposed[i] in proposed[..n];
    }
  }

  // ---------------------------------------------------------------------------------------------
  // Whether the merge still loads
  // ---------------------------------------------------------------------------------------------

  /** The loader's check of every package's dependencies. */
  ghost predicate KnownDependencies(packages: seq<WorkPackage>) {
    forall p, d | p in packages && d in p.dependencies :: d in Ids(packages)
  }

  lemma {:induction false} GraphEntry(packages: seq<WorkPackage>, id: string)
    requires id in GraphOf(packages)
    ensures exists p :: p in packages && p.id == id && GraphOf(packages)[id] == p.dependencies
  {
    var front, last := packages[..|packages| - 1], packages[|packages| - 1];
    if last.id != id {
      GraphEntry(front, id);
    } else {
      assert last in packages;
    }
  }

  lemma {:induction false} KnownMeansClosed(packages: seq<WorkPackage>)
    requires Distinct(Ids(packages))
    ensures KnownDependencies(packages) <==> Closed(GraphOf(packages))
  {
    GraphNodes(packages);
    var g := GraphOf(packages);
    if KnownDependencies(packages) {
      forall n, d | n in g && d in g[n] ensures d in g {
        GraphEntry(packages, n);
      }
    } else {
      var p, d :| p in packages && d in p.dependencies && d !in Ids(packages);
      var k :| 0 <= k < |packages| && packages[k] == p;
      assert g[p.id] == p.dependencies;
    }
  }

  /** A proposal that leaves its dependencies empty, for a running package that has some. */
  predicate Borrows(current: seq<WorkPackage>, proposal: WorkPackage) {
    var named := ById(current, proposal.id);
    named.Some? && proposal.dependencies == [] && named.value.dependencies != []
  }

  /** A proposal under a new id that is taken for the running package that closes its gap. */
  predicate Adopted(current: seq<WorkPackage>, gap: Gap, proposal: WorkPackage) {
    ById(current, proposal.id).None? && ByGap(current, gap, gap(proposal)).Some?
  }

  /** A durable package that no proposal is about. */
  ghost predicate Kept(
    current: seq<WorkPackage>, proposed: seq<WorkPackage>, isDurable: string -> bool, gap: Gap, p: WorkPackage)
  {
    p in current && isDurable(p.id) && forall q | q in proposed :: TargetId(current, gap, q) != p.id
  }

  /** An id whose dependencies the proposals do not determine. */
  ghost predicate CarriedOver(
    current: seq<WorkPackage>, proposed: seq<WorkPackage>, isDurable: string -> bool, gap: Gap, id: string)
  {
    || (exists p :: p in proposed && p.id == id && Borrows(current, p))
    || (exists p :: p in proposed && TargetId(current, gap, p) == id && Adopted(current, gap, p))
    || (exists p: WorkPackage :: p.id == id && Kept(current, proposed, isDurable, gap, p))
  }

  /** Whether a proposal gets a place: one that names a running package always, any other only when no
      earlier one took it. */
  ghost predicate IsPlaced(current: seq<WorkPackage>, gap: Gap, proposed: seq<WorkPackage>, i: int) {
    && 0 <= i < |proposed|
    && (ById(current, proposed[i].id).Some?
        || forall j | 0 <= j < i :: TargetId(current, gap, proposed[j]) != TargetId(current, gap, proposed[i]))
  }

  lemma {:induction false} PlacedAre(current: seq<WorkPackage>, gap: Gap, proposed: seq<WorkPackage>)
    ensures forall r :: r in PlaceAll(current, gap, proposed)
                        <==> exists i :: && IsPlaced(current, gap, proposed, i)
                                         && r == Placement(current, gap, proposed[i])
  {
    if proposed != [] {
      var n := |proposed| - 1;
      var front := proposed[..n];
      PlacedAre(current, gap, front);
      PlacedIds(current, gap, front);
      assert forall i | 0 <= i < n :: IsPlaced(current, gap, proposed, i) <==> IsPlaced(current, gap, front, i);
      var before := PlaceAll(current, gap, front);
      assert IsPlaced(current, gap, proposed, n)
             <==> ById(current, proposed[n].id).Some? || TargetId(current, gap, proposed[n]) !in Ids(before) by {
        assert forall p | p in front :: exists j :: 0 <= j < n && proposed[j] == p;
      }
      forall r
        ensures r in PlaceAll(current, gap, proposed)
                <==> exists i :: IsPlaced(current, gap, proposed, i) && r == Placement(current, gap, proposed[i])
      {
        if i :| IsPlaced(current, gap, proposed, i) && r == Placement(current, gap, proposed[i]) {
          assert i == n || IsPlaced(current, gap, front, i);
        }
        if i :| IsPlaced(current, gap, front, i) && r == Placement(current, gap, front[i]) {
          assert IsPlaced(current, gap, proposed, i);
        }
      }
    }
  }

  lemma {:induction false} MergedAre(
    current: seq<WorkPackage>, proposed: seq<WorkPackage>, isDurable: string -> bool, gap: Gap,
    merged: seq<WorkPackage>)
    requires IsMerge(current, proposed, isDurable, gap, merged)
    ensures forall r :: r in merged
                        <==> r in PlaceAll(current, gap, proposed) || Kept(current, proposed, isDurable, gap, r)
  {
    var placed := PlaceAll(current, gap, proposed);
    assert merged == placed + merged[|placed|..];
    PlacedIds(current, gap, proposed);
  }

  /** Everywhere else the merge has the proposals' own dependencies. */
  lemma {:induction false} OthersAsProposed(
    current: seq<WorkPackage>, proposed: seq<WorkPackage>, isDurable: string -> bool, gap: Gap,
    merged: seq<WorkPackage>,
    id: string)
    requires IsMerge(current, proposed, isDurable, gap, merged) && Distinct(Ids(proposed))
    requires id in GraphOf(merged) && !CarriedOver(current, proposed, isDurable, gap, id)
    ensures id in GraphOf(proposed) && GraphOf(merged)[id] == GraphOf(proposed)[id]
  {
    GraphEntry(merged, id);
    var r :| r in merged && r.id == id && GraphOf(merged)[id] == r.dependencies;
    MergedAre(current, proposed, isDurable, gap, merged);
    PlacedAre(current, gap, proposed);
    var i :| IsPlaced(current, gap, proposed, i) && r == Placement(current, gap, proposed[i]);
    assert proposed[i] in proposed && TargetId(current, gap, proposed[i]) == id;
    ByIdFinds(current, proposed[i].id);
    PlacementOf(current, gap, proposed[i]);
    GraphNodes(proposed);
    assert GraphOf(proposed)[proposed[i].id] == proposed[i].dependencies;
  }

  lemma {:induction false} PlacementOf(current: seq<WorkPackage>, gap: Gap, p: WorkPackage)
    requires !Adopted(current, gap, p) && !Borrows(current, p)
    ensures Placement(current, gap, p).id == p.id && Placement(current, gap, p).dependencies == p.dependencies
  {
    ByIdFinds(current, p.id);
  }

  /** Every cycle that the merge closes passes through a borrowed dependency list, an adopted proposal or a
      kept durable package. */
  lemma {:induction false} EveryCycleIsCarriedOver(
    current: seq<WorkPackage>, proposed: seq<WorkPackage>, isDurable: string -> bool, gap: Gap,
    merged: seq<WorkPackage>,
    cycle: seq<string>)
    requires IsMerge(current, proposed, isDurable, gap, merged) && WellFormed(proposed)
    requires IsCycle(GraphOf(merged), cycle)
    ensures exists i :: 0 <= i < |cycle| && CarriedOver(current, proposed, isDurable, gap, cycle[i])
  {
    if forall i | 0 <= i < |cycle| :: !CarriedOver(current, proposed, isDurable, gap, cycle[i]) {
      forall i | 0 <= i < |cycle|
        ensures cycle[i] in GraphOf(proposed) && GraphOf(proposed)[cycle[i]] == GraphOf(merged)[cycle[i]]
      {
        OthersAsProposed(current, proposed, isDurable, gap, merged, cycle[i]);
      }
      forall i | 0 < i < |cycle| ensures Edge(GraphOf(proposed), cycle[i - 1], cycle[i]) {
        assert Edge(GraphOf(merged), cycle[i - 1], cycle[i]);
      }
      assert IsCycle(GraphOf(proposed), cycle);
    }
  }

  /** Every dependency that the merge leaves unknown is one of those packages', or names an adopted proposal
      by the id it no longer has. */
  lemma {:induction false} EveryUnknownIsCarriedOver(
    current: seq<WorkPackage>, proposed: seq<WorkPackage>, isDurable: string -> bool, gap: Gap,
    merged: seq<WorkPackage>,
    id: string, unknown: string)
    requires IsMerge(current, proposed, isDurable, gap, merged) && WellFormed(proposed)
    requires id in GraphOf(merged) && unknown in GraphOf(merged)[id] && unknown !in GraphOf(merged)
    ensures CarriedOver(current, proposed, isDurable, gap, id)
            || exists p :: p in proposed && p.id == unknown && Adopted(current, gap, p)
  {
    if !CarriedOver(current, proposed, isDurable, gap, id) {
      OthersAsProposed(current, proposed, isDurable, gap, merged, id);
      GraphEntry(proposed, unknown);
      var p :| p in proposed && p.id == unknown;
      MergeKeepsIdentities(current, proposed, isDurable, gap, merged);
      GraphNodes(merged);
      NamedIsItsOwnTarget(current, gap, p);
      assert TargetId(current, gap, p) != p.id;
    }
  }

  lemma {:induction false} NothingAdoptedNothingClashes(current: seq<WorkPackage>, gap: Gap, proposed: seq<WorkPackage>)
    requires Distinct(Ids(proposed)) && forall p | p in proposed :: !Adopted(current, gap, p)
    ensures Distinct(Ids(PlaceAll(current, gap, proposed)))
  {
    assert forall i | 0 <= i < |proposed| :: !Adopted(current, gap, proposed[i]);
    assert forall i, j :: !Clash(current, gap, proposed, i, j);
    DistinctUnlessClash(current, gap, proposed);
  }

  /** A merge that carries nothing over loads again. */
  lemma {:induction false} PlainMergeIsWellFormed(
    current: seq<WorkPackage>, proposed: seq<WorkPackage>, isDurable: string -> bool, gap: Gap,
    merged: seq<WorkPackage>)
    requires IsMerge(current, proposed, isDurable, gap, merged) && WellFormed(proposed)
    requires forall p | p in proposed :: !Borrows(current, p) && !Adopted(current, gap, p)
    requires forall p :: !Kept(current, proposed, isDurable, gap, p)
    ensures WellFormed(merged)
  {
    MergedAre(current, proposed, isDurable, gap, merged);
    var placed := PlaceAll(current, gap, proposed);
    assert merged == placed by {
      if |merged| > |placed| {
        assert merged[|placed|] in merged[|placed|..];
        PlacedIds(current, gap, proposed);
        assert Kept(current, proposed, isDurable, gap, merged[|placed|]);
      }
    }
    NothingAdoptedNothingClashes(current, gap, proposed);
    var g := GraphOf(merged);
    forall n, d | n in g && d in g[n] ensures d in g {
      if d !in g {
        EveryUnknownIsCarriedOver(current, proposed, isDurable, gap, merged, n, d);
      }
    }
    forall w ensures !IsCycle(g, w) {
      if IsCycle(g, w) {
        EveryCycleIsCarriedOver(current, proposed, isDurable, gap, merged, w);
      }
    }
  }

  // Exactly which inputs leave no dependency unknown.

  /** An id that is still there after the merge. */
  ghost predicate Survives(
    current: seq<WorkPackage>, proposed: seq<WorkPackage>, isDurable: string -> bool, gap: Gap, id: string)
  {
    (exists p :: p in proposed && TargetId(current, gap, p) == id)
      || (exists p :: p in current && isDurable(p.id) && p.id == id)
  }

  lemma {:induction false} SurvivorsAreMerged(
    current: seq<WorkPackage>, proposed: seq<WorkPackage>, isDurable: string -> bool, gap: Gap,
    merged: seq<WorkPackage>)
    requires IsMerge(current, proposed, isDurable, gap, merged)
    ensures forall id :: id in Ids(merged) <==> Survives(current, proposed, isDurable, gap, id)
  {
    MergeKeepsIdentities(current, proposed, isDurable, gap, merged);
    forall id | id in Ids(merged) ensures Survives(current, proposed, isDurable, gap, id) {
      MergeAddsNothingElse(current, proposed, isDurable, gap, merged, id);
    }
  }

  /** The merge knows all its dependencies exactly when those of the proposals that get a place, taken from
      the running package where they are empty, and those of the kept packages all survive. */
  lemma {:induction false} DependenciesKnownExactlyWhen(
    current: seq<WorkPackage>, proposed: seq<WorkPackage>, isDurable: string -> bool, gap: Gap,
    merged: seq<WorkPackage>)
    requires IsMerge(current, proposed, isDurable, gap, merged)
    ensures KnownDependencies(merged)
            <==>
            && (forall i, d | IsPlaced(current, gap, proposed, i)
               && d in Placement(current, gap, proposed[i]).dependencies ::
                  Survives(current, proposed, isDurable, gap, d))
            && (forall p, d | Kept(current, proposed, isDurable, gap, p) && d in p.dependencies ::
                  Survives(current, proposed, isDurable, gap, d))
    ensures Distinct(Ids(merged)) ==> (KnownDependencies(merged) <==> Closed(GraphOf(merged)))
  {
    if Distinct(Ids(merged)) {
      KnownMeansClosed(merged);
    }
    MergedAre(current, proposed, isDurable, gap, merged);
    PlacedAre(current, gap, proposed);
    SurvivorsAreMerged(current, proposed, isDurable, gap, merged);
  }

  /** A durable package whose dependency is neither proposed nor durable: the merge keeps it, and does not
      load. */
  lemma {:induction false} KeptPackageDangles(
    a: WorkPackage, b: WorkPackage, c: WorkPackage, isDurable: string -> bool, gap: Gap, merged: seq<WorkPackage>)
    requires a.dependencies == [b.id] && b.dependencies == [] && c.dependencies == []
    requires a.id != b.id && c.id != a.id && c.id != b.id && isDurable(a.id) && !isDurable(b.id)
    requires gap(c) != gap(a) && gap(c) != gap(b) && IsMerge([a, b], [c], isDurable, gap, merged)
    ensures WellFormed([a, b]) && WellFormed([c]) && !WellFormed(merged)
  {
    TwoPackages(a, b);
    Chain(GraphOf([a, b]), b.id, a.id);
    OnePackage(c);
    NewIsItsOwnTarget([a, b], gap, c);
    assert Kept([a, b], [c], isDurable, gap, a) && b.id in a.dependencies;
    assert !Survives([a, b], [c], isDurable, gap, b.id);
    DependenciesKnownExactlyWhen([a, b], [c], isDurable, gap, merged);
  }

  /** A proposal adopted for the running package that closes its gap: another that depends on it by its own
      id is left dangling. */
  lemma {:induction false} AdoptedProposalDangles(
    a: WorkPackage, c: WorkPackage, d: WorkPackage, isDurable: string -> bool, gap: Gap, merged: seq<WorkPackage>)
    requires a.dependencies == [] && c.dependencies == [] && d.dependencies == [c.id]
    requires a.id != c.id && a.id != d.id && c.id != d.id
    requires gap(c) == gap(a) && gap(d) != gap(a) && IsMerge([a], [c, d], isDurable, gap, merged)
    ensures WellFormed([a]) && WellFormed([c, d]) && !WellFormed(merged)
  {
    OnePackage(a);
    TwoPackages(c, d);
    Chain(GraphOf([c, d]), c.id, d.id);
    NewIsItsOwnTarget([a], gap, d);
    LastWhereFinds([a], (p: WorkPackage) => gap(p) == gap(c));
    ByIdFinds([a], c.id);
    assert a in [a] && TargetId([a], gap, c) == a.id;
    assert IsPlaced([a], gap, [c, d], 1) && c.id in Placement([a], gap, d).dependencies;
    assert !Survives([a], [c, d], isDurable, gap, c.id);
    DependenciesKnownExactlyWhen([a], [c, d], isDurable, gap, merged);
  }

  lemma {:induction false} NewIsItsOwnTarget(current: seq<WorkPackage>, gap: Gap, p: WorkPackage)
    requires forall q | q in current :: q.id != p.id && gap(q) != gap(p)
    ensures TargetId(current, gap, p) == p.id && Placement(current, gap, p) == p
  {
    ByIdFinds(current, p.id);
    LastWhereFinds(current, (q: WorkPackage) => gap(q) == gap(p));
  }

  lemma {:induction false} OnePackage(c: WorkPackage)
    requires c.dependencies == []
    ensures WellFormed([c])
  {
    assert [c][..0] == [] && GraphOf([c]) == map[c.id := []];
    assert [c.id][..0] == [];
    assert IsOrderOf(GraphOf([c]), [c.id]);
    OrderedHasNoCycle(GraphOf([c]), [c.id]);
  }

  /** The merged plan is not checked again, and it may be cyclic although both plans are fine: the
      dependencies a proposal leaves empty are taken from the running package. So any dependency that a
      proposal turns round, leaving the other list empty, becomes a cycle. */
  lemma {:induction false} MergeMayCloseACycle(a: WorkPackage, b: WorkPackage, gap: Gap)
    requires a.id != b.id && a.dependencies == [] && b.dependencies == [a.id]
    ensures var current, proposed := [a, b], [a.(dependencies := [b.id]), b.(dependencies := [])];
            && WellFormed(current) && WellFormed(proposed)
            && HasCycle(GraphOf(PlaceAll(current, gap, proposed)))
  {
    var a', b' := a.(dependencies := [b.id]), b.(dependencies := []);
    TwoPackages(a, b);
    TwoPackages(a', b');
    Chain(GraphOf([a, b]), a.id, b.id);
    Chain(GraphOf([a', b']), b.id, a.id);
    MergeOfTwo(a, b, a', b', gap);
    TwoPackages(Updated(a, a'), Updated(b, b'));
    BothWays(GraphOf([Updated(a, a'), Updated(b, b')]), a.id, b.id);
  }

  lemma {:induction false} BothWays(g: Graph<string>, x: string, y: string)
    requires Edge(g, x, y) && Edge(g, y, x)
    ensures HasCycle(g)
  {
    assert IsCycle(g, [x, y, x]);
  }

  lemma {:induction false} MergeOfTwo(a: WorkPackage, b: WorkPackage, a': WorkPackage, b': WorkPackage, gap: Gap)
    requires a.id == a'.id != b.id == b'.id
    ensures PlaceAll([a, b], gap, [a', b']) == [Updated(a, a'), Updated(b, b')]
  {
    assert [a, b][..1] == [a] && [a', b'][..1] == [a'] && [a'][..0] == [];
    ByIdFinds([a, b], a.id);
    ByIdFinds([a, b], b.id);
    assert ById([a, b], a.id) == Some(a) && ById([a, b], b.id) == Some(b);
    assert PlaceAll([a, b], gap, [a']) == [Updated(a, a')];
  }

  lemma {:induction false} Chain(g: Graph<string>, x: string, y: string)
    requires x != y && g == map[x := [], y := [x]]
    ensures Closed(g) && !HasCycle(g)
  {
    var order := [x, y];
    assert order[..1] == [x];
    forall i, d | 0 <= i < |order| && Edge(g, order[i], d) ensures d in order[..i] {
      assert i == 1 && d == x;
    }
    assert IsOrderOf(g, order);
    OrderedHasNoCycle(g, order);
  }

  lemma {:induction false} TwoPackages(p: WorkPackage, q: WorkPackage)
    requires p.id != q.id
    ensures GraphOf([p, q]) == map[p.id := p.dependencies, q.id := q.dependencies]
    ensures Distinct(Ids([p, q]))
  {
    assert [p, q][..1] == [p] && [p][..0] == [];
    assert GraphOf([p]) == map[p.id := p.dependencies];
    assert GraphOf([p, q]) == GraphOf([p])[q.id := q.dependencies];
    assert Ids([p, q]) == [p.id, q.id];
  }
}
