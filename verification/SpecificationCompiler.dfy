/** From a specification to its filled tasks: grouping, cutting, contracts, sorting, partition and
    distribution, the whole way. */
module SpecificationCompiler {
  import opened Text
  import opened Graph
  import opened TaskPartition
  import opened TaskIdentity

  // ---------------------------------------------------------------------------------------------
  // Orders of a list
  // ---------------------------------------------------------------------------------------------

  function Map<A, B>(f: A -> B, s: seq<A>): (t: seq<B>)
    ensures |t| == |s|
    ensures forall i | 0 <= i < |s| :: t[i] == f(s[i])
  {
    if s == [] then [] else [f(s[0])] + Map(f, s[1..])
  }

  lemma {:induction false} MapAppend<A, B>(f: A -> B, a: seq<A>, b: seq<A>)
    ensures Map(f, a + b) == Map(f, a) + Map(f, b)
  {
  }

  lemma {:induction false} Without<A>(s: seq<A>, i: nat)
    requires i < |s|
    ensures multiset(s) == multiset(s[..i] + s[i + 1..]) + multiset{s[i]}
  {
    assert s == s[..i] + [s[i]] + s[i + 1..];
  }

  lemma {:induction false} TakeOut<A>(a: seq<A>, b: seq<A>) returns (i: nat)
    requires a != [] && multiset(a) == multiset(b)
    ensures i < |b| && b[i] == a[0] && multiset(a[1..]) == multiset(b[..i] + b[i + 1..])
  {
    TailIsLeft(a);
    i := IndexIn(b, a[0]);
    WhatIsLeft(b, i);
  }

  lemma {:induction false} IndexIn<A>(s: seq<A>, x: A) returns (i: nat)
    requires x in multiset(s)
    ensures i < |s| && s[i] == x
  {
    assert x in s;
    i :| 0 <= i < |s| && s[i] == x;
  }

  lemma {:induction false} TailIsLeft<A>(s: seq<A>)
    requires s != []
    ensures s[0] in multiset(s) && multiset(s[1..]) == multiset(s) - multiset{s[0]}
  {
    WhatIsLeft(s, 0);
    assert s[..0] + s[1..] == s[1..];
  }

  lemma {:induction false} WhatIsLeft<A>(s: seq<A>, i: nat)
    requires i < |s|
    ensures multiset(s[..i] + s[i + 1..]) == multiset(s) - multiset{s[i]}
  {
    Without(s, i);
  }

  lemma {:induction false} MapPermutes<A, B>(f: A -> B, a: seq<A>, b: seq<A>)
    requires multiset(a) == multiset(b)
    ensures multiset(Map(f, a)) == multiset(Map(f, b))
  {
    if a == [] {
      assert b == [] by { assert |multiset(b)| == |b|; }
    } else {
      var i := TakeOut(a, b);
      MapPermutes(f, a[1..], b[..i] + b[i + 1..]);
      MapWithout(f, b, i);
      MapWithout(f, a, 0);
      assert a[..0] + a[1..] == a[1..];
    }
  }

  lemma {:induction false} MapWithout<A, B>(f: A -> B, s: seq<A>, i: nat)
    requires i < |s|
    ensures multiset(Map(f, s)) == multiset(Map(f, s[..i] + s[i + 1..])) + multiset{f(s[i])}
  {
    MapSkips(f, s, i);
    Without(Map(f, s), i);
  }

  lemma {:induction false} MapSkips<A, B>(f: A -> B, s: seq<A>, i: nat)
    requires i < |s|
    ensures Map(f, s[..i] + s[i + 1..]) == Map(f, s)[..i] + Map(f, s)[i + 1..]
  {
    MapSplits(f, s, i);
    MapSplits(f, s, i + 1);
    MapAppend(f, s[..i], s[i + 1..]);
  }

  lemma {:induction false} MapSplits<A, B>(f: A -> B, s: seq<A>, i: nat)
    requires i <= |s|
    ensures Map(f, s[..i]) == Map(f, s)[..i] && Map(f, s[i..]) == Map(f, s)[i..]
  {
    assert s == s[..i] + s[i..];
    MapAppend(f, s[..i], s[i..]);
  }

  lemma {:induction false} FlatPermutes<A>(a: seq<seq<A>>, b: seq<seq<A>>)
    requires multiset(a) == multiset(b)
    ensures multiset(Flat(a)) == multiset(Flat(b))
  {
    if a == [] {
      assert b == [] by { assert |multiset(b)| == |b|; }
    } else {
      var i := TakeOut(a, b);
      FlatPermutes(a[1..], b[..i] + b[i + 1..]);
      FlatWithout(b, i);
    }
  }

  lemma {:induction false} FlatWithout<A>(b: seq<seq<A>>, i: nat)
    requires i < |b|
    ensures multiset(Flat(b)) == multiset(b[i]) + multiset(Flat(b[..i] + b[i + 1..]))
  {
    var front, back := b[..i], b[i + 1..];
    assert b == front + b[i..] && b[i..][1..] == back;
    FlatAppend(front, b[i..]);
    FlatAppend(front, back);
    assert Flat(b[i..]) == b[i] + Flat(back);
  }

  function MapEach<A, B>(f: A -> B, parts: seq<seq<A>>): (t: seq<seq<B>>)
    ensures |t| == |parts|
    ensures forall i | 0 <= i < |parts| :: t[i] == Map(f, parts[i])
  {
    if parts == [] then [] else [Map(f, parts[0])] + MapEach(f, parts[1..])
  }

  lemma {:induction false} MapFlat<A, B>(f: A -> B, parts: seq<seq<A>>)
    ensures Map(f, Flat(parts)) == Flat(MapEach(f, parts))
  {
    if parts != [] {
      MapFlat(f, parts[1..]);
      MapAppend(f, parts[0], Flat(parts[1..]));
    }
  }

  // ---------------------------------------------------------------------------------------------
  // The whole way
  // ---------------------------------------------------------------------------------------------

  function RequirementLists(tasks: seq<Task>): seq<seq<string>> {
    Map(RequirementsOf, tasks)
  }

  function RequirementsOf(t: Task): seq<string> {
    t.requirements
  }

  function IdOfRequirement(r: Requirement): string {
    r.id
  }

  function IdOfTask(t: Task): string {
    t.id
  }

  lemma {:induction false} ListsOfEntries(entries: seq<Entry>)
    ensures RequirementLists(TasksOf(entries)) == MapEach(IdOfRequirement, Parts(entries))
  {
    forall i | 0 <= i < |entries|
      ensures RequirementLists(TasksOf(entries))[i] == MapEach(IdOfRequirement, Parts(entries))[i]
    {
      assert RequirementLists(TasksOf(entries))[i] == Map(IdOfRequirement, entries[i].requirements);
    }
  }

  /** Whatever order the tasks are put in, their requirement lists together are the specification's. */
  lemma {:induction false} TasksListTheRequirements(
    requirements: seq<Requirement>, safe: string -> string, tasks: seq<Task>)
    requires multiset(tasks) == multiset(TasksOf(Entries(requirements, safe)))
    ensures multiset(Flat(RequirementLists(tasks))) == multiset(RequirementIds(requirements))
  {
    var entries := Entries(requirements, safe);
    TasksPartitionTheRequirements(requirements, safe);
    MapPermutes(IdOfRequirement, Flat(Parts(entries)), requirements);
    assert Map(IdOfRequirement, requirements) == RequirementIds(requirements);
    MapFlat(IdOfRequirement, Parts(entries));
    ListsOfEntries(entries);
    MapPermutes(RequirementsOf, tasks, TasksOf(entries));
    FlatPermutes(RequirementLists(tasks), RequirementLists(TasksOf(entries)));
  }

  lemma {:induction false} OrderKeepsParticipants(c: Criterion, tasks: seq<Task>, sorted: seq<Task>)
    requires multiset(tasks) == multiset(sorted) && Participants(c, tasks) != []
    ensures Participants(c, sorted) != []
  {
    ParticipantsFind(c, tasks);
    ParticipantsFind(c, sorted);
    var t := Participants(c, tasks)[0];
    assert t in Participants(c, tasks) && t in multiset(tasks);
    assert t in multiset(sorted) && t in sorted;
  }

  /** Tasks that differ only in what was handed out. */
  ghost predicate SameWork(tasks: seq<Task>, filled: seq<Task>) {
    |filled| == |tasks| && forall i | 0 <= i < |tasks| ::
      filled[i].id == tasks[i].id && filled[i].group == tasks[i].group
        && filled[i].requirements == tasks[i].requirements
  }

  lemma {:induction false} SameWorkSameParticipants(c: Criterion, tasks: seq<Task>, filled: seq<Task>)
    requires SameWork(tasks, filled)
    ensures |Participants(c, filled)| == |Participants(c, tasks)|
  {
    if tasks != [] {
      SameWorkSameParticipants(c, tasks[1..], filled[1..]);
    }
  }

  /** A criterion of one task stands once on that task's list and on no other; one of several tasks is on no
      list and each of them, and no other, has one facet of it. */
  ghost predicate HandedOutOnce(c: Criterion, tasks: seq<Task>, t: Task) {
    var alone := |Participants(c, tasks)| == 1;
    && Occurrences(t.acceptanceCriteria, c.id) == (if alone && Participates(c, t) then 1 else 0)
    && Occurrences(t.facets, c.id) == (if !alone && Participates(c, t) then 1 else 0)
  }

  function CriterionIds(criteria: seq<Criterion>): seq<string> {
    seq(|criteria|, i requires 0 <= i < |criteria| => criteria[i].id)
  }

  lemma {:induction false} AssignmentsFit(criteria: seq<Criterion>, tasks: seq<Task>, assignments: seq<Assignment>)
    requires Made(criteria, tasks, assignments)
    ensures forall a | a in assignments && a.level == TaskLevel :: a.owner in TaskIds(tasks)
    ensures forall a, id | a in assignments && id in a.participatingTasks :: id in TaskIds(tasks)
  {
    forall i | 0 <= i < |criteria|
      ensures forall id | id in assignments[i].participatingTasks :: id in TaskIds(tasks)
      ensures assignments[i].level == TaskLevel ==> assignments[i].owner in assignments[i].participatingTasks
    {
      var p := Participants(criteria[i], tasks);
      ParticipantsFind(criteria[i], tasks);
      assert assignments[i].participatingTasks == TaskIds(p) && TaskIds(p)[0] == p[0].id;
      forall k | 0 <= k < |p| ensures TaskIds(p)[k] in TaskIds(tasks) {
        assert p[k] in p;
        var j :| 0 <= j < |tasks| && tasks[j] == p[k];
        assert TaskIds(tasks)[j] == p[k].id;
      }
    }
  }

  lemma {:induction false} EachTaskHasItsShare(
    criteria: seq<Criterion>, tasks: seq<Task>, assignments: seq<Assignment>, filled: seq<Task>, k: nat, i: nat)
    requires Distinct(TaskIds(tasks)) && Distinct(CriterionIds(criteria))
    requires Made(criteria, tasks, assignments) && Filled(tasks, assignments, filled)
    requires k < |criteria| && i < |tasks| && tasks[i].acceptanceCriteria == [] && tasks[i].facets == []
    ensures HandedOutOnce(criteria[k], filled, filled[i])
  {
    forall j | 0 <= j < |criteria| && j != k ensures criteria[j].id != criteria[k].id {
      assert CriterionIds(criteria)[j] != CriterionIds(criteria)[k];
    }
    forall j | 0 <= j < i ensures tasks[j].id != tasks[i].id {
      assert TaskIds(tasks)[j] != TaskIds(tasks)[i];
    }
    GivenFromNothing(tasks[i], filled[i], OwnedBy(assignments, tasks[i].id), FacetsFor(assignments, tasks[i].id));
    EachCriterionIsHandedOutOnce(criteria, tasks, assignments, k, tasks[i]);
    FilledIsSameWork(tasks, assignments, filled);
    SameWorkSameParticipants(criteria[k], tasks, filled);
  }

  lemma {:induction false} GivenFromNothing(t: Task, u: Task, own: seq<string>, facets: seq<string>)
    requires t.acceptanceCriteria == [] && t.facets == [] && u == Give(t, own, facets)
    ensures u.acceptanceCriteria == own && u.facets == facets
    ensures forall c :: Participates(c, u) == Participates(c, t)
  {
  }

  lemma {:induction false} FilledIsSameWork(tasks: seq<Task>, assignments: seq<Assignment>, filled: seq<Task>)
    requires Filled(tasks, assignments, filled)
    ensures SameWork(tasks, filled)
  {
  }

  lemma {:induction false} OrderKeepsIds(tasks: seq<Task>, unsorted: seq<Task>, filled: seq<Task>)
    requires multiset(tasks) == multiset(unsorted) && SameWork(tasks, filled)
    ensures multiset(TaskIds(filled)) == multiset(TaskIds(unsorted))
  {
    MapPermutes(IdOfTask, tasks, unsorted);
    assert TaskIds(unsorted) == Map(IdOfTask, unsorted) && TaskIds(filled) == Map(IdOfTask, tasks);
  }

  /** Why there are no tasks: a contract that does not parse, or a criterion nobody works on. */
  datatype CompileError = InvalidContract(id: string) | AcceptanceWithoutTask(criterion: string)

  method ParseContracts(tasks: seq<Task>) returns (r: Result<(), CompileError>)
    ensures r.Ok? <==> forall t | t in tasks :: IsContract(t)
  {
    for i := 0 to |tasks|
      invariant forall j | 0 <= j < i :: IsContract(tasks[j])
    {
      if !IsContract(tasks[i]) {
        assert tasks[i] in tasks;
        return Err(InvalidContract(tasks[i].id));
      }
    }
    r := Ok(());
  }

  /** For each task of a list its dependencies: all tasks of the groups that its group depends on. */
  ghost predicate DependOnGroups(tasks: seq<Task>, groups: Graph<string>, dependencies: seq<seq<string>>) {
    && |dependencies| == |tasks|
    && forall i | 0 <= i < |tasks| ::
         Distinct(dependencies[i]) && forall d :: DependsExactly(tasks, groups, tasks[i], dependencies[i], d)
  }

  ghost predicate DependsExactly(
    tasks: seq<Task>, groups: Graph<string>, t: Task, dependencies: seq<string>, d: string)
  {
    d in dependencies <==> t.group in groups && exists u :: u in tasks && u.id == d && u.group in groups[t.group]
  }

  /** The graph of the returned dependencies. */
  ghost predicate IsGraphOf(tasks: seq<Task>, dependencies: seq<seq<string>>, g: Graph<string>) {
    && |dependencies| == |tasks|
    && (forall id :: id in g <==> id in TaskIds(tasks))
    && (forall id, d | id in g ::
          d in g[id] <==> exists i :: 0 <= i < |tasks| && tasks[i].id == id && d in dependencies[i])
  }

  /** The whole compilation. `sort` stands for the sort of the tasks by id, of which only that it loses and
      adds nothing matters. For sound references it succeeds exactly when all contracts parse; the filled
      tasks hold each requirement once, and each id tells its group; and when the task ids and the criterion
      ids are distinct, each criterion is handed out exactly once. Each task depends on exactly the tasks of
      the groups that its group depends on, without a cycle when the groups have none. */
  method CompileTasks(
    requirements: seq<Requirement>, criteria: seq<Criterion>, groups: Graph<string>, safe: string -> string,
    sort: seq<Task> -> seq<Task>)
    returns (r: Result<seq<Task>, CompileError>, dependencies: seq<seq<string>>)
    requires multiset(sort(TasksOf(Entries(requirements, safe)))) == multiset(TasksOf(Entries(requirements, safe)))
    ensures SoundReferences(requirements, criteria) ==>
              (r.Ok? <==> forall t | t in TasksOf(Entries(requirements, safe)) :: IsContract(t))
    ensures r.Ok? ==> multiset(Flat(RequirementLists(r.value))) == multiset(RequirementIds(requirements))
    ensures r.Ok? ==> IdTellsGroup(r.value)
    ensures r.Ok? ==> multiset(TaskIds(r.value)) == multiset(TaskIds(TasksOf(Entries(requirements, safe))))
    ensures r.Ok? && Distinct(TaskIds(r.value)) && Distinct(CriterionIds(criteria)) ==>
              forall c, t | c in criteria && t in r.value :: HandedOutOnce(c, r.value, t)
    ensures r.Ok? ==> DependOnGroups(r.value, groups, dependencies)
    ensures r.Ok? && Closed(groups) && !HasCycle(groups) ==>
              forall g | IsGraphOf(r.value, dependencies, g) :: !HasCycle(g)
  {
    dependencies := [];
    var buckets := GroupRequirements(requirements);
    var unsorted := TasksOf(AllEntries(buckets, safe));
    var parsed := ParseContracts(unsorted);
    if parsed.Err? {
      return Err(parsed.error), [];
    }
    var tasks := sort(unsorted);
    var partition := PartitionAcceptanceCriteria(criteria, tasks);
    if partition.Err? {
      SoundReferencesAreServed(requirements, criteria, safe, tasks);
      return Err(AcceptanceWithoutTask(partition.error)), [];
    }
    AssignmentsFit(criteria, tasks, partition.value);
    var filled := Distribute(tasks, partition.value);
    dependencies := DependenciesOfAll(unsorted, tasks, filled, groups);
    r := Ok(filled);
    assert RequirementLists(filled) == RequirementLists(tasks);
    TasksListTheRequirements(requirements, safe, tasks);
    FilledTellsGroup(requirements, safe, tasks, partition.value, filled);
    if Distinct(TaskIds(filled)) && Distinct(CriterionIds(criteria)) {
      SharesAreComplete(requirements, criteria, safe, tasks, partition.value, filled);
    }
    if Closed(groups) && !HasCycle(groups) {
      forall g | IsGraphOf(filled, dependencies, g) ensures !HasCycle(g) {
        ReturnedGraphIsAcyclic(filled, groups, dependencies, g);
      }
    }
  }

  /** The groups are collected before the tasks are sorted and filled. */
  method DependenciesOfAll(unsorted: seq<Task>, tasks: seq<Task>, filled: seq<Task>, groups: Graph<string>)
    returns (dependencies: seq<seq<string>>)
    requires multiset(tasks) == multiset(unsorted) && SameWork(tasks, filled)
    ensures DependOnGroups(filled, groups, dependencies)
  {
    var byGroup := CollectGroups(unsorted);
    dependencies := [];
    for i := 0 to |filled|
      invariant |dependencies| == i
      invariant forall j | 0 <= j < i ::
                  && Distinct(dependencies[j])
                  && forall d :: DependsExactly(filled, groups, filled[j], dependencies[j], d)
    {
      var some := DependOn(unsorted, byGroup, groups, filled[i]);
      forall d ensures DependsExactly(filled, groups, filled[i], some, d) {
        SameTasksAreThere(unsorted, tasks, filled, groups, filled[i], d);
      }
      dependencies := dependencies + [some];
    }
  }

  lemma {:induction false} SameTasksAreThere(
    unsorted: seq<Task>, tasks: seq<Task>, filled: seq<Task>, groups: Graph<string>, t: Task, d: string)
    requires multiset(tasks) == multiset(unsorted) && SameWork(tasks, filled)
    ensures t.group in groups ==>
              ((exists u :: u in unsorted && u.id == d && u.group in groups[t.group])
               <==> exists u :: u in filled && u.id == d && u.group in groups[t.group])
  {
    if t.group in groups {
      if u :| u in unsorted && u.id == d && u.group in groups[t.group] {
        assert u in multiset(unsorted) && u in tasks;
        var i :| 0 <= i < |tasks| && tasks[i] == u;
        assert filled[i] in filled && filled[i].id == d && filled[i].group in groups[t.group];
      }
      if u :| u in filled && u.id == d && u.group in groups[t.group] {
        var i :| 0 <= i < |filled| && filled[i] == u;
        assert tasks[i] in multiset(tasks) && tasks[i] in unsorted;
        assert tasks[i].id == d && tasks[i].group in groups[t.group];
      }
    }
  }

  lemma {:induction false} ReturnedGraphIsAcyclic(
    tasks: seq<Task>, groups: Graph<string>, dependencies: seq<seq<string>>, g: Graph<string>)
    requires DependOnGroups(tasks, groups, dependencies) && IsGraphOf(tasks, dependencies, g) && IdTellsGroup(tasks)
    requires Closed(groups) && !HasCycle(groups)
    ensures !HasCycle(g)
  {
    forall id, d | id in g
      ensures d in g[id] <==> exists t :: t in tasks && t.id == id && d in Dependencies(tasks, groups, t)
    {
      forall i | 0 <= i < |tasks| ensures d in dependencies[i] <==> d in Dependencies(tasks, groups, tasks[i]) {
        DependenciesAreExactly(tasks, groups, tasks[i], d);
        assert DependsExactly(tasks, groups, tasks[i], dependencies[i], d);
      }
      if t :| t in tasks && t.id == id && d in Dependencies(tasks, groups, t) {
        var i :| 0 <= i < |tasks| && tasks[i] == t;
        assert d in dependencies[i];
      }
    }
    TaskGraphIsAcyclic(tasks, groups, g);
  }

  lemma {:induction false} FilledTellsGroup(
    requirements: seq<Requirement>, safe: string -> string, tasks: seq<Task>, assignments: seq<Assignment>,
    filled: seq<Task>)
    requires multiset(tasks) == multiset(TasksOf(Entries(requirements, safe))) && Filled(tasks, assignments, filled)
    requires forall t | t in TasksOf(Entries(requirements, safe)) :: IsContract(t)
    ensures IdTellsGroup(filled)
    ensures multiset(TaskIds(filled)) == multiset(TaskIds(TasksOf(Entries(requirements, safe))))
  {
    var unsorted := TasksOf(Entries(requirements, safe));
    PlainGroupsAreTold(requirements, safe);
    FilledIsSameWork(tasks, assignments, filled);
    OrderKeepsIds(tasks, unsorted, filled);
    OrderTellsGroup(tasks, unsorted);
    SameWorkTellsGroup(tasks, filled);
  }

  lemma {:induction false} OrderTellsGroup(tasks: seq<Task>, unsorted: seq<Task>)
    requires multiset(tasks) == multiset(unsorted) && IdTellsGroup(unsorted)
    ensures IdTellsGroup(tasks)
  {
    forall t | t in tasks ensures t in unsorted {
      assert t in multiset(tasks);
    }
  }

  lemma {:induction false} SameWorkTellsGroup(tasks: seq<Task>, filled: seq<Task>)
    requires SameWork(tasks, filled) && IdTellsGroup(tasks)
    ensures IdTellsGroup(filled)
  {
    forall x, y | x in filled && y in filled && x.id == y.id ensures x.group == y.group {
      var i :| 0 <= i < |filled| && filled[i] == x;
      var j :| 0 <= j < |filled| && filled[j] == y;
      assert tasks[i] in tasks && tasks[j] in tasks;
    }
  }

  lemma {:induction false} SoundReferencesAreServed(
    requirements: seq<Requirement>, criteria: seq<Criterion>, safe: string -> string, tasks: seq<Task>)
    requires multiset(tasks) == multiset(TasksOf(Entries(requirements, safe)))
    ensures SoundReferences(requirements, criteria) ==> forall c | c in criteria :: Participants(c, tasks) != []
  {
    if SoundReferences(requirements, criteria) {
      forall c | c in criteria ensures Participants(c, tasks) != [] {
        PartitionNeverThrows(requirements, criteria, safe, c);
        OrderKeepsParticipants(c, TasksOf(Entries(requirements, safe)), tasks);
      }
    }
  }

  lemma {:induction false} SharesAreComplete(
    requirements: seq<Requirement>, criteria: seq<Criterion>, safe: string -> string, tasks: seq<Task>,
    assignments: seq<Assignment>, filled: seq<Task>)
    requires multiset(tasks) == multiset(TasksOf(Entries(requirements, safe)))
    requires Distinct(TaskIds(filled)) && Distinct(CriterionIds(criteria))
    requires Made(criteria, tasks, assignments) && Filled(tasks, assignments, filled)
    ensures forall c, t | c in criteria && t in filled :: HandedOutOnce(c, filled, t)
  {
    assert TaskIds(filled) == TaskIds(tasks);
    forall c, t | c in criteria && t in filled ensures HandedOutOnce(c, filled, t) {
      var k :| 0 <= k < |criteria| && criteria[k] == c;
      var i :| 0 <= i < |filled| && filled[i] == t;
      assert tasks[i] in multiset(tasks);
      var j :| 0 <= j < |Entries(requirements, safe)| && tasks[i] == TasksOf(Entries(requirements, safe))[j];
      EachTaskHasItsShare(criteria, tasks, assignments, filled, k, i);
    }
  }
}
