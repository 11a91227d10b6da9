/** The specification compiler: requirements grouped and cut into tasks, acceptance criteria place to
    task, cluster or project, and the task graph lifted from the group graph. */
module TaskPartition {
  import opened Text
  import opened Graph

  datatype Requirement = Requirement(id: string, group: string, family: string, owner: string)

  datatype Criterion = Criterion(id: string, requirementRefs: seq<string>)

  const CHUNK := 8

  // ---------------------------------------------------------------------------------------------
  // Grouping and chunking
  // ---------------------------------------------------------------------------------------------

  datatype Bucket = Bucket(key: string, requirements: seq<Requirement>)

  function Key(r: Requirement): string {
    Join([r.group, r.family, r.owner], '|')
  }

  function GroupOfKey(key: string): string {
    Split(key, '|')[0]
  }

  /** A requirement put into the bucket of its key; a new key opens a bucket at the end. */
  function Put(buckets: seq<Bucket>, r: Requirement): seq<Bucket> {
    if buckets == [] then [Bucket(Key(r), [r])]
    else if buckets[0].key == Key(r) then [Bucket(Key(r), buckets[0].requirements + [r])] + buckets[1..]
    else [buckets[0]] + Put(buckets[1..], r)
  }

  function Grouped(requirements: seq<Requirement>): seq<Bucket> {
    if requirements == [] then []
    else Put(Grouped(requirements[..|requirements| - 1]), requirements[|requirements| - 1])
  }

  method GroupRequirements(requirements: seq<Requirement>) returns (buckets: seq<Bucket>)
    ensures buckets == Grouped(requirements)
  {
    buckets := [];
    assert requirements[..0] == [];
    for i := 0 to |requirements|
      invariant buckets == Grouped(requirements[..i])
    {
      var r := requirements[i];
      var k := 0;
      while k < |buckets| && buckets[k].key != Key(r)
        invariant 0 <= k <= |buckets|
        invariant forall j | 0 <= j < k :: buckets[j].key != Key(r)
      {
        k := k + 1;
      }
      PutAt(buckets, r, k);
      buckets := if k < |buckets| then buckets[k := Bucket(Key(r), buckets[k].requirements + [r])]
                 else buckets + [Bucket(Key(r), [r])];
      assert requirements[..i + 1][..i] == requirements[..i];
    }
    assert requirements[..|requirements|] == requirements;
  }

  lemma {:induction false} PutAt(buckets: seq<Bucket>, r: Requirement, k: nat)
    requires k <= |buckets| && (forall j | 0 <= j < k :: buckets[j].key != Key(r))
    requires k < |buckets| ==> buckets[k].key == Key(r)
    ensures Put(buckets, r) == if k < |buckets| then buckets[k := Bucket(Key(r), buckets[k].requirements + [r])]
                               else buckets + [Bucket(Key(r), [r])]
  {
    if k > 0 {
      PutAt(buckets[1..], r, k - 1);
    }
  }

  function Slice<T>(s: seq<T>, i: nat): seq<T>
    requires i * CHUNK <= |s|
  {
    s[i * CHUNK..if |s| < i * CHUNK + CHUNK then |s| else i * CHUNK + CHUNK]
  }

  function Chunks<T>(s: seq<T>): seq<seq<T>> {
    seq((|s| + CHUNK - 1) / CHUNK, i requires 0 <= i < (|s| + CHUNK - 1) / CHUNK => Slice(s, i))
  }

  function Flat<T>(parts: seq<seq<T>>): seq<T> {
    if parts == [] then [] else parts[0] + Flat(parts[1..])
  }

  lemma {:induction false} FlatAppend<T>(a: seq<seq<T>>, b: seq<seq<T>>)
    ensures Flat(a + b) == Flat(a) + Flat(b)
  {
    if a == [] {
      assert a + b == b;
    } else {
      FlatAppend(a[1..], b);
      assert (a + b)[1..] == a[1..] + b;
      var head, rest, more := a[0], Flat(a[1..]), Flat(b);
      assert head + (rest + more) == (head + rest) + more;
    }
  }

  lemma {:induction false} SliceShift<T>(s: seq<T>, i: nat)
    requires (i + 1) * CHUNK <= |s|
    ensures Slice(s, i + 1) == Slice(s[CHUNK..], i)
  {
    var rest, lo := s[CHUNK..], i * CHUNK;
    var hi := if |rest| < lo + CHUNK then |rest| else lo + CHUNK;
    assert rest[lo..hi] == s[lo + CHUNK..hi + CHUNK];
  }

  lemma {:induction false} FirstChunk<T>(s: seq<T>)
    requires |s| > CHUNK
    ensures Chunks(s) == [s[..CHUNK]] + Chunks(s[CHUNK..])
  {
    var all, rest := Chunks(s), Chunks(s[CHUNK..]);
    assert |all| == |rest| + 1 && all[0] == s[..CHUNK];
    forall i | 0 <= i < |rest| ensures all[i + 1] == rest[i] {
      SliceShift(s, i);
    }
  }

  lemma {:induction false} FlatCons<T>(first: seq<T>, rest: seq<seq<T>>)
    ensures Flat([first] + rest) == first + Flat(rest)
  {
    assert ([first] + rest)[1..] == rest;
  }

  lemma {:induction false} ChunksAreSlices<T>(s: seq<T>)
    ensures Flat(Chunks(s)) == s
    ensures forall c | c in Chunks(s) :: 1 <= |c| <= CHUNK
    decreases |s|
  {
    if |s| > CHUNK {
      ChunksAreSlices(s[CHUNK..]);
      FirstChunk(s);
      FlatCons(s[..CHUNK], Chunks(s[CHUNK..]));
    } else if s != [] {
      assert |Chunks(s)| == 1 && Chunks(s)[0] == s;
      assert Chunks(s)[1..] == [];
    }
  }

  datatype Entry = Entry(key: string, requirements: seq<Requirement>, id: string)

  /** The text of a task id; `safe` spells a family for use in one. Note that the owner is not in it. */
  function TaskId(key: string, index: nat, several: bool, safe: string -> string): string {
    var parts := Split(key, '|');
    "T-" + parts[0] + "-" + safe(if |parts| > 1 then parts[1] else "")
      + (if several then "-" + TwoDigits(index + 1) else "")
  }

  function TwoDigits(n: nat): string {
    if n < 10 then ['0', '0' + n as char]
    else if n < 100 then ['0' + (n / 10) as char, '0' + (n % 10) as char]
    else TwoDigits(n / 10) + ['0' + (n % 10) as char]
  }

  function EntriesOf(bucket: Bucket, safe: string -> string): seq<Entry> {
    var chunks := Chunks(bucket.requirements);
    seq(|chunks|, i requires 0 <= i < |chunks| => Entry(bucket.key, chunks[i],
      TaskId(bucket.key, i, |chunks| > 1, safe)))
  }

  function AllEntries(buckets: seq<Bucket>, safe: string -> string): seq<Entry> {
    if buckets == [] then [] else EntriesOf(buckets[0], safe) + AllEntries(buckets[1..], safe)
  }

  function Entries(requirements: seq<Requirement>, safe: string -> string): seq<Entry> {
    AllEntries(Grouped(requirements), safe)
  }

  function Parts(entries: seq<Entry>): seq<seq<Requirement>> {
    seq(|entries|, i requires 0 <= i < |entries| => entries[i].requirements)
  }

  ghost function InBuckets(buckets: seq<Bucket>): multiset<Requirement> {
    if buckets == [] then multiset{} else multiset(buckets[0].requirements) + InBuckets(buckets[1..])
  }

  lemma {:induction false} PutAdds(buckets: seq<Bucket>, r: Requirement)
    ensures InBuckets(Put(buckets, r)) == InBuckets(buckets) + multiset{r}
  {
    if buckets != [] && buckets[0].key != Key(r) {
      PutAdds(buckets[1..], r);
    }
  }

  lemma {:induction false} GroupingKeepsAll(requirements: seq<Requirement>)
    ensures InBuckets(Grouped(requirements)) == multiset(requirements)
  {
    if requirements != [] {
      var front, last := requirements[..|requirements| - 1], requirements[|requirements| - 1];
      GroupingKeepsAll(front);
      PutAdds(Grouped(front), last);
      assert requirements == front + [last];
    }
  }

  lemma {:induction false} PartsAppend(a: seq<Entry>, b: seq<Entry>)
    ensures multiset(Flat(Parts(a + b))) == multiset(Flat(Parts(a))) + multiset(Flat(Parts(b)))
  {
    assert Parts(a + b) == Parts(a) + Parts(b);
    FlatAppend(Parts(a), Parts(b));
    assert Flat(Parts(a + b)) == Flat(Parts(a)) + Flat(Parts(b));
  }

  lemma {:induction false} ChunkingKeepsAll(buckets: seq<Bucket>, safe: string -> string)
    ensures multiset(Flat(Parts(AllEntries(buckets, safe)))) == InBuckets(buckets)
  {
    if buckets != [] {
      ChunkingKeepsAll(buckets[1..], safe);
      EntriesOfOneBucket(buckets[0], safe);
      PartsAppend(EntriesOf(buckets[0], safe), AllEntries(buckets[1..], safe));
    }
  }

  lemma {:induction false} ChunkSizes(buckets: seq<Bucket>, safe: string -> string)
    ensures forall e | e in AllEntries(buckets, safe) :: 1 <= |e.requirements| <= CHUNK
  {
    if buckets != [] {
      ChunkSizes(buckets[1..], safe);
      EntriesOfOneBucket(buckets[0], safe);
    }
  }

  lemma {:induction false} EntriesOfOneBucket(bucket: Bucket, safe: string -> string)
    ensures Flat(Parts(EntriesOf(bucket, safe))) == bucket.requirements
    ensures forall e | e in EntriesOf(bucket, safe) :: 1 <= |e.requirements| <= CHUNK
  {
    var entries := EntriesOf(bucket, safe);
    ChunksAreSlices(bucket.requirements);
    assert Parts(entries) == Chunks(bucket.requirements);
    forall e | e in entries ensures 1 <= |e.requirements| <= CHUNK {
      var i :| 0 <= i < |entries| && entries[i] == e;
      assert Parts(entries)[i] in Chunks(bucket.requirements);
    }
  }

  /** Every requirement lands in exactly one task, none is added, and no task has none or more than eight. */
  lemma {:induction false} TasksPartitionTheRequirements(requirements: seq<Requirement>, safe: string -> string)
    ensures multiset(Flat(Parts(Entries(requirements, safe)))) == multiset(requirements)
    ensures forall e | e in Entries(requirements, safe) :: 1 <= |e.requirements| <= 8
  {
    GroupingKeepsAll(requirements);
    ChunkingKeepsAll(Grouped(requirements), safe);
    ChunkSizes(Grouped(requirements), safe);
  }

  lemma {:induction false} FlatHas<T>(parts: seq<seq<T>>, x: T)
    ensures x in Flat(parts) <==> exists i :: 0 <= i < |parts| && x in parts[i]
  {
    if parts != [] {
      FlatHas(parts[1..], x);
      if i :| 0 <= i < |parts| && x in parts[i] {
        assert i == 0 || x in parts[1..][i - 1];
      }
      if i :| 0 <= i < |parts[1..]| && x in parts[1..][i] {
        assert x in parts[i + 1];
      }
    }
  }

  // ---------------------------------------------------------------------------------------------
  // Acceptance criteria
  // ---------------------------------------------------------------------------------------------

  datatype Task = Task(id: string, group: string, requirements: seq<string>, acceptanceCriteria: seq<string>,
      facets: seq<string>)

  datatype Level = TaskLevel | ClusterLevel | ProjectLevel

  datatype Assignment = Assignment(acceptanceId: string, level: Level, owner: string, participatingTasks: seq<string>)

  function TaskOf(e: Entry): Task {
    Task(e.id, GroupOfKey(e.key),
         seq(|e.requirements|, i requires 0 <= i < |e.requirements| => e.requirements[i].id), [], [])
  }

  function TasksOf(entries: seq<Entry>): seq<Task> {
    seq(|entries|, i requires 0 <= i < |entries| => TaskOf(entries[i]))
  }

  function TaskIds(tasks: seq<Task>): seq<string> {
    seq(|tasks|, i requires 0 <= i < |tasks| => tasks[i].id)
  }

  predicate Participates(c: Criterion, t: Task) {
    exists ref :: ref in c.requirementRefs && ref in t.requirements
  }

  function Participants(c: Criterion, tasks: seq<Task>): seq<Task> {
    if tasks == [] then []
    else (if Participates(c, tasks[0]) then [tasks[0]] else []) + Participants(c, tasks[1..])
  }

  predicate OneCluster(participants: seq<Task>) {
    forall i | 0 <= i < |participants| :: participants[i].group == participants[0].group
  }

  function ClusterId(group: string): string {
    "C-" + group + "-IMPLEMENTATION"
  }

  /** Where a criterion belongs; the error is the criterion nobody works on. */
  function Assign(c: Criterion, tasks: seq<Task>): Result<Assignment, string> {
    var participants := Participants(c, tasks);
    if participants == [] then Err(c.id)
    else
      var level := if !OneCluster(participants) then ProjectLevel
                   else if |participants| > 1 then ClusterLevel
                   else TaskLevel;
      Ok(Assignment(c.id, level,
                    match level
                    case TaskLevel => participants[0].id
                    case ClusterLevel => ClusterId(participants[0].group)
                    case ProjectLevel => "PROJECT",
                    TaskIds(participants)))
  }

  method PartitionAcceptanceCriteria(criteria: seq<Criterion>, tasks: seq<Task>)
    returns (r: Result<seq<Assignment>, string>)
    ensures r.Ok? <==> forall c | c in criteria :: Participants(c, tasks) != []
    ensures r.Ok? ==> |r.value| == |criteria| && forall i | 0 <= i < |criteria| ::
        Ok(r.value[i]) == Assign(criteria[i], tasks)
  {
    var partition: seq<Assignment> := [];
    for i := 0 to |criteria|
      invariant |partition| == i
      invariant forall k | 0 <= k < i :: Ok(partition[k]) == Assign(criteria[k], tasks)
    {
      var place := Assign(criteria[i], tasks);
      if place.Err? {
        assert criteria[i] in criteria;
        return Err(place.error);
      }
      partition := partition + [place.value];
    }
    r := Ok(partition);
  }

  /** The level tells how far the work on a criterion is spread: a project exactly if two tasks of different
      groups work on it, a task exactly if one task of the list does, and its owner is that project, that task,
      or the cluster of the one group. */
  lemma {:induction false} LevelTellsTheSpread(c: Criterion, tasks: seq<Task>)
    requires Assign(c, tasks).Ok?
    ensures var a := Assign(c, tasks).value;
            && (a.level == ProjectLevel
                <==> exists x, y :: x in tasks && y in tasks && Participates(c, x) && Participates(c, y)
                                    && x.group != y.group)
            && (a.level == TaskLevel <==> |a.participatingTasks| == 1)
            && (a.level == TaskLevel ==> a.participatingTasks == [a.owner])
            && (a.level == ProjectLevel ==> a.owner == "PROJECT")
            && (a.level == ClusterLevel ==>
                  forall x | x in tasks && Participates(c, x) :: a.owner == "C-" + x.group + "-IMPLEMENTATION")
            && (forall id :: id in a.participatingTasks
                             <==> exists x :: x in tasks && Participates(c, x) && x.id == id)
  {
    var p := Participants(c, tasks);
    ParticipantsFind(c, tasks);
    if !OneCluster(p) {
      var i :| 0 <= i < |p| && p[i].group != p[0].group;
      assert p[i] in p && p[0] in p;
    } else {
      forall x | x in tasks && Participates(c, x) ensures x.group == p[0].group {
        var i :| 0 <= i < |p| && p[i] == x;
      }
    }
    IdsOfTasks(p);
  }

  lemma {:induction false} IdsOfTasks(tasks: seq<Task>)
    ensures forall id :: id in TaskIds(tasks) <==> exists x :: x in tasks && x.id == id
  {
    forall id ensures id in TaskIds(tasks) <==> exists x :: x in tasks && x.id == id {
      if id in TaskIds(tasks) {
        var i :| 0 <= i < |tasks| && TaskIds(tasks)[i] == id;
        assert tasks[i] in tasks;
      }
      if x :| x in tasks && x.id == id {
        var i :| 0 <= i < |tasks| && tasks[i] == x;
        assert TaskIds(tasks)[i] == id;
      }
    }
  }

  function Copies(x: string, n: nat): seq<string> {
    seq(n, i => x)
  }

  /** What one assignment gives to the task with this id: the criterion it owns, a facet per mention. */
  function OwnPart(a: Assignment, id: string): seq<string> {
    if a.level == TaskLevel && a.owner == id then [a.acceptanceId] else []
  }

  function FacetPart(a: Assignment, id: string): seq<string> {
    if a.level == TaskLevel then [] else Copies(a.acceptanceId, Occurrences(a.participatingTasks, id))
  }

  function OwnedBy(assignments: seq<Assignment>, id: string): seq<string> {
    if assignments == [] then []
    else OwnedBy(assignments[..|assignments| - 1], id) + OwnPart(assignments[|assignments| - 1], id)
  }

  function FacetsFor(assignments: seq<Assignment>, id: string): seq<string> {
    if assignments == [] then []
    else FacetsFor(assignments[..|assignments| - 1], id) + FacetPart(assignments[|assignments| - 1], id)
  }

  /** The task a search by id finds. */
  predicate First(tasks: seq<Task>, i: int) {
    0 <= i < |tasks| && forall j | 0 <= j < i :: tasks[j].id != tasks[i].id
  }

  method Find(tasks: seq<Task>, id: string) returns (i: nat)
    requires exists k :: 0 <= k < |tasks| && tasks[k].id == id
    ensures First(tasks, i) && tasks[i].id == id
  {
    i := 0;
    while tasks[i].id != id
      invariant 0 <= i < |tasks| && forall j | 0 <= j < i :: tasks[j].id != id
      decreases |tasks| - i
    {
      i := i + 1;
    }
  }

  function Give(t: Task, own: seq<string>, facets: seq<string>): Task {
    t.(acceptanceCriteria := t.acceptanceCriteria + own, facets := t.facets + facets)
  }

  /** What handing out these assignments makes of the tasks. Only the first task of an id is ever found. */
  ghost predicate Filled(tasks: seq<Task>, assignments: seq<Assignment>, filled: seq<Task>) {
    |filled| == |tasks| && forall i | 0 <= i < |tasks| ::
      filled[i] == if First(tasks, i)
                   then Give(tasks[i], OwnedBy(assignments, tasks[i].id), FacetsFor(assignments, tasks[i].id))
                   else tasks[i]
  }

  method Distribute(tasks: seq<Task>, assignments: seq<Assignment>) returns (filled: seq<Task>)
    requires forall a | a in assignments && a.level == TaskLevel :: a.owner in TaskIds(tasks)
    requires forall a, id | a in assignments && id in a.participatingTasks :: id in TaskIds(tasks)
    ensures Filled(tasks, assignments, filled)
  {
    filled := tasks;
    assert forall t: Task :: Give(t, [], []) == t;
    for n := 0 to |assignments|
      invariant Filled(tasks, assignments[..n], filled)
    {
      assert assignments[n] in assignments && assignments[..n + 1][..n] == assignments[..n];
      SameIds(tasks, filled);
      forall t: Task, x: seq<string>, y: seq<string>, u: seq<string>, v: seq<string> {
        GiveTwice(t, x, y, u, v);
      }
      filled := HandOut(filled, assignments[n]);
    }
    assert assignments[..|assignments|] == assignments;
  }

  lemma {:induction false} GiveTwice(t: Task, x: seq<string>, y: seq<string>, u: seq<string>, v: seq<string>)
    ensures Give(Give(t, x, y), u, v) == Give(t, x + u, y + v)
  {
    assert t.acceptanceCriteria + x + u == t.acceptanceCriteria + (x + u);
    assert t.facets + y + v == t.facets + (y + v);
  }

  method HandOut(tasks: seq<Task>, a: Assignment) returns (filled: seq<Task>)
    requires a.level == TaskLevel ==> a.owner in TaskIds(tasks)
    requires forall id | id in a.participatingTasks :: id in TaskIds(tasks)
    ensures |filled| == |tasks|
    ensures forall i | 0 <= i < |tasks| ::
              filled[i] == if First(tasks, i)
                           then Give(tasks[i], OwnPart(a, tasks[i].id), FacetPart(a, tasks[i].id))
                           else tasks[i]
  {
    SameIds(tasks, tasks);
    assert forall s: seq<string> :: s + [] == s;
    if a.level == TaskLevel {
      var i := Find(tasks, a.owner);
      filled := tasks[i := Give(tasks[i], [a.acceptanceId], [])];
    } else {
      filled := HandOutFacets(tasks, a);
    }
  }

  lemma {:induction false} SameIds(tasks: seq<Task>, filled: seq<Task>)
    requires |filled| == |tasks| && forall i | 0 <= i < |tasks| :: filled[i].id == tasks[i].id
    ensures TaskIds(filled) == TaskIds(tasks)
    ensures forall i :: First(filled, i) == First(tasks, i)
    ensures forall id | id in TaskIds(tasks) :: exists k :: 0 <= k < |filled| && filled[k].id == id
  {
    assert TaskIds(filled) == TaskIds(tasks);
    forall id | id in TaskIds(tasks) ensures exists k :: 0 <= k < |filled| && filled[k].id == id {
      var k :| 0 <= k < |tasks| && TaskIds(tasks)[k] == id;
      assert filled[k].id == id;
    }
  }

  /** A facet for every mention among these ids. */
  ghost predicate FacetsGiven(tasks: seq<Task>, acceptanceId: string, ids: seq<string>, filled: seq<Task>) {
    |filled| == |tasks| && forall i | 0 <= i < |tasks| ::
      filled[i] == if First(tasks, i)
                   then Give(tasks[i], [], Copies(acceptanceId, Occurrences(ids, tasks[i].id)))
                   else tasks[i]
  }

  method HandOutFacets(tasks: seq<Task>, a: Assignment) returns (filled: seq<Task>)
    requires forall id | id in a.participatingTasks :: id in TaskIds(tasks)
    ensures FacetsGiven(tasks, a.acceptanceId, a.participatingTasks, filled)
  {
    filled := tasks;
    var ids := a.participatingTasks;
    assert forall t: Task :: Give(t, [], []) == t;
    for n := 0 to |ids|
      invariant FacetsGiven(tasks, a.acceptanceId, ids[..n], filled)
    {
      SameIds(tasks, filled);
      assert ids[n] in ids && ids[..n + 1][..n] == ids[..n];
      var i := Find(filled, ids[n]);
      OneMoreFacet(tasks, a.acceptanceId, ids[..n + 1], filled, i);
      filled := filled[i := Give(filled[i], [], [a.acceptanceId])];
    }
    assert ids[..|ids|] == ids;
  }

  lemma {:induction false} OneMoreFacet(
    tasks: seq<Task>, acceptanceId: string, ids: seq<string>, filled: seq<Task>, i: nat)
    requires ids != [] && FacetsGiven(tasks, acceptanceId, ids[..|ids| - 1], filled)
    requires First(tasks, i) && tasks[i].id == ids[|ids| - 1]
    ensures FacetsGiven(tasks, acceptanceId, ids, filled[i := Give(filled[i], [], [acceptanceId])])
  {
    var before := Copies(acceptanceId, Occurrences(ids[..|ids| - 1], tasks[i].id));
    GiveTwice(tasks[i], [], before, [], [acceptanceId]);
    assert before + [acceptanceId] == Copies(acceptanceId, Occurrences(ids, tasks[i].id));
  }

  // ---------------------------------------------------------------------------------------------
  // What a valid specification is guaranteed
  // ---------------------------------------------------------------------------------------------

  function RequirementIds(requirements: seq<Requirement>): seq<string> {
    seq(|requirements|, i requires 0 <= i < |requirements| => requirements[i].id)
  }

  /** The references validation insists on: every criterion names requirements, and only existing ones. */
  ghost predicate SoundReferences(requirements: seq<Requirement>, criteria: seq<Criterion>) {
    forall c | c in criteria :: c.requirementRefs != [] && forall ref | ref in c.requirementRefs ::
      ref in RequirementIds(requirements)
  }

  lemma {:induction false} RequirementHasTask(requirements: seq<Requirement>, safe: string -> string, r: Requirement)
    requires r in requirements
    ensures exists t :: t in TasksOf(Entries(requirements, safe)) && r.id in t.requirements
  {
    var entries := Entries(requirements, safe);
    TasksPartitionTheRequirements(requirements, safe);
    assert r in multiset(requirements);
    assert r in multiset(Flat(Parts(entries)));
    FlatHas(Parts(entries), r);
    var i :| 0 <= i < |entries| && r in Parts(entries)[i];
    var k :| 0 <= k < |entries[i].requirements| && entries[i].requirements[k] == r;
    var t := TaskOf(entries[i]);
    assert t.requirements[k] == r.id;
    assert TasksOf(entries)[i] == t;
  }

  lemma {:induction false} ParticipantsFind(c: Criterion, tasks: seq<Task>)
    ensures forall t :: t in Participants(c, tasks) <==> t in tasks && Participates(c, t)
  {
    if tasks != [] {
      ParticipantsFind(c, tasks[1..]);
      assert forall t :: t in tasks <==> t == tasks[0] || t in tasks[1..];
    }
  }

  /** For every specification with sound references the acceptance partition never throws. */
  lemma {:induction false} PartitionNeverThrows(
    requirements: seq<Requirement>, criteria: seq<Criterion>, safe: string -> string,
      c: Criterion)
    requires SoundReferences(requirements, criteria) && c in criteria
    ensures Participants(c, TasksOf(Entries(requirements, safe))) != []
  {
    var ref := c.requirementRefs[0];
    assert ref in c.requirementRefs;
    var k :| 0 <= k < |requirements| && RequirementIds(requirements)[k] == ref;
    RequirementHasTask(requirements, safe, requirements[k]);
    var tasks := TasksOf(Entries(requirements, safe));
    var t :| t in tasks && requirements[k].id in t.requirements;
    ParticipantsFind(c, tasks);
    assert Participates(c, t);
  }

  lemma {:induction false} OccurrencesOfCopies(y: string, n: nat, x: string)
    ensures Occurrences(Copies(y, n), x) == if x == y then n else 0
  {
    if n > 0 {
      OccurrencesOfCopies(y, n - 1, x);
      assert Copies(y, n)[..n - 1] == Copies(y, n - 1);
    }
  }

  /** With distinct task ids a task is mentioned among the participants once or not at all. */
  lemma {:induction false} MentionedOnce(c: Criterion, tasks: seq<Task>, t: Task)
    requires Distinct(TaskIds(tasks))
    ensures t in tasks ==> Occurrences(TaskIds(Participants(c, tasks)), t.id) == if Participates(c, t) then 1 else 0
    ensures t.id !in TaskIds(tasks) ==> Occurrences(TaskIds(Participants(c, tasks)), t.id) == 0
  {
    if tasks != [] {
      var head, rest := tasks[0], tasks[1..];
      assert TaskIds(rest) == TaskIds(tasks)[1..];
      assert TaskIds(tasks)[0] == head.id;
      MentionedOnce(c, rest, t);
      var first := if Participates(c, head) then [head] else [];
      assert TaskIds(first + Participants(c, rest)) == TaskIds(first) + TaskIds(Participants(c, rest));
      OccurrencesAppend(TaskIds(first), TaskIds(Participants(c, rest)), t.id);
      if Participates(c, head) {
        assert TaskIds(first) == [head.id];
        assert Occurrences([head.id], t.id) == if head.id == t.id then 1 else 0 by { assert [head.id][..0] == []; }
      }
      SameIdSameTask(tasks, t);
    }
  }

  lemma {:induction false} SameIdSameTask(tasks: seq<Task>, t: Task)
    requires Distinct(TaskIds(tasks)) && tasks != []
    ensures t in tasks && t.id == tasks[0].id ==> t == tasks[0]
    ensures t in tasks && t != tasks[0] ==> t in tasks[1..]
    ensures t == tasks[0] ==> t.id !in TaskIds(tasks[1..])
    ensures t.id !in TaskIds(tasks) ==> t.id !in TaskIds(tasks[1..]) && t.id != tasks[0].id
  {
    assert TaskIds(tasks[1..]) == TaskIds(tasks)[1..];
    assert TaskIds(tasks)[0] == tasks[0].id;
    if t in tasks {
      var k :| 0 <= k < |tasks| && tasks[k] == t;
      assert TaskIds(tasks)[k] == t.id;
      assert k > 0 ==> tasks[1..][k - 1] == t;
    }
  }

  /** The assignments made for these criteria. */
  ghost predicate Made(criteria: seq<Criterion>, tasks: seq<Task>, assignments: seq<Assignment>) {
    |assignments| == |criteria| && forall i | 0 <= i < |criteria| :: Ok(assignments[i]) == Assign(criteria[i], tasks)
  }

  /** What one assignment hands to a task: the criterion itself if the task is its only participant, a
      facet if it is one of several. */
  lemma {:induction false} OneAssignment(c: Criterion, tasks: seq<Task>, a: Assignment, t: Task, x: string)
    requires Distinct(TaskIds(tasks)) && t in tasks && Ok(a) == Assign(c, tasks)
    ensures a.acceptanceId == c.id
    ensures a.level == TaskLevel <==> |Participants(c, tasks)| == 1
    ensures a.level == TaskLevel ==> (a.owner == t.id <==> Participates(c, t))
    ensures Occurrences(OwnPart(a, t.id), x)
        == (if x == c.id && a.level == TaskLevel && Participates(c, t) then 1 else 0)
    ensures Occurrences(FacetPart(a, t.id), x)
        == (if x == c.id && a.level != TaskLevel && Participates(c, t) then 1 else 0)
  {
    var p := Participants(c, tasks);
    MentionedOnce(c, tasks, t);
    if |p| == 1 {
      assert TaskIds(p) == [p[0].id];
      OccurrencesOfCopies(p[0].id, 1, t.id);
      assert Copies(p[0].id, 1) == [p[0].id];
    }
    OccurrencesOfCopies(c.id, 1, x);
    assert Copies(c.id, 1) == [c.id];
    OccurrencesOfCopies(c.id, Occurrences(a.participatingTasks, t.id), x);
  }

  ghost predicate Gives(a: Assignment, id: string, x: string, own: nat, facets: nat) {
    Occurrences(OwnPart(a, id), x) == own && Occurrences(FacetPart(a, id), x) == facets
  }

  lemma {:induction false} HandedOut(assignments: seq<Assignment>, id: string, x: string, k: nat, own: nat, facets: nat)
    requires forall i | 0 <= i < |assignments| ::
        Gives(assignments[i], id, x, if i == k then own else 0, if i == k then facets else 0)
    ensures Occurrences(OwnedBy(assignments, id), x) == if k < |assignments| then own else 0
    ensures Occurrences(FacetsFor(assignments, id), x) == if k < |assignments| then facets else 0
  {
    if assignments != [] {
      var front, a := assignments[..|assignments| - 1], assignments[|assignments| - 1];
      HandedOut(front, id, x, k, own, facets);
      OccurrencesAppend(OwnedBy(front, id), OwnPart(a, id), x);
      OccurrencesAppend(FacetsFor(front, id), FacetPart(a, id), x);
    }
  }

  /** Each criterion has one owner. A criterion with a single participant is put on that task's list once
      and on no other; one with several is on no list, and every participating task, and no other, gets
      exactly one facet of it. */
  lemma {:induction false} EachCriterionIsHandedOutOnce(
    criteria: seq<Criterion>, tasks: seq<Task>, assignments: seq<Assignment>, k: nat,
      t: Task)
    requires Distinct(TaskIds(tasks)) && t in tasks && Made(criteria, tasks, assignments)
    requires k < |criteria| && forall i | 0 <= i < |criteria| && i != k :: criteria[i].id != criteria[k].id
    ensures var c := criteria[k];
            var alone := |Participants(c, tasks)| == 1;
            && Occurrences(OwnedBy(assignments, t.id), c.id) == (if alone && Participates(c, t) then 1 else 0)
            && Occurrences(FacetsFor(assignments, t.id), c.id) == (if !alone && Participates(c, t) then 1 else 0)
  {
    var c := criteria[k];
    var alone := |Participants(c, tasks)| == 1;
    var own, facets := if alone && Participates(c, t) then 1 else 0, if !alone && Participates(c, t) then 1 else 0;
    forall i | 0 <= i < |assignments|
      ensures Gives(assignments[i], t.id, c.id, if i == k then own else 0, if i == k then facets else 0)
    {
      OneAssignment(criteria[i], tasks, assignments[i], t, c.id);
    }
    HandedOut(assignments, t.id, c.id, k, own, facets);
  }

  lemma {:induction false} BothAreMentioned(c: Criterion, tasks: seq<Task>, i: nat, j: nat)
    requires i < j < |tasks| && tasks[i].id == tasks[j].id && Participates(c, tasks[i]) && Participates(c, tasks[j])
    ensures Occurrences(TaskIds(Participants(c, tasks)), tasks[i].id) >= 2
  {
    MentionedAtLeastOnce(c, tasks[i + 1..], j - i - 1);
    SplitParticipants(c, tasks[..i], tasks[i..]);
    assert tasks == tasks[..i] + tasks[i..];
    var head, rest := [tasks[i]], Participants(c, tasks[i + 1..]);
    assert tasks[i..][1..] == tasks[i + 1..] && Participants(c, tasks[i..]) == head + rest;
    assert TaskIds(head + rest) == TaskIds(head) + TaskIds(rest) && TaskIds(head) == [tasks[i].id];
    OccurrencesAppend(TaskIds(head), TaskIds(rest), tasks[i].id);
    assert Occurrences([tasks[i].id], tasks[i].id) == 1 by { assert [tasks[i].id][..0] == []; }
    var before := Participants(c, tasks[..i]);
    assert TaskIds(before + (head + rest)) == TaskIds(before) + TaskIds(head + rest);
    OccurrencesAppend(TaskIds(before), TaskIds(head + rest), tasks[i].id);
  }

  lemma {:induction false} SplitParticipants(c: Criterion, a: seq<Task>, b: seq<Task>)
    ensures Participants(c, a + b) == Participants(c, a) + Participants(c, b)
  {
    if a == [] {
      assert a + b == b;
    } else {
      SplitParticipants(c, a[1..], b);
      assert (a + b)[1..] == a[1..] + b;
    }
  }

  lemma {:induction false} MentionedAtLeastOnce(c: Criterion, tasks: seq<Task>, k: nat)
    requires k < |tasks| && Participates(c, tasks[k])
    ensures Occurrences(TaskIds(Participants(c, tasks)), tasks[k].id) >= 1
  {
    ParticipantsFind(c, tasks);
    var p := Participants(c, tasks);
    assert tasks[k] in p;
    var j :| 0 <= j < |p| && p[j] == tasks[k];
    assert TaskIds(p)[j] == tasks[k].id;
    Occurs(TaskIds(p), j);
  }

  lemma {:induction false} Occurs(s: seq<string>, j: nat)
    requires j < |s|
    ensures Occurrences(s, s[j]) >= 1
  {
    if j < |s| - 1 {
      Occurs(s[..|s| - 1], j);
    }
  }

  /** Why task ids must be distinct: of two tasks of one id that work on a criterion, the first is given a
      facet for each, and the second is never found. */
  lemma {:induction false} SharedIdMisplacesFacets(c: Criterion, tasks: seq<Task>, i: nat, j: nat)
    requires i < j < |tasks| && tasks[i].id == tasks[j].id && Participates(c, tasks[i]) && Participates(c, tasks[j])
    ensures Assign(c, tasks).Ok? && !First(tasks, j)
    ensures Occurrences(FacetPart(Assign(c, tasks).value, tasks[i].id), c.id) >= 2
  {
    BothAreMentioned(c, tasks, i, j);
    var a := Assign(c, tasks).value;
    var ids := TaskIds(Participants(c, tasks));
    OccurrencesOfCopies(c.id, Occurrences(ids, tasks[i].id), c.id);
  }

  // ---------------------------------------------------------------------------------------------
  // The task graph
  // ---------------------------------------------------------------------------------------------

  /** The ids of the tasks of one group. */
  function TasksOfGroup(tasks: seq<Task>, group: string): seq<string> {
    if tasks == [] then []
    else (if tasks[0].group == group then [tasks[0].id] else []) + TasksOfGroup(tasks[1..], group)
  }

  /** A task depends on every task of every group its group depends on. */
  function Dependencies(tasks: seq<Task>, groups: Graph<string>, t: Task): seq<string> {
    if t.group in groups then DependenciesOf(tasks, groups[t.group]) else []
  }

  function DependenciesOf(tasks: seq<Task>, dependsOn: seq<string>): seq<string> {
    if dependsOn == [] then []
    else DependenciesOf(tasks, dependsOn[..|dependsOn| - 1]) + TasksOfGroup(tasks, dependsOn[|dependsOn| - 1])
  }

  ghost predicate IsTaskGraph(tasks: seq<Task>, groups: Graph<string>, g: Graph<string>) {
    && (forall id :: id in g <==> id in TaskIds(tasks))
    && (forall id, d | id in g ::
          d in g[id] <==> exists t :: t in tasks && t.id == id && d in Dependencies(tasks, groups, t))
  }

  /** Tasks that share an id are tasks of one group; distinct ids are the usual case. */
  ghost predicate IdTellsGroup(tasks: seq<Task>) {
    forall x, y | x in tasks && y in tasks && x.id == y.id :: x.group == y.group
  }

  /** Some task of this id is in this group. */
  ghost predicate HasTask(tasks: seq<Task>, group: string, id: string) {
    exists t :: t in tasks && t.group == group && t.id == id
  }

  lemma {:induction false} TasksOfGroupAre(tasks: seq<Task>, group: string, id: string)
    ensures id in TasksOfGroup(tasks, group) <==> HasTask(tasks, group, id)
  {
    if tasks != [] {
      TasksOfGroupAre(tasks[1..], group, id);
      assert tasks[0] in tasks;
      assert forall t :: t in tasks <==> t == tasks[0] || t in tasks[1..];
    }
  }

  lemma {:induction false} DependenciesOfAre(tasks: seq<Task>, dependsOn: seq<string>, id: string)
    ensures id in DependenciesOf(tasks, dependsOn) <==> exists group :: group in dependsOn && HasTask(tasks, group, id)
  {
    if dependsOn != [] {
      var front, last := dependsOn[..|dependsOn| - 1], dependsOn[|dependsOn| - 1];
      TasksOfGroupAre(tasks, last, id);
      DependenciesOfAre(tasks, front, id);
      assert forall group :: group in dependsOn <==> group in front || group == last;
    }
  }

  /** A task depends on exactly the tasks of the groups that its own group depends on: all of them. */
  lemma {:induction false} DependenciesAreExactly(tasks: seq<Task>, groups: Graph<string>, t: Task, d: string)
    ensures d in Dependencies(tasks, groups, t)
            <==> t.group in groups && exists u :: u in tasks && u.id == d && u.group in groups[t.group]
  {
    if t.group in groups {
      DependenciesOfAre(tasks, groups[t.group], d);
      if u :| u in tasks && u.id == d && u.group in groups[t.group] {
        assert HasTask(tasks, u.group, d);
      }
    }
  }

  lemma {:induction false} TasksOfGroupSnoc(tasks: seq<Task>, t: Task, group: string)
    ensures TasksOfGroup(tasks + [t], group) == TasksOfGroup(tasks, group) + (if t.group == group then [t.id] else [])
  {
    if tasks == [] {
      assert [] + [t] == [t] && [t][1..] == [];
    } else {
      TasksOfGroupSnoc(tasks[1..], t, group);
      assert (tasks + [t])[1..] == tasks[1..] + [t];
    }
  }

  function TasksIn(byGroup: map<string, seq<string>>, group: string): seq<string> {
    if group in byGroup then byGroup[group] else []
  }

  lemma {:induction false} GroupsGrow(byGroup: map<string, seq<string>>, tasks: seq<Task>, t: Task)
    requires forall group :: TasksIn(byGroup, group) == TasksOfGroup(tasks, group)
    ensures var grown := byGroup[t.group := TasksIn(byGroup, t.group) + [t.id]];
            forall group :: TasksIn(grown, group) == TasksOfGroup(tasks + [t], group)
  {
    var grown := byGroup[t.group := TasksIn(byGroup, t.group) + [t.id]];
    forall group ensures TasksIn(grown, group) == TasksOfGroup(tasks + [t], group) {
      TasksOfGroupSnoc(tasks, t, group);
      assert TasksIn(byGroup, group) == TasksOfGroup(tasks, group);
    }
  }

  /** The task ids of every group. */
  method CollectGroups(tasks: seq<Task>) returns (byGroup: map<string, seq<string>>)
    ensures forall group :: TasksIn(byGroup, group) == TasksOfGroup(tasks, group)
  {
    byGroup := map[];
    for i := 0 to |tasks|
      invariant forall group :: TasksIn(byGroup, group) == TasksOfGroup(tasks[..i], group)
    {
      GroupsGrow(byGroup, tasks[..i], tasks[i]);
      assert tasks[..i + 1] == tasks[..i] + [tasks[i]];
      byGroup := byGroup[tasks[i].group := TasksIn(byGroup, tasks[i].group) + [tasks[i].id]];
    }
    assert tasks[..|tasks|] == tasks;
  }

  method Unique(values: seq<string>) returns (unique: seq<string>)
    ensures Distinct(unique) && forall x :: x in unique <==> x in values
  {
    unique := [];
    for i := 0 to |values|
      invariant Distinct(unique) && forall x :: x in unique <==> x in values[..i]
    {
      assert forall x :: x in values[..i + 1] <==> x in values[..i] || x == values[i];
      if values[i] !in unique {
        SnocDistinct(unique, values[i]);
        unique := unique + [values[i]];
      }
    }
  }

  /** The dependencies of one task, from the ids of every group. */
  method DependOn(tasks: seq<Task>, byGroup: map<string, seq<string>>, groups: Graph<string>, t: Task)
    returns (dependencies: seq<string>)
    requires forall group :: TasksIn(byGroup, group) == TasksOfGroup(tasks, group)
    ensures Distinct(dependencies)
    ensures forall d :: d in dependencies
                        <==> t.group in groups && exists u :: u in tasks && u.id == d && u.group in groups[t.group]
  {
    var all := [];
    if t.group in groups {
      var dependsOn := groups[t.group];
      for k := 0 to |dependsOn|
        invariant all == DependenciesOf(tasks, dependsOn[..k])
      {
        assert dependsOn[..k + 1][..k] == dependsOn[..k];
        all := all + TasksIn(byGroup, dependsOn[k]);
      }
      assert dependsOn[..|dependsOn|] == dependsOn;
    }
    dependencies := Unique(all);
    forall d ensures d in dependencies
                     <==> t.group in groups && exists u :: u in tasks && u.id == d && u.group in groups[t.group]
    {
      DependenciesAreExactly(tasks, groups, t, d);
    }
  }

  ghost function GroupOf(tasks: seq<Task>, id: string): string
    requires id in TaskIds(tasks)
  {
    var k :| 0 <= k < |tasks| && TaskIds(tasks)[k] == id;
    tasks[k].group
  }

  lemma {:induction false} EdgeLifts(tasks: seq<Task>, groups: Graph<string>, g: Graph<string>, a: string, b: string)
    requires IsTaskGraph(tasks, groups, g) && IdTellsGroup(tasks) && Closed(groups) && Edge(g, a, b)
    ensures a in TaskIds(tasks) && b in TaskIds(tasks) && Edge(groups, GroupOf(tasks, a), GroupOf(tasks, b))
  {
    var t :| t in tasks && t.id == a && b in Dependencies(tasks, groups, t);
    DependenciesAreExactly(tasks, groups, t, b);
    var u :| u in tasks && u.id == b && u.group in groups[t.group];
    var i :| 0 <= i < |tasks| && tasks[i].group == GroupOf(tasks, a) && TaskIds(tasks)[i] == a;
    var j :| 0 <= j < |tasks| && tasks[j].group == GroupOf(tasks, b) && TaskIds(tasks)[j] == b;
    assert tasks[i] in tasks && tasks[j] in tasks;
  }

  lemma {:induction false} WalkLifts(tasks: seq<Task>, groups: Graph<string>, g: Graph<string>, w: seq<string>)
    returns (lifted: seq<string>)
    requires IsTaskGraph(tasks, groups, g) && IdTellsGroup(tasks) && Closed(groups) && IsWalk(g, w) && |w| >= 2
    ensures |lifted| == |w| && IsWalk(groups, lifted)
    ensures w[0] in TaskIds(tasks) && lifted[0] == GroupOf(tasks, w[0])
    ensures w[|w| - 1] in TaskIds(tasks) && lifted[|w| - 1] == GroupOf(tasks, w[|w| - 1])
    decreases |w|
  {
    EdgeLifts(tasks, groups, g, w[0], w[1]);
    if |w| == 2 {
      lifted := [GroupOf(tasks, w[0]), GroupOf(tasks, w[1])];
    } else {
      var rest := WalkLifts(tasks, groups, g, w[1..]);
      lifted := [GroupOf(tasks, w[0])] + rest;
    }
  }

  /** An acyclic group graph always yields an acyclic task graph. */
  lemma {:induction false} TaskGraphIsAcyclic(tasks: seq<Task>, groups: Graph<string>, g: Graph<string>)
    requires IsTaskGraph(tasks, groups, g) && IdTellsGroup(tasks) && Closed(groups)
    ensures HasCycle(g) ==> HasCycle(groups)
  {
    if w :| IsCycle(g, w) {
      var lifted := WalkLifts(tasks, groups, g, w);
      assert IsCycle(groups, lifted);
    }
  }

  /** Why ids must tell the group: one id in two groups, one depending on the other, is a task that depends
      on itself, although the group graph is acyclic. */
  lemma {:induction false} SharedIdClosesACycle(x: Task, y: Task, groups: Graph<string>, g: Graph<string>)
    requires x.id == y.id && x.group != y.group && groups == map[x.group := [y.group], y.group := []]
    requires IsTaskGraph([x, y], groups, g)
    ensures Closed(groups) && !HasCycle(groups) && HasCycle(g)
  {
    DependenciesAreExactly([x, y], groups, x, y.id);
    assert y in [x, y] && y.group in groups[x.group];
    assert TaskIds([x, y])[0] == x.id && x in [x, y] && y.id in g[x.id];
    assert IsCycle(g, [x.id, x.id]);
    OneEdgeIsAcyclic(groups, x.group, y.group);
  }

  lemma {:induction false} OneEdgeIsAcyclic(groups: Graph<string>, a: string, b: string)
    requires a != b && groups == map[a := [b], b := []]
    ensures Closed(groups) && !HasCycle(groups)
  {
    assert [b, a][..1] == [b];
    forall i, d | 0 <= i < 2 && Edge(groups, [b, a][i], d) ensures d in [b, a][..i] {
      assert i == 1 && d == b;
    }
    assert IsOrderOf(groups, [b, a]);
    OrderedHasNoCycle(groups, [b, a]);
  }
}
