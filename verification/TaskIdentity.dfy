/** Task ids: which tasks of a specification share one, exactly, and what the task contract schema has to
    do with it. */
module TaskIdentity {
  import opened Text
  import opened Graph
  import opened TaskPartition

  // ---------------------------------------------------------------------------------------------
  // The parts of a task id
  // ---------------------------------------------------------------------------------------------

  function FamilyOfKey(key: string): string {
    var parts := Split(key, '|');
    if |parts| > 1 then parts[1] else ""
  }

  function Suffix(index: nat, several: bool): string {
    if several then ['-'] + TwoDigits(index + 1) else []
  }

  lemma {:induction false} IdParts(key: string, index: nat, several: bool, safe: string -> string)
    ensures TaskId(key, index, several, safe)
            == "T-" + (GroupOfKey(key) + ['-'] + (safe(FamilyOfKey(key)) + Suffix(index, several)))
  {
    var group, family, suffix := GroupOfKey(key), safe(FamilyOfKey(key)), Suffix(index, several);
    assert TaskId(key, index, several, safe) == "T-" + group + "-" + family + suffix;
    assert "T-" + group + "-" + family + suffix == "T-" + (group + ['-'] + (family + suffix));
  }

  lemma {:induction false} CutAtFirst(a: string, x: string, b: string, y: string)
    requires '-' !in a && '-' !in b && a + ['-'] + x == b + ['-'] + y
    ensures a == b && x == y
  {
    var t := a + ['-'] + x;
    assert t[|a|] == '-' && t[|b|] == '-';
    assert a == t[..|a|] && b == t[..|b|] && x == t[|a| + 1..] && y == t[|b| + 1..];
  }

  lemma {:induction false} CutAtLast(a: string, x: string, b: string, y: string)
    requires '-' !in x && '-' !in y && a + ['-'] + x == b + ['-'] + y
    ensures a == b && x == y
  {
    var t := a + ['-'] + x;
    assert t[|a|] == '-' && t[|b|] == '-';
    assert a == t[..|a|] && b == t[..|b|] && x == t[|a| + 1..] && y == t[|b| + 1..];
  }

  lemma {:induction false} DigitsOnly(n: nat)
    ensures '-' !in TwoDigits(n) && |TwoDigits(n)| >= 2 && (|TwoDigits(n)| == 2 <==> n < 100)
  {
    if n >= 100 {
      DigitsOnly(n / 10);
    }
  }

  lemma {:induction false} DigitsTell(m: nat, n: nat)
    requires TwoDigits(m) == TwoDigits(n)
    ensures m == n
  {
    DigitsOnly(m);
    DigitsOnly(n);
    var s, t := TwoDigits(m), TwoDigits(n);
    if m < 100 {
      assert s[0] == t[0] && s[1] == t[1];
    } else {
      assert s[|s| - 1] == t[|t| - 1] && s[..|s| - 1] == t[..|t| - 1];
      assert s[..|s| - 1] == TwoDigits(m / 10) && t[..|t| - 1] == TwoDigits(n / 10);
      DigitsTell(m / 10, n / 10);
    }
  }

  // ---------------------------------------------------------------------------------------------
  // Which tasks share an id
  // ---------------------------------------------------------------------------------------------

  lemma {:induction false} SameFront(front: string, x: string, y: string)
    requires front + x == front + y
    ensures x == y
  {
    assert x == (front + x)[|front|..] && y == (front + y)[|front|..];
  }

  /** Two ids agree exactly when group and rest do, for groups without a hyphen. */
  lemma {:induction false} IdsAgree(
    key: string, i: nat, m: bool, other: string, j: nat, n: bool, safe: string -> string)
    requires '-' !in GroupOfKey(key) && '-' !in GroupOfKey(other)
    ensures TaskId(key, i, m, safe) == TaskId(other, j, n, safe)
            <==> GroupOfKey(key) == GroupOfKey(other)
                 && safe(FamilyOfKey(key)) + Suffix(i, m) == safe(FamilyOfKey(other)) + Suffix(j, n)
  {
    IdParts(key, i, m, safe);
    IdParts(other, j, n, safe);
    if TaskId(key, i, m, safe) == TaskId(other, j, n, safe) {
      var x, y := safe(FamilyOfKey(key)) + Suffix(i, m), safe(FamilyOfKey(other)) + Suffix(j, n);
      SameFront("T-", GroupOfKey(key) + ['-'] + x, GroupOfKey(other) + ['-'] + y);
      CutAtFirst(GroupOfKey(key), x, GroupOfKey(other), y);
    }
  }

  lemma {:induction false} NumbersTell(i: nat, j: nat)
    requires Suffix(i, true) == Suffix(j, true)
    ensures i == j
  {
    assert TwoDigits(i + 1) == Suffix(i, true)[1..] && TwoDigits(j + 1) == Suffix(j, true)[1..];
    DigitsTell(i + 1, j + 1);
  }

  /** A numbered name ends in its number. */
  lemma {:induction false} NumberedNamesAgree(f: string, i: nat, g: string, j: nat)
    ensures f + Suffix(i, true) == g + Suffix(j, true) <==> f == g && i == j
  {
    if f + Suffix(i, true) == g + Suffix(j, true) {
      var x, y := TwoDigits(i + 1), TwoDigits(j + 1);
      assert f + Suffix(i, true) == f + ['-'] + x && g + Suffix(j, true) == g + ['-'] + y;
      DigitsOnly(i + 1);
      DigitsOnly(j + 1);
      CutAtLast(f, x, g, y);
      DigitsTell(i + 1, j + 1);
    }
  }

  lemma {:induction false} ChunkIdsDiffer(key: string, i: nat, j: nat, safe: string -> string)
    requires i != j
    ensures TaskId(key, i, true, safe) != TaskId(key, j, true, safe)
  {
    if TaskId(key, i, true, safe) == TaskId(key, j, true, safe) {
      IdParts(key, i, true, safe);
      IdParts(key, j, true, safe);
      var group, family := GroupOfKey(key), safe(FamilyOfKey(key));
      SameFront("T-", group + ['-'] + (family + Suffix(i, true)), group + ['-'] + (family + Suffix(j, true)));
      SameFront(group + ['-'], family + Suffix(i, true), family + Suffix(j, true));
      SameFront(family, Suffix(i, true), Suffix(j, true));
      NumbersTell(i, j);
    }
  }

  function ChunkCount(n: nat): nat {
    (n + CHUNK - 1) / CHUNK
  }

  /** `other` is spelled like one of the numbered tasks of a family with `n` requirements. */
  predicate IsNumberedOf(family: string, n: nat, other: string) {
    exists i :: 0 <= i < ChunkCount(n) && other == family + Suffix(i, true)
  }

  /** Two families of one group, with so many requirements each, come to a common task id. */
  predicate Meet(f: string, m: nat, g: string, n: nat) {
    if (m > CHUNK) == (n > CHUNK) then f == g
    else if m > CHUNK then IsNumberedOf(f, m, g)
    else IsNumberedOf(g, n, f)
  }

  function EntryIds(entries: seq<Entry>): seq<string> {
    seq(|entries|, i requires 0 <= i < |entries| => entries[i].id)
  }

  function BucketIds(bucket: Bucket, safe: string -> string): seq<string> {
    EntryIds(EntriesOf(bucket, safe))
  }

  lemma {:induction false} BucketIdsAre(bucket: Bucket, safe: string -> string)
    ensures |BucketIds(bucket, safe)| == ChunkCount(|bucket.requirements|)
    ensures forall i | 0 <= i < |BucketIds(bucket, safe)| ::
              BucketIds(bucket, safe)[i] == TaskId(bucket.key, i, |bucket.requirements| > CHUNK, safe)
    ensures Distinct(BucketIds(bucket, safe))
  {
    var ids := BucketIds(bucket, safe);
    forall i, j | 0 <= i < j < |ids| ensures ids[i] != ids[j] {
      ChunkIdsDiffer(bucket.key, i, j, safe);
    }
  }

  ghost predicate ShareId(b: Bucket, c: Bucket, safe: string -> string) {
    exists id :: id in BucketIds(b, safe) && id in BucketIds(c, safe)
  }

  lemma {:induction false} NamesThatMeet(f: string, i: nat, m: nat, g: string, j: nat, n: nat)
    requires i < ChunkCount(m) && j < ChunkCount(n)
    requires f + Suffix(i, m > CHUNK) == g + Suffix(j, n > CHUNK)
    ensures Meet(f, m, g, n)
  {
    assert f + [] == f && g + [] == g;
    if m > CHUNK && n > CHUNK {
      NumberedNamesAgree(f, i, g, j);
    }
  }

  lemma {:induction false} MeetingNames(f: string, m: nat, g: string, n: nat) returns (i: nat, j: nat)
    requires m > 0 && n > 0 && Meet(f, m, g, n)
    ensures i < ChunkCount(m) && j < ChunkCount(n) && f + Suffix(i, m > CHUNK) == g + Suffix(j, n > CHUNK)
  {
    i, j := 0, 0;
    assert f + [] == f && g + [] == g;
    if m > CHUNK && n <= CHUNK {
      i :| 0 <= i < ChunkCount(m) && g == f + Suffix(i, true);
    } else if m <= CHUNK && n > CHUNK {
      j :| 0 <= j < ChunkCount(n) && f == g + Suffix(j, true);
    }
  }

  /** Two buckets share a task id exactly when they are of one group and their names meet. */
  lemma {:induction false} BucketsShareExactlyWhen(b: Bucket, c: Bucket, safe: string -> string)
    requires '-' !in GroupOfKey(b.key) && '-' !in GroupOfKey(c.key) && b.requirements != [] && c.requirements != []
    ensures ShareId(b, c, safe)
            <==> GroupOfKey(b.key) == GroupOfKey(c.key)
                 && Meet(safe(FamilyOfKey(b.key)), |b.requirements|, safe(FamilyOfKey(c.key)), |c.requirements|)
  {
    var f, g := safe(FamilyOfKey(b.key)), safe(FamilyOfKey(c.key));
    var m, n := |b.requirements|, |c.requirements|;
    BucketIdsAre(b, safe);
    BucketIdsAre(c, safe);
    var x, y := BucketIds(b, safe), BucketIds(c, safe);
    if ShareId(b, c, safe) {
      var id :| id in x && id in y;
      var i: nat :| i < |x| && x[i] == id;
      var j: nat :| j < |y| && y[j] == id;
      IdsAgree(b.key, i, m > CHUNK, c.key, j, n > CHUNK, safe);
      NamesThatMeet(f, i, m, g, j, n);
    }
    if GroupOfKey(b.key) == GroupOfKey(c.key) && Meet(f, m, g, n) {
      var i, j := MeetingNames(f, m, g, n);
      IdsAgree(b.key, i, m > CHUNK, c.key, j, n > CHUNK, safe);
      assert x[i] in x && x[i] == y[j];
    }
  }

  lemma {:induction false} DistinctAppend<T(!new)>(a: seq<T>, b: seq<T>)
    ensures Distinct(a + b) <==> Distinct(a) && Distinct(b) && forall x | x in a :: x !in b
  {
    forall i, j | 0 <= i < j < |a + b| && Distinct(a) && Distinct(b) && (forall x | x in a :: x !in b)
      ensures (a + b)[i] != (a + b)[j]
    {
      assert i < |a| ==> (a + b)[i] in a;
      assert j >= |a| ==> (a + b)[j] in b;
    }
    if Distinct(a + b) {
      PartsDistinct(a, b);
    }
  }

  lemma {:induction false} PartsDistinct<T>(a: seq<T>, b: seq<T>)
    requires Distinct(a + b)
    ensures Distinct(a) && Distinct(b) && forall x | x in a :: x !in b
  {
    var s := a + b;
    forall i, j | 0 <= i < j < |a| ensures a[i] != a[j] {
      assert s[i] != s[j];
    }
    forall i, j | 0 <= i < j < |b| ensures b[i] != b[j] {
      assert s[|a| + i] != s[|a| + j];
    }
    forall i, j | 0 <= i < |a| && 0 <= j < |b| ensures a[i] != b[j] {
      assert s[i] != s[|a| + j];
    }
  }

  lemma {:induction false} EntryIdsAppend(a: seq<Entry>, b: seq<Entry>)
    ensures EntryIds(a + b) == EntryIds(a) + EntryIds(b)
  {
  }

  lemma {:induction false} IdsOfAll(buckets: seq<Bucket>, safe: string -> string)
    ensures forall id :: id in EntryIds(AllEntries(buckets, safe))
                         <==> exists k :: 0 <= k < |buckets| && id in BucketIds(buckets[k], safe)
  {
    if buckets != [] {
      var rest := buckets[1..];
      IdsOfAll(rest, safe);
      EntryIdsAppend(EntriesOf(buckets[0], safe), AllEntries(rest, safe));
      forall id ensures id in EntryIds(AllEntries(buckets, safe))
                        <==> exists k :: 0 <= k < |buckets| && id in BucketIds(buckets[k], safe) {
        if k :| 0 <= k < |buckets| && id in BucketIds(buckets[k], safe) {
          assert k > 0 ==> rest[k - 1] == buckets[k];
        }
        if k :| 0 <= k < |rest| && id in BucketIds(rest[k], safe) {
          assert buckets[k + 1] == rest[k];
        }
      }
    }
  }

  /** All ids are distinct exactly when no two buckets share one. */
  lemma {:induction false} DistinctUnlessShared(buckets: seq<Bucket>, safe: string -> string)
    ensures Distinct(EntryIds(AllEntries(buckets, safe)))
            <==> forall i, j | 0 <= i < j < |buckets| :: !ShareId(buckets[i], buckets[j], safe)
  {
    if buckets != [] {
      var rest := buckets[1..];
      var x, y := BucketIds(buckets[0], safe), EntryIds(AllEntries(rest, safe));
      DistinctUnlessShared(rest, safe);
      BucketIdsAre(buckets[0], safe);
      EntryIdsAppend(EntriesOf(buckets[0], safe), AllEntries(rest, safe));
      DistinctAppend(x, y);
      IdsOfAll(rest, safe);
      FirstSharesNone(buckets, safe);
      assert forall i, j | 0 < i < j < |buckets| :: rest[i - 1] == buckets[i] && rest[j - 1] == buckets[j];
    }
  }

  lemma {:induction false} FirstSharesNone(buckets: seq<Bucket>, safe: string -> string)
    requires buckets != []
    ensures (forall j | 0 < j < |buckets| :: !ShareId(buckets[0], buckets[j], safe))
            <==> forall id | id in BucketIds(buckets[0], safe) :: id !in EntryIds(AllEntries(buckets[1..], safe))
  {
    IdsOfAll(buckets[1..], safe);
    forall j | 0 < j < |buckets| ensures buckets[1..][j - 1] == buckets[j] {
    }
    forall id, j | && id in BucketIds(buckets[0], safe)
                   && 0 <= j < |buckets[1..]| && id in BucketIds(buckets[1..][j], safe)
      ensures ShareId(buckets[0], buckets[j + 1], safe)
    {
    }
  }

  // ---------------------------------------------------------------------------------------------
  // From buckets to requirements
  // ---------------------------------------------------------------------------------------------

  function Keys(buckets: seq<Bucket>): seq<string> {
    seq(|buckets|, i requires 0 <= i < |buckets| => buckets[i].key)
  }

  lemma {:induction false} PutKeys(buckets: seq<Bucket>, r: Requirement)
    ensures Keys(Put(buckets, r)) == if Key(r) in Keys(buckets) then Keys(buckets) else Keys(buckets) + [Key(r)]
  {
    if buckets != [] {
      assert Keys(buckets) == [buckets[0].key] + Keys(buckets[1..]);
      if buckets[0].key != Key(r) {
        PutKeys(buckets[1..], r);
        assert Put(buckets, r)[1..] == Put(buckets[1..], r);
        assert Keys(Put(buckets, r)) == [buckets[0].key] + Keys(Put(buckets[1..], r));
      }
    }
  }

  lemma {:induction false} GroupedKeys(requirements: seq<Requirement>)
    ensures Distinct(Keys(Grouped(requirements)))
    ensures forall key :: key in Keys(Grouped(requirements)) <==> exists r :: r in requirements && key == Key(r)
  {
    if requirements != [] {
      var front, last := requirements[..|requirements| - 1], requirements[|requirements| - 1];
      GroupedKeys(front);
      PutKeys(Grouped(front), last);
      SnocDistinct(Keys(Grouped(front)), Key(last));
      assert forall r :: r in requirements <==> r in front || r == last;
    }
  }

  /** The requirements of a key, in the order of the list. */
  function WithKey(requirements: seq<Requirement>, key: string): seq<Requirement> {
    if requirements == [] then []
    else
      var last := requirements[|requirements| - 1];
      WithKey(requirements[..|requirements| - 1], key) + (if Key(last) == key then [last] else [])
  }

  /** The place in the list at which a key first appears. */
  predicate FirstAppears(requirements: seq<Requirement>, key: string, p: int) {
    0 <= p < |requirements| && Key(requirements[p]) == key && forall q | 0 <= q < p :: Key(requirements[q]) != key
  }

  predicate InOrder(requirements: seq<Requirement>, buckets: seq<Bucket>, places: seq<int>) {
    && |places| == |buckets|
    && (forall k | 0 <= k < |buckets| ::
          && FirstAppears(requirements, buckets[k].key, places[k])
          && buckets[k].requirements == WithKey(requirements, buckets[k].key))
    && (forall k, l | 0 <= k < l < |buckets| :: places[k] < places[l])
  }

  lemma {:induction false} PutExtends(buckets: seq<Bucket>, r: Requirement)
    requires Distinct(Keys(buckets))
    ensures var after := Put(buckets, r);
            && |buckets| <= |after|
            && (Key(r) in Keys(buckets) ==> |after| == |buckets|)
            && (Key(r) !in Keys(buckets) ==> after == buckets + [Bucket(Key(r), [r])])
            && (forall k | 0 <= k < |buckets| ::
                  && after[k].key == buckets[k].key
                  && after[k].requirements == buckets[k].requirements + (if buckets[k].key == Key(r) then [r] else []))
  {
    if buckets != [] {
      assert Keys(buckets) == [buckets[0].key] + Keys(buckets[1..]);
      PartsDistinct([buckets[0].key], Keys(buckets[1..]));
      if buckets[0].key != Key(r) {
        PutExtends(buckets[1..], r);
      } else {
        forall k | 0 < k < |buckets| ensures buckets[k].key != Key(r) {
          assert Keys(buckets)[0] != Keys(buckets)[k];
        }
      }
    }
  }

  lemma {:induction false} OneMore(front: seq<Requirement>, last: Requirement, key: string)
    ensures Grouped(front + [last]) == Put(Grouped(front), last)
    ensures WithKey(front + [last], key) == WithKey(front, key) + (if Key(last) == key then [last] else [])
    ensures forall p | FirstAppears(front, key, p) :: FirstAppears(front + [last], key, p)
  {
    assert (front + [last])[..|front|] == front;
  }

  lemma {:induction false} OldBucketStays(
    front: seq<Requirement>, last: Requirement, buckets: seq<Bucket>, k: nat, p: int)
    requires Distinct(Keys(buckets)) && k < |buckets|
    requires FirstAppears(front, buckets[k].key, p) && buckets[k].requirements == WithKey(front, buckets[k].key)
    ensures k < |Put(buckets, last)|
    ensures var b := Put(buckets, last)[k];
            FirstAppears(front + [last], b.key, p) && b.requirements == WithKey(front + [last], b.key)
  {
    PutExtends(buckets, last);
    OneMore(front, last, buckets[k].key);
  }

  lemma {:induction false} NewBucketIsLast(front: seq<Requirement>, last: Requirement)
    requires Key(last) !in Keys(Grouped(front))
    ensures Put(Grouped(front), last) == Grouped(front) + [Bucket(Key(last), [last])]
    ensures FirstAppears(front + [last], Key(last), |front|) && WithKey(front + [last], Key(last)) == [last]
  {
    GroupedKeys(front);
    PutExtends(Grouped(front), last);
    forall q | 0 <= q < |front| ensures Key(front[q]) != Key(last) {
      assert front[q] in front;
    }
    NoneWithKey(front, Key(last));
    OneMore(front, last, Key(last));
  }

  lemma {:induction false} InOrderSnoc(
    front: seq<Requirement>, last: Requirement, buckets: seq<Bucket>, places: seq<int>)
    returns (more: seq<int>)
    requires buckets == Grouped(front) && InOrder(front, buckets, places)
    ensures InOrder(front + [last], Put(buckets, last), more)
  {
    var after := Put(buckets, last);
    GroupedKeys(front);
    PutExtends(buckets, last);
    forall k | 0 <= k < |buckets|
      ensures FirstAppears(front + [last], after[k].key, places[k])
      ensures after[k].requirements == WithKey(front + [last], after[k].key)
    {
      OldBucketStays(front, last, buckets, k, places[k]);
    }
    more := places;
    if Key(last) !in Keys(buckets) {
      NewBucketIsLast(front, last);
      more := places + [|front|];
    }
  }

  /** The buckets stand in the order in which their keys first appear in the list, and each holds exactly the
      requirements of its key, in the order of the list. */
  lemma {:induction false} BucketsAreInOrder(requirements: seq<Requirement>) returns (places: seq<int>)
    ensures InOrder(requirements, Grouped(requirements), places)
  {
    if requirements == [] {
      places := [];
    } else {
      var front, last := requirements[..|requirements| - 1], requirements[|requirements| - 1];
      places := BucketsAreInOrder(front);
      places := InOrderSnoc(front, last, Grouped(front), places);
      assert requirements == front + [last];
    }
  }

  lemma {:induction false} NoneWithKey(requirements: seq<Requirement>, key: string)
    requires forall q | 0 <= q < |requirements| :: Key(requirements[q]) != key
    ensures WithKey(requirements, key) == []
  {
    if requirements != [] {
      NoneWithKey(requirements[..|requirements| - 1], key);
    }
  }

  /** How many requirements carry a key. */
  function Members(requirements: seq<Requirement>, key: string): nat {
    if requirements == [] then 0
    else
      Members(requirements[..|requirements| - 1], key) + (if Key(requirements[|requirements| - 1]) == key then 1 else 0)
  }

  function SizeOf(buckets: seq<Bucket>, key: string): nat {
    if buckets == [] then 0
    else if buckets[0].key == key then |buckets[0].requirements|
    else SizeOf(buckets[1..], key)
  }

  lemma {:induction false} PutGrows(buckets: seq<Bucket>, r: Requirement, key: string)
    ensures SizeOf(Put(buckets, r), key) == SizeOf(buckets, key) + (if Key(r) == key then 1 else 0)
  {
    if buckets != [] && buckets[0].key != Key(r) {
      PutGrows(buckets[1..], r, key);
      assert Put(buckets, r)[1..] == Put(buckets[1..], r);
    }
  }

  lemma {:induction false} GroupedSizes(requirements: seq<Requirement>, key: string)
    ensures SizeOf(Grouped(requirements), key) == Members(requirements, key)
  {
    if requirements != [] {
      GroupedSizes(requirements[..|requirements| - 1], key);
      PutGrows(Grouped(requirements[..|requirements| - 1]), requirements[|requirements| - 1], key);
    }
  }

  lemma {:induction false} SizeOfBucket(buckets: seq<Bucket>, k: nat)
    requires Distinct(Keys(buckets)) && k < |buckets|
    ensures SizeOf(buckets, buckets[k].key) == |buckets[k].requirements|
  {
    if k > 0 {
      assert Keys(buckets)[0] != Keys(buckets)[k];
      assert Keys(buckets) == [buckets[0].key] + Keys(buckets[1..]);
      PartsDistinct([buckets[0].key], Keys(buckets[1..]));
      SizeOfBucket(buckets[1..], k - 1);
    }
  }

  lemma {:induction false} MembersAreCounted(requirements: seq<Requirement>, r: Requirement)
    requires r in requirements
    ensures Members(requirements, Key(r)) > 0
  {
    if requirements[|requirements| - 1] != r {
      MembersAreCounted(requirements[..|requirements| - 1], r);
    }
  }

  /** The bucket of a requirement's key. */
  lemma {:induction false} BucketOf(requirements: seq<Requirement>, r: Requirement) returns (k: nat)
    requires r in requirements
    ensures k < |Grouped(requirements)| && Grouped(requirements)[k].key == Key(r)
    ensures |Grouped(requirements)[k].requirements| == Members(requirements, Key(r)) > 0
  {
    var buckets := Grouped(requirements);
    GroupedKeys(requirements);
    assert Key(r) in Keys(buckets);
    k :| 0 <= k < |buckets| && Keys(buckets)[k] == Key(r);
    SizeOfBucket(buckets, k);
    GroupedSizes(requirements, Key(r));
    MembersAreCounted(requirements, r);
  }

  /** Two requirements of different keys whose tasks share an id: one group, and families that meet. */
  predicate Clash(requirements: seq<Requirement>, safe: string -> string, r: Requirement, s: Requirement) {
    && Key(r) != Key(s) && GroupOfKey(Key(r)) == GroupOfKey(Key(s))
    && Meet(safe(FamilyOfKey(Key(r))), Members(requirements, Key(r)),
            safe(FamilyOfKey(Key(s))), Members(requirements, Key(s)))
  }

  /** No group holds a hyphen. */
  predicate PlainGroups(requirements: seq<Requirement>) {
    forall r | r in requirements :: '-' !in GroupOfKey(Key(r))
  }

  /** All task ids are distinct exactly when no two requirements clash: in one group, families of different
      keys must be spelled differently when both are cut into numbered tasks or neither is, and otherwise
      the uncut one must not be spelled like a numbered task of the other. */
  lemma {:induction false} DistinctIdsExactlyWhen(requirements: seq<Requirement>, safe: string -> string)
    requires PlainGroups(requirements)
    ensures Distinct(TaskIds(TasksOf(Entries(requirements, safe))))
            <==> forall r, s | r in requirements && s in requirements :: !Clash(requirements, safe, r, s)
  {
    var buckets := Grouped(requirements);
    assert TaskIds(TasksOf(Entries(requirements, safe))) == EntryIds(Entries(requirements, safe));
    DistinctUnlessShared(buckets, safe);
    forall r, s | r in requirements && s in requirements && Clash(requirements, safe, r, s)
      ensures exists i, j :: 0 <= i < j < |buckets| && ShareId(buckets[i], buckets[j], safe)
    {
      var i := BucketOf(requirements, r);
      var j := BucketOf(requirements, s);
      BucketsShareExactlyWhen(buckets[i], buckets[j], safe);
      assert ShareId(buckets[if i < j then i else j], buckets[if i < j then j else i], safe);
    }
    forall i, j | 0 <= i < j < |buckets| && ShareId(buckets[i], buckets[j], safe)
      ensures exists r, s :: r in requirements && s in requirements && Clash(requirements, safe, r, s)
    {
      var r, s := SharersClash(requirements, safe, i, j);
    }
  }

  lemma {:induction false} SharersClash(requirements: seq<Requirement>, safe: string -> string, i: nat, j: nat)
    returns (r: Requirement, s: Requirement)
    requires PlainGroups(requirements) && i < j < |Grouped(requirements)|
    requires ShareId(Grouped(requirements)[i], Grouped(requirements)[j], safe)
    ensures r in requirements && s in requirements && Clash(requirements, safe, r, s)
  {
    var buckets := Grouped(requirements);
    GroupedKeys(requirements);
    assert Keys(buckets)[i] != Keys(buckets)[j];
    assert Keys(buckets)[i] in Keys(buckets) && Keys(buckets)[j] in Keys(buckets);
    r :| r in requirements && Keys(buckets)[i] == Key(r);
    s :| s in requirements && Keys(buckets)[j] == Key(s);
    SizeOfBucket(buckets, i);
    SizeOfBucket(buckets, j);
    GroupedSizes(requirements, Key(r));
    GroupedSizes(requirements, Key(s));
    MembersAreCounted(requirements, r);
    MembersAreCounted(requirements, s);
    BucketsShareExactlyWhen(buckets[i], buckets[j], safe);
  }

  // ---------------------------------------------------------------------------------------------
  // Two owners of one family
  // ---------------------------------------------------------------------------------------------

  lemma {:induction false} EntriesOfKey(buckets: seq<Bucket>, safe: string -> string, k: nat)
    requires Distinct(Keys(buckets)) && k < |buckets|
    ensures forall e :: e in AllEntries(buckets, safe) && e.key == buckets[k].key <==> e in EntriesOf(buckets[k], safe)
  {
    var rest := buckets[1..];
    assert Keys(buckets) == [buckets[0].key] + Keys(rest);
    PartsDistinct([buckets[0].key], Keys(rest));
    KeysOfEntries(rest, safe);
    assert buckets[0].key in [buckets[0].key];
    if k > 0 {
      EntriesOfKey(rest, safe, k - 1);
      assert Keys(rest)[k - 1] == buckets[k].key && Keys(rest)[k - 1] in Keys(rest);
    }
  }

  lemma {:induction false} KeysOfEntries(buckets: seq<Bucket>, safe: string -> string)
    ensures forall e | e in AllEntries(buckets, safe) :: e.key in Keys(buckets)
  {
    if buckets != [] {
      KeysOfEntries(buckets[1..], safe);
      assert Keys(buckets) == [buckets[0].key] + Keys(buckets[1..]);
    }
  }

  /** Two keys come to one task id. */
  ghost predicate KeysShareId(requirements: seq<Requirement>, safe: string -> string, key: string, other: string) {
    exists e, e' :: e in Entries(requirements, safe) && e' in Entries(requirements, safe)
                    && e.key == key && e'.key == other && e.id == e'.id
  }

  /** In every specification, two owners of one family, or of families that spell alike, share a task id
      exactly when both are cut into numbered tasks or neither is. */
  lemma {:induction false} TwoOwnersShareAnIdExactlyWhen(
      requirements: seq<Requirement>, safe: string -> string, r: Requirement, s: Requirement)
    requires PlainGroups(requirements) && r in requirements && s in requirements && Key(r) != Key(s)
    requires GroupOfKey(Key(r)) == GroupOfKey(Key(s)) && safe(FamilyOfKey(Key(r))) == safe(FamilyOfKey(Key(s)))
    ensures KeysShareId(requirements, safe, Key(r), Key(s))
            <==> (Members(requirements, Key(r)) > 8 <==> Members(requirements, Key(s)) > 8)
  {
    var buckets := Grouped(requirements);
    GroupedKeys(requirements);
    var i := BucketOf(requirements, r);
    var j := BucketOf(requirements, s);
    EntriesOfKey(buckets, safe, i);
    EntriesOfKey(buckets, safe, j);
    BucketsShareExactlyWhen(buckets[i], buckets[j], safe);
    NoNameIsItsOwnNumber(safe(FamilyOfKey(Key(r))), Members(requirements, Key(r)));
    NoNameIsItsOwnNumber(safe(FamilyOfKey(Key(r))), Members(requirements, Key(s)));
    SharedEntries(buckets[i], buckets[j], safe);
  }

  lemma {:induction false} NoNameIsItsOwnNumber(family: string, n: nat)
    ensures !IsNumberedOf(family, n, family)
  {
  }

  lemma {:induction false} SharedEntries(b: Bucket, c: Bucket, safe: string -> string)
    ensures ShareId(b, c, safe) <==>
            exists e, e' :: e in EntriesOf(b, safe) && e' in EntriesOf(c, safe) && e.id == e'.id
  {
    if ShareId(b, c, safe) {
      var id :| id in BucketIds(b, safe) && id in BucketIds(c, safe);
      var e := EntryWithId(EntriesOf(b, safe), id);
      var e' := EntryWithId(EntriesOf(c, safe), id);
      assert e.id == e'.id;
    }
    forall e, e' | e in EntriesOf(b, safe) && e' in EntriesOf(c, safe) && e.id == e'.id ensures ShareId(b, c, safe) {
      IdOfEntry(EntriesOf(b, safe), e);
      IdOfEntry(EntriesOf(c, safe), e');
      assert e.id in BucketIds(b, safe) && e.id in BucketIds(c, safe);
    }
  }

  lemma {:induction false} EntryWithId(entries: seq<Entry>, id: string) returns (e: Entry)
    requires id in EntryIds(entries)
    ensures e in entries && e.id == id
  {
    var i :| 0 <= i < |entries| && EntryIds(entries)[i] == id;
    e := entries[i];
  }

  lemma {:induction false} IdOfEntry(entries: seq<Entry>, e: Entry)
    requires e in entries
    ensures e.id in EntryIds(entries)
  {
    var i :| 0 <= i < |entries| && entries[i] == e;
    assert EntryIds(entries)[i] == e.id;
  }

  // ---------------------------------------------------------------------------------------------
  // What the task contract schema makes of the ids
  // ---------------------------------------------------------------------------------------------

  /** The dependency groups that a task contract may name. */
  predicate IsGroup(group: string) {
    group == "FW" || (|group| == 2 && group[0] == 'G' && '0' <= group[1] <= '7')
  }

  predicate IsContractId(id: string) {
    && |id| > 5 && id[..2] == "T-" && IsGroup(id[2..4]) && id[4] == '-'
    && forall k | 5 <= k < |id| :: 'A' <= id[k] <= 'Z' || '0' <= id[k] <= '9' || id[k] == '-'
  }

  /** The patterns that the contract of every task must match. */
  predicate IsContract(t: Task) {
    IsGroup(t.group) && IsContractId(t.id)
  }

  lemma {:induction false} EntryHasIdOfItsKey(buckets: seq<Bucket>, safe: string -> string, e: Entry)
    returns (i: nat, several: bool)
    requires e in AllEntries(buckets, safe)
    ensures e.id == TaskId(e.key, i, several, safe)
  {
    if e in EntriesOf(buckets[0], safe) {
      i :| 0 <= i < |EntriesOf(buckets[0], safe)| && EntriesOf(buckets[0], safe)[i] == e;
      several := |Chunks(buckets[0].requirements)| > 1;
    } else {
      i, several := EntryHasIdOfItsKey(buckets[1..], safe, e);
    }
  }

  lemma {:induction false} TaskHasEntry(entries: seq<Entry>, t: Task) returns (e: Entry)
    requires t in TasksOf(entries)
    ensures e in entries && t == TaskOf(e)
  {
    var k :| 0 <= k < |TasksOf(entries)| && TasksOf(entries)[k] == t;
    e := entries[k];
  }

  /** The group pattern is what makes an id tell its group: groups without a hyphen suffice, whatever the
      families, owners and sizes. */
  lemma {:induction false} PlainGroupsAreTold(requirements: seq<Requirement>, safe: string -> string)
    requires forall t | t in TasksOf(Entries(requirements, safe)) :: '-' !in t.group
    ensures IdTellsGroup(TasksOf(Entries(requirements, safe)))
  {
    var entries := Entries(requirements, safe);
    forall x, y | x in TasksOf(entries) && y in TasksOf(entries) && x.id == y.id ensures x.group == y.group {
      var e := TaskHasEntry(entries, x);
      var e' := TaskHasEntry(entries, y);
      var i, m := EntryHasIdOfItsKey(Grouped(requirements), safe, e);
      var j, n := EntryHasIdOfItsKey(Grouped(requirements), safe, e');
      IdsAgree(e.key, i, m, e'.key, j, n, safe);
    }
  }

  /** For every specification whose contracts parse, an acyclic group graph yields an acyclic task graph. */
  lemma {:induction false} ContractsKeepTheGraphAcyclic(
    requirements: seq<Requirement>, safe: string -> string, groups: Graph<string>, g: Graph<string>)
    requires forall t | t in TasksOf(Entries(requirements, safe)) :: IsContract(t)
    requires IsTaskGraph(TasksOf(Entries(requirements, safe)), groups, g) && Closed(groups) && !HasCycle(groups)
    ensures !HasCycle(g)
  {
    PlainGroupsAreTold(requirements, safe);
    TaskGraphIsAcyclic(TasksOf(Entries(requirements, safe)), groups, g);
  }

  // Why the pattern is needed.

  function TaskOfOne(r: Requirement, safe: string -> string): Task {
    Task(TaskId(Key(r), 0, false, safe), GroupOfKey(Key(r)), [r.id], [], [])
  }

  lemma {:induction false} TasksOfTwo(r: Requirement, s: Requirement, safe: string -> string)
    requires Key(r) != Key(s)
    ensures TasksOf(Entries([r, s], safe)) == [TaskOfOne(r, safe), TaskOfOne(s, safe)]
  {
    var x, y := Bucket(Key(r), [r]), Bucket(Key(s), [s]);
    assert [r, s][..1] == [r] && [r][..0] == [];
    assert Grouped([r]) == [x];
    assert [x][1..] == [] && Put([], s) == [y];
    assert Grouped([r, s]) == Put([x], s) == [x] + Put([], s) == [x, y];
    assert [x, y][1..] == [y] && [y][1..] == [];
    OneEntry(r, safe);
    OneEntry(s, safe);
    assert AllEntries([y], safe) == EntriesOf(y, safe) + AllEntries([], safe);
    assert AllEntries([x, y], safe) == EntriesOf(x, safe) + AllEntries([y], safe);
    var entries := Entries([r, s], safe);
    assert entries == [EntryOfOne(r, safe), EntryOfOne(s, safe)];
    assert TaskOf(EntryOfOne(r, safe)) == TaskOfOne(r, safe) && TaskOf(EntryOfOne(s, safe)) == TaskOfOne(s, safe);
  }

  function EntryOfOne(r: Requirement, safe: string -> string): Entry {
    Entry(Key(r), [r], TaskId(Key(r), 0, false, safe))
  }

  lemma {:induction false} OneEntry(r: Requirement, safe: string -> string)
    ensures EntriesOf(Bucket(Key(r), [r]), safe) == [EntryOfOne(r, safe)]
  {
    assert |Chunks([r])| == 1 && Chunks([r])[0] == [r];
  }

  /** A group and a family that spell like another group and family would make two tasks of one id in
      different groups, and of a dependency between the groups a task that depends on itself. The contract
      of one of the two does not parse. */
  lemma {:induction false} GroupPatternIsNeeded(
    r: Requirement, s: Requirement, safe: string -> string, tasks: seq<Task>, groups: Graph<string>, g: Graph<string>)
    requires GroupOfKey(Key(r)) != GroupOfKey(Key(s))
    requires GroupOfKey(Key(r)) + ['-'] + safe(FamilyOfKey(Key(r)))
             == GroupOfKey(Key(s)) + ['-'] + safe(FamilyOfKey(Key(s)))
    requires tasks == TasksOf(Entries([r, s], safe)) && IsTaskGraph(tasks, groups, g)
    requires groups == map[GroupOfKey(Key(r)) := [GroupOfKey(Key(s))], GroupOfKey(Key(s)) := []]
    ensures |tasks| == 2 && tasks[0].id == tasks[1].id && (!IsContract(tasks[0]) || !IsContract(tasks[1]))
    ensures Closed(groups) && !HasCycle(groups) && HasCycle(g)
  {
    TasksOfTwo(r, s, safe);
    AlikeAcrossTheHyphen(Key(r), Key(s), safe);
    GroupsHoldNoHyphen(tasks[0].group);
    GroupsHoldNoHyphen(tasks[1].group);
    SharedIdClosesACycle(tasks[0], tasks[1], groups, g);
  }

  lemma {:induction false} GroupsHoldNoHyphen(group: string)
    ensures IsGroup(group) ==> '-' !in group
  {
  }

  lemma {:induction false} AlikeAcrossTheHyphen(key: string, other: string, safe: string -> string)
    requires GroupOfKey(key) != GroupOfKey(other)
    requires GroupOfKey(key) + ['-'] + safe(FamilyOfKey(key)) == GroupOfKey(other) + ['-'] + safe(FamilyOfKey(other))
    ensures TaskId(key, 0, false, safe) == TaskId(other, 0, false, safe)
    ensures '-' in GroupOfKey(key) || '-' in GroupOfKey(other)
  {
    IdParts(key, 0, false, safe);
    IdParts(other, 0, false, safe);
    var x, y := safe(FamilyOfKey(key)), safe(FamilyOfKey(other));
    assert GroupOfKey(key) + ['-'] + (x + []) == GroupOfKey(key) + ['-'] + x;
    assert GroupOfKey(other) + ['-'] + (y + []) == GroupOfKey(other) + ['-'] + y;
    if '-' !in GroupOfKey(key) && '-' !in GroupOfKey(other) {
      CutAtFirst(GroupOfKey(key), x, GroupOfKey(other), y);
    }
  }
}
