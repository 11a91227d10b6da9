/** The identity of a product gap: a key built from committed ids only, the same for every spelling of
    the same ids and different for different ids. Letters are ASCII. */
module GapIdentity {
  import opened Text

  datatype Ids = Ids(
    milestone: string,
    requirements: seq<string>,
    acceptance: seq<string>,
    invariants: seq<string>,
    capability: string)

  datatype MissingId = MilestoneIdRequired | RequirementIdRequired

  // ---------------------------------------------------------------------------------------------
  // Spelling
  // ---------------------------------------------------------------------------------------------

  predicate IsSpace(c: char) {
    c in " \t\n\r"
  }

  predicate AllSpace(s: string) {
    forall i | 0 <= i < |s| :: IsSpace(s[i])
  }

  function StripLeft(s: string): string {
    if s != "" && IsSpace(s[0]) then StripLeft(s[1..]) else s
  }

  function StripRight(s: string): string {
    if s != "" && IsSpace(s[|s| - 1]) then StripRight(s[..|s| - 1]) else s
  }

  function UpperChar(c: char): char {
    if 'a' <= c <= 'z' then c - 'a' + 'A' else c
  }

  function Upper(s: string): string {
    seq(|s|, i requires 0 <= i < |s| => UpperChar(s[i]))
  }

  function Normalise(s: string): string {
    Upper(StripRight(StripLeft(s)))
  }

  lemma {:induction false} StripLeftPadded(pad: string, s: string)
    requires AllSpace(pad)
    ensures StripLeft(pad + s) == StripLeft(s)
  {
    if pad == "" {
      assert pad + s == s;
    } else {
      StripLeftPadded(pad[1..], s);
      assert (pad + s)[1..] == pad[1..] + s;
    }
  }

  lemma {:induction false} StripRightPadded(s: string, pad: string)
    requires AllSpace(pad)
    ensures StripRight(s + pad) == StripRight(s)
  {
    if pad == "" {
      assert s + pad == s;
    } else {
      StripRightPadded(s, pad[..|pad| - 1]);
      assert (s + pad)[..|s + pad| - 1] == s + pad[..|pad| - 1];
    }
  }

  lemma {:induction false} StripLeftKeepsTail(s: string, pad: string)
    requires AllSpace(pad)
    ensures StripLeft(s + pad) == StripLeft(s) + pad || (StripLeft(s) == "" && StripLeft(s + pad) == "")
  {
    if s == "" {
      assert s + pad == pad + "";
      StripLeftPadded(pad, "");
    } else if IsSpace(s[0]) {
      StripLeftKeepsTail(s[1..], pad);
      assert (s + pad)[1..] == s[1..] + pad;
    }
  }

  /** Outer spaces do not matter. */
  lemma {:induction false} PaddingDoesNotMatter(before: string, s: string, after: string)
    requires AllSpace(before) && AllSpace(after)
    ensures Normalise(before + s + after) == Normalise(s)
  {
    assert before + s + after == before + (s + after);
    StripLeftPadded(before, s + after);
    StripLeftKeepsTail(s, after);
    StripRightPadded(StripLeft(s), after);
  }

  lemma {:induction false} StripLeftOfUpper(s: string)
    ensures StripLeft(Upper(s)) == Upper(StripLeft(s))
  {
    if s != "" {
      StripLeftOfUpper(s[1..]);
      assert Upper(s)[1..] == Upper(s[1..]);
    }
  }

  lemma {:induction false} StripRightOfUpper(s: string)
    ensures StripRight(Upper(s)) == Upper(StripRight(s))
  {
    if s != "" {
      StripRightOfUpper(s[..|s| - 1]);
      assert Upper(s)[..|s| - 1] == Upper(s[..|s| - 1]);
    }
  }

  /** Letter case does not matter. */
  lemma {:induction false} CaseDoesNotMatter(s: string, t: string)
    requires Upper(s) == Upper(t)
    ensures Normalise(s) == Normalise(t)
  {
    StripLeftOfUpper(s);
    StripLeftOfUpper(t);
    StripRightOfUpper(StripLeft(s));
    StripRightOfUpper(StripLeft(t));
  }

  // ---------------------------------------------------------------------------------------------
  // Sorting
  // ---------------------------------------------------------------------------------------------

  predicate Before(a: string, b: string) {
    if a == "" then true
    else if b == "" then false
    else a[0] < b[0] || (a[0] == b[0] && Before(a[1..], b[1..]))
  }

  lemma {:induction false} BeforeIsTotal(a: string, b: string)
    ensures Before(a, b) || Before(b, a)
    ensures Before(a, b) && Before(b, a) ==> a == b
  {
    if a != "" && b != "" {
      BeforeIsTotal(a[1..], b[1..]);
      assert a == [a[0]] + a[1..] && b == [b[0]] + b[1..];
    }
  }

  lemma {:induction false} BeforeIsTransitive(a: string, b: string, c: string)
    requires Before(a, b) && Before(b, c)
    ensures Before(a, c)
  {
    if a != "" && b != "" && c != "" {
      if a[0] == b[0] && b[0] == c[0] {
        BeforeIsTransitive(a[1..], b[1..], c[1..]);
      }
    }
  }

  ghost predicate IsLeast(m: string, s: set<string>) {
    m in s && forall x | x in s :: Before(m, x)
  }

  lemma {:induction false} LeastExists(s: set<string>)
    requires s != {}
    ensures exists m :: IsLeast(m, s)
  {
    var x :| x in s;
    BeforeIsTotal(x, x);
    if s == {x} {
      assert IsLeast(x, s);
    } else {
      LeastExists(s - {x});
      var m :| IsLeast(m, s - {x});
      BeforeIsTotal(m, x);
      BeforeIsTotal(m, m);
      if Before(m, x) {
        assert IsLeast(m, s);
      } else {
        forall y | y in s ensures Before(x, y) {
          if y != x {
            BeforeIsTransitive(x, m, y);
          }
        }
        assert IsLeast(x, s);
      }
    }
  }

  /** The elements in ascending order. */
  ghost function Sorted(s: set<string>): (r: seq<string>)
    ensures |r| == |s|
    ensures forall x :: x in r <==> x in s
  {
    if s == {} then []
    else
      LeastExists(s);
      var m :| IsLeast(m, s);
      [m] + Sorted(s - {m})
  }

  lemma {:induction false} SortedHead(s: set<string>) returns (m: string, rest: seq<string>)
    requires s != {}
    ensures IsLeast(m, s) && rest == Sorted(s - {m}) && Sorted(s) == [m] + rest
  {
    LeastExists(s);
    m := Sorted(s)[0];
    rest := Sorted(s - {m});
  }

  lemma {:induction false} SortedAscends(s: set<string>, i: nat, j: nat)
    requires i < j < |Sorted(s)|
    ensures Before(Sorted(s)[i], Sorted(s)[j]) && Sorted(s)[i] != Sorted(s)[j]
  {
    var m, rest := SortedHead(s);
    if i > 0 {
      SortedAscends(s - {m}, i - 1, j - 1);
    } else {
      InSorted(s - {m}, j - 1);
    }
  }

  lemma {:induction false} InSorted(s: set<string>, k: nat)
    requires k < |Sorted(s)|
    ensures Sorted(s)[k] in s
  {
    assert Sorted(s)[k] in Sorted(s);
  }

  // ---------------------------------------------------------------------------------------------
  // The key
  // ---------------------------------------------------------------------------------------------

  /** The ids of a list that are not blank, spelled one way, each once. */
  function IdSet(ids: seq<string>): set<string> {
    set x | x in ids && Normalise(x) != "" :: Normalise(x)
  }

  /** What a gap is about, however its ids are listed. */
  datatype Meaning = Meaning(
    milestone: string, requirements: set<string>, acceptance: set<string>, invariants: set<string>, capability: string)

  function MeaningOf(i: Ids): Meaning {
    Meaning(Normalise(i.milestone), IdSet(i.requirements), IdSet(i.acceptance), IdSet(i.invariants),
      Normalise(i.capability))
  }

  ghost function Parts(m: Meaning): (parts: seq<string>)
    ensures |parts| == 5
  {
    [m.milestone, Join(Sorted(m.requirements), ','), Join(Sorted(m.acceptance), ','),
     Join(Sorted(m.invariants), ','), m.capability]
  }

  /** The text that is hashed. */
  ghost function RawKey(i: Ids): (r: Result<string, MissingId>)
  {
    var m := MeaningOf(i);
    if m.milestone == "" then Err(MilestoneIdRequired)
    else if m.requirements == {} then Err(RequirementIdRequired)
    else Ok(Join(Parts(m), '|'))
  }

  /** Ids that hold neither separator. */
  predicate Clean(i: Ids) {
    && '|' !in i.milestone && '|' !in i.capability
    && (forall x | x in i.requirements + i.acceptance + i.invariants :: ',' !in x && '|' !in x)
  }

  lemma {:induction false} StripKeeps(s: string, c: char)
    requires c !in s
    ensures c !in StripRight(StripLeft(s))
  {
    if s != "" && IsSpace(s[0]) {
      StripKeeps(s[1..], c);
    } else {
      StripRightKeeps(s, c);
    }
  }

  lemma {:induction false} StripRightKeeps(s: string, c: char)
    requires c !in s
    ensures c !in StripRight(s)
  {
    if s != "" && IsSpace(s[|s| - 1]) {
      StripRightKeeps(s[..|s| - 1], c);
    }
  }

  lemma {:induction false} NormaliseKeepsOut(s: string, c: char)
    requires c !in s && c in ",|"
    ensures c !in Normalise(s)
  {
    StripKeeps(s, c);
  }

  lemma {:induction false} IdSetKeepsOut(ids: seq<string>, c: char)
    requires c in ",|" && forall x | x in ids :: c !in x
    ensures forall x | x in IdSet(ids) :: c !in x
    ensures "" !in IdSet(ids)
  {
    forall x | x in IdSet(ids) ensures c !in x {
      var y :| y in ids && Normalise(y) == x;
      NormaliseKeepsOut(y, c);
    }
  }

  /** Joined lists of nonempty comma-free ids are equal only for equal sets. */
  lemma {:induction false} JoinedSetsDiffer(s: set<string>, t: set<string>)
    requires "" !in s && "" !in t && (forall x | x in s + t :: ',' !in x)
    requires Join(Sorted(s), ',') == Join(Sorted(t), ',')
    ensures s == t
  {
    if s == {} || t == {} {
      JoinOfNonempty(s);
      JoinOfNonempty(t);
    } else {
      SplitOfJoin(Sorted(s), ',');
      SplitOfJoin(Sorted(t), ',');
      SortedTellsTheSet(s, t);
    }
  }

  lemma {:induction false} SortedTellsTheSet(s: set<string>, t: set<string>)
    requires Sorted(s) == Sorted(t)
    ensures s == t
  {
    assert forall x :: x in s <==> x in Sorted(s);
    assert forall x :: x in t <==> x in Sorted(t);
  }

  lemma {:induction false} JoinOfNonempty(s: set<string>)
    requires "" !in s
    ensures Join(Sorted(s), ',') == "" <==> s == {}
  {
    if s != {} {
      assert Sorted(s)[0] in Sorted(s);
      assert Sorted(s)[0] != "";
    }
  }

  lemma {:induction false} JoinKeepsOut(parts: seq<string>, sep: char, c: char)
    requires sep != c && forall x | x in parts :: c !in x
    ensures c !in Join(parts, sep)
  {
    if |parts| > 1 {
      JoinKeepsOut(parts[1..], sep, c);
    }
  }

  lemma {:induction false} PartsAreFree(i: Ids)
    requires Clean(i)
    ensures FreeOf(Parts(MeaningOf(i)), '|')
  {
    var m := MeaningOf(i);
    NormaliseKeepsOut(i.milestone, '|');
    NormaliseKeepsOut(i.capability, '|');
    IdSetKeepsOut(i.requirements, '|');
    IdSetKeepsOut(i.acceptance, '|');
    IdSetKeepsOut(i.invariants, '|');
    JoinKeepsOut(Sorted(m.requirements), ',', '|');
    JoinKeepsOut(Sorted(m.acceptance), ',', '|');
    JoinKeepsOut(Sorted(m.invariants), ',', '|');
  }

  /** Two gaps share the text that is hashed exactly when they are about the same ids. */
  lemma {:induction false} RawKeyIsTheMeaning(i: Ids, j: Ids)
    requires Clean(i) && Clean(j) && RawKey(i).Ok? && RawKey(j).Ok?
    ensures RawKey(i) == RawKey(j) <==> MeaningOf(i) == MeaningOf(j)
  {
    var m, n := MeaningOf(i), MeaningOf(j);
    if RawKey(i) == RawKey(j) {
      PartsAreFree(i);
      PartsAreFree(j);
      SplitOfJoin(Parts(m), '|');
      SplitOfJoin(Parts(n), '|');
      assert Parts(m) == Parts(n);
      PartsTellTheSets(i, j);
    }
  }

  lemma {:induction false} PartsTellTheSets(i: Ids, j: Ids)
    requires Clean(i) && Clean(j) && Parts(MeaningOf(i)) == Parts(MeaningOf(j))
    ensures MeaningOf(i) == MeaningOf(j)
  {
    var p, q := Parts(MeaningOf(i)), Parts(MeaningOf(j));
    assert p[0] == q[0] && p[1] == q[1] && p[2] == q[2] && p[3] == q[3] && p[4] == q[4];
    JoinedIdsDiffer(i.requirements, j.requirements);
    JoinedIdsDiffer(i.acceptance, j.acceptance);
    JoinedIdsDiffer(i.invariants, j.invariants);
  }

  lemma {:induction false} JoinedIdsDiffer(xs: seq<string>, ys: seq<string>)
    requires (forall x | x in xs :: ',' !in x) && (forall y | y in ys :: ',' !in y)
    requires Join(Sorted(IdSet(xs)), ',') == Join(Sorted(IdSet(ys)), ',')
    ensures IdSet(xs) == IdSet(ys)
  {
    IdSetKeepsOut(xs, ',');
    IdSetKeepsOut(ys, ',');
    JoinedSetsDiffer(IdSet(xs), IdSet(ys));
  }

  ghost predicate Padded(x: string, core: string) {
    exists before, after :: AllSpace(before) && AllSpace(after) && x == before + core + after
  }

  /** The same but for letter case and outer spaces. */
  ghost predicate SameSpelling(x: string, y: string) {
    exists z, w :: Padded(x, z) && Padded(y, w) && Upper(z) == Upper(w)
  }

  ghost predicate Covered(xs: seq<string>, ys: seq<string>) {
    forall x | x in xs :: exists y :: y in ys && SameSpelling(x, y)
  }

  /** The same ids, in any order and any number. */
  ghost predicate SameIds(xs: seq<string>, ys: seq<string>) {
    Covered(xs, ys) && Covered(ys, xs)
  }

  lemma {:induction false} PaddedNormalises(x: string, core: string)
    requires Padded(x, core)
    ensures Normalise(x) == Normalise(core)
  {
    var before, after :| AllSpace(before) && AllSpace(after) && x == before + core + after;
    PaddingDoesNotMatter(before, core, after);
  }

  lemma {:induction false} SameSpellingNormalises(x: string, y: string)
    requires SameSpelling(x, y)
    ensures Normalise(x) == Normalise(y)
  {
    var z, w :| Padded(x, z) && Padded(y, w) && Upper(z) == Upper(w);
    PaddedNormalises(x, z);
    PaddedNormalises(y, w);
    CaseDoesNotMatter(z, w);
  }

  lemma {:induction false} StripLeftPads(s: string) returns (pad: string)
    ensures AllSpace(pad) && s == pad + StripLeft(s)
  {
    if s != "" && IsSpace(s[0]) {
      var rest := StripLeftPads(s[1..]);
      pad := [s[0]] + rest;
    } else {
      pad := "";
    }
  }

  lemma {:induction false} StripRightPads(s: string) returns (pad: string)
    ensures AllSpace(pad) && s == StripRight(s) + pad
  {
    if s != "" && IsSpace(s[|s| - 1]) {
      var rest := StripRightPads(s[..|s| - 1]);
      pad := rest + [s[|s| - 1]];
    } else {
      pad := "";
    }
  }

  lemma {:induction false} StrippedIsCore(s: string)
    ensures Padded(s, StripRight(StripLeft(s)))
  {
    var before := StripLeftPads(s);
    var after := StripRightPads(StripLeft(s));
    assert s == before + (StripRight(StripLeft(s)) + after) == before + StripRight(StripLeft(s)) + after;
  }

  /** Normalising tells apart whatever is more than letter case and outer spaces. */
  lemma {:induction false} NormalisesAlikeExactlyWhen(x: string, y: string)
    ensures Normalise(x) == Normalise(y) <==> SameSpelling(x, y)
  {
    if Normalise(x) == Normalise(y) {
      StrippedIsCore(x);
      StrippedIsCore(y);
      assert Padded(x, StripRight(StripLeft(x))) && Padded(y, StripRight(StripLeft(y)));
    }
    if SameSpelling(x, y) {
      SameSpellingNormalises(x, y);
    }
  }

  lemma {:induction false} BlankExactlyWhen(x: string)
    ensures Normalise(x) == "" <==> AllSpace(x)
  {
    var before := StripLeftPads(x);
    var after := StripRightPads(StripLeft(x));
    if AllSpace(x) {
      assert x == x + "" + "";
      PaddingDoesNotMatter(x, "", "");
    }
    if Normalise(x) == "" {
      assert StripRight(StripLeft(x)) == "";
      assert x == before + after;
    }
  }

  /** Every id of the one list that is not blank stands in the other. */
  ghost predicate NamedIn(xs: seq<string>, ys: seq<string>) {
    forall x | x in xs && !AllSpace(x) :: exists y :: y in ys && SameSpelling(x, y)
  }

  lemma {:induction false} NamedIsSubset(xs: seq<string>, ys: seq<string>)
    ensures IdSet(xs) <= IdSet(ys) <==> NamedIn(xs, ys)
  {
    if IdSet(xs) <= IdSet(ys) {
      forall x | x in xs && !AllSpace(x) ensures exists y :: y in ys && SameSpelling(x, y) {
        BlankExactlyWhen(x);
        assert Normalise(x) in IdSet(xs);
        var y :| y in ys && Normalise(y) != "" && Normalise(y) == Normalise(x);
        NormalisesAlikeExactlyWhen(x, y);
      }
    }
    if NamedIn(xs, ys) {
      forall n | n in IdSet(xs) ensures n in IdSet(ys) {
        var x :| x in xs && Normalise(x) != "" && Normalise(x) == n;
        BlankExactlyWhen(x);
        var y :| y in ys && SameSpelling(x, y);
        NormalisesAlikeExactlyWhen(x, y);
      }
    }
  }

  /** Two inputs without separators share the text that is hashed exactly when they name the same ids: those of
      each list, blank ones aside, in any order and number, and all in any letter case and outer spaces. */
  lemma {:induction false} SharedTextMeansSameIds(i: Ids, j: Ids)
    requires Clean(i) && Clean(j) && RawKey(i).Ok? && RawKey(j).Ok?
    ensures RawKey(i) == RawKey(j)
            <==> && SameSpelling(i.milestone, j.milestone) && SameSpelling(i.capability, j.capability)
                 && NamedIn(i.requirements, j.requirements) && NamedIn(j.requirements, i.requirements)
                 && NamedIn(i.acceptance, j.acceptance) && NamedIn(j.acceptance, i.acceptance)
                 && NamedIn(i.invariants, j.invariants) && NamedIn(j.invariants, i.invariants)
  {
    RawKeyIsTheMeaning(i, j);
    NormalisesAlikeExactlyWhen(i.milestone, j.milestone);
    NormalisesAlikeExactlyWhen(i.capability, j.capability);
    SameSetsExactlyWhen(i.requirements, j.requirements);
    SameSetsExactlyWhen(i.acceptance, j.acceptance);
    SameSetsExactlyWhen(i.invariants, j.invariants);
  }

  lemma {:induction false} SameSetsExactlyWhen(xs: seq<string>, ys: seq<string>)
    ensures IdSet(xs) == IdSet(ys) <==> NamedIn(xs, ys) && NamedIn(ys, xs)
  {
    NamedIsSubset(xs, ys);
    NamedIsSubset(ys, xs);
  }

  lemma {:induction false} ListingNeverMatters(xs: seq<string>, ys: seq<string>)
    requires SameIds(xs, ys)
    ensures IdSet(xs) == IdSet(ys)
  {
    CoveredIsSubset(xs, ys);
    CoveredIsSubset(ys, xs);
  }

  /** Order, repeats, case and outer spaces never matter: inputs alike but for these share the text that is
      hashed, or fail alike, whatever separators their ids hold. */
  lemma {:induction false} SpellingNeverMatters(i: Ids, j: Ids)
    requires SameSpelling(i.milestone, j.milestone) && SameSpelling(i.capability, j.capability)
    requires SameIds(i.requirements, j.requirements)
    requires SameIds(i.acceptance, j.acceptance) && SameIds(i.invariants, j.invariants)
    ensures MeaningOf(i) == MeaningOf(j) && RawKey(i) == RawKey(j)
  {
    SameSpellingNormalises(i.milestone, j.milestone);
    SameSpellingNormalises(i.capability, j.capability);
    ListingNeverMatters(i.requirements, j.requirements);
    ListingNeverMatters(i.acceptance, j.acceptance);
    ListingNeverMatters(i.invariants, j.invariants);
  }

  lemma {:induction false} CoveringId(xs: seq<string>, ys: seq<string>, x: string) returns (y: string)
    requires Covered(xs, ys) && x in xs
    ensures y in ys && Normalise(y) == Normalise(x)
  {
    y :| y in ys && SameSpelling(x, y);
    SameSpellingNormalises(x, y);
  }

  lemma {:induction false} CoveredIsSubset(xs: seq<string>, ys: seq<string>)
    requires Covered(xs, ys)
    ensures IdSet(xs) <= IdSet(ys)
  {
    forall n | n in IdSet(xs) ensures n in IdSet(ys) {
      var x :| x in xs && Normalise(x) == n;
      var y := CoveringId(xs, ys, x);
    }
  }

  /** The key itself: prefix, first requirement, twelve digits of the digest. */
  ghost function GapKey(i: Ids, digest: string -> string): (r: Result<string, MissingId>)
    requires forall x :: |digest(x)| >= 12
  {
    match RawKey(i)
    case Err(e) => Err(e)
    case Ok(raw) => Ok("GAP-" + Sorted(MeaningOf(i).requirements)[0] + "-" + digest(raw)[..12])
  }

  /** Same meaning, same key; and a shared key means the same gap unless the digest itself collides. */
  lemma {:induction false} GapKeyIsTheMeaning(i: Ids, j: Ids, digest: string -> string)
    requires Clean(i) && Clean(j) && RawKey(i).Ok? && RawKey(j).Ok? && forall x :: |digest(x)| >= 12
    requires digest(RawKey(i).value)[..12] == digest(RawKey(j).value)[..12] ==> RawKey(i) == RawKey(j)
    ensures GapKey(i, digest) == GapKey(j, digest) <==> MeaningOf(i) == MeaningOf(j)
  {
    RawKeyIsTheMeaning(i, j);
    var k, l := digest(RawKey(i).value)[..12], digest(RawKey(j).value)[..12];
    var p, q := "GAP-" + Sorted(MeaningOf(i).requirements)[0] + "-",
        "GAP-" + Sorted(MeaningOf(j).requirements)[0] + "-";
    if p + k == q + l {
      SameTail(p, k, q, l);
    }
  }

  lemma {:induction false} SameTail(p: string, k: string, q: string, l: string)
    requires |k| == |l| && p + k == q + l
    ensures k == l
  {
    assert (p + k)[|p|..] == k && (q + l)[|q|..] == l;
  }

  /** Why the separators must stay out: inputs that differ only in that two acceptance ids stand as one with
      a comma between them are about different ids and share the key, whatever the digest. */
  lemma {:induction false} CommaJoinsTwoIds(i: Ids, j: Ids, a: string, b: string, digest: string -> string)
    requires Before(a, b) && a != b && forall x :: |digest(x)| >= 12
    requires IdSet(i.acceptance) == {a + [','] + b} && IdSet(j.acceptance) == {a, b}
    requires MeaningOf(i) == MeaningOf(j).(acceptance := IdSet(i.acceptance))
    ensures MeaningOf(i) != MeaningOf(j) && RawKey(i) == RawKey(j) && GapKey(i, digest) == GapKey(j, digest)
  {
    var joined := a + [','] + b;
    SortedOfOne(joined);
    SortedOfTwo(a, b);
    assert [a, b][1..] == [b];
    assert Join(Sorted({a, b}), ',') == joined;
    assert |joined| > |a| && |joined| > |b| && a in {a, b};
    assert Parts(MeaningOf(i)) == Parts(MeaningOf(j));
  }

  lemma {:induction false} SortedOfOne(x: string)
    ensures Sorted({x}) == [x]
  {
    assert Sorted({x})[0] in Sorted({x});
  }

  lemma {:induction false} SortedOfTwo(a: string, b: string)
    requires Before(a, b) && a != b
    ensures Sorted({a, b}) == [a, b]
  {
    BeforeIsTotal(a, b);
    var s := Sorted({a, b});
    SortedAscends({a, b}, 0, 1);
    assert s[0] in s && s[1] in s;
  }

  /** Such inputs: the acceptance id "A,B", and the two ids "A" and "B". */
  lemma {:induction false} CommaInAnIdCollides(digest: string -> string)
    requires forall x :: |digest(x)| >= 12
    ensures var i, j := Ids("M", ["R"], ["A,B"], [], ""), Ids("M", ["R"], ["A", "B"], [], "");
            GapKey(i, digest).Ok? && GapKey(i, digest) == GapKey(j, digest) && MeaningOf(i) != MeaningOf(j)
  {
    var i, j := Ids("M", ["R"], ["A,B"], [], ""), Ids("M", ["R"], ["A", "B"], [], "");
    PlainIds();
    assert "A" + [','] + "B" == "A,B";
    CommaJoinsTwoIds(i, j, "A", "B", digest);
    assert RawKey(i).Ok? by {
      Plain("R");
      assert "R" in ["R"] && "R" in IdSet(["R"]);
    }
  }

  lemma {:induction false} Plain(x: string)
    requires x != "" && forall i | 0 <= i < |x| :: !IsSpace(x[i]) && UpperChar(x[i]) == x[i]
    ensures Normalise(x) == x
  {
    assert Upper(x) == x;
  }

  lemma {:induction false} PlainIds()
    ensures Normalise("M") == "M" && IdSet(["A,B"]) == {"A,B"} && IdSet(["A", "B"]) == {"A", "B"}
  {
    Plain("M");
    Plain("A");
    Plain("B");
    Plain("A,B");
    assert "A,B" in ["A,B"] && "A" in ["A", "B"] && "B" in ["A", "B"];
  }
}
