/** Review contexts: the document that binds a review to one package, head and phase, its digest, and
    the validation a reviewer workspace performs. The digest is a function of the canonical document. */
module ReviewContext {
  import opened Text

  datatype LedgerEntry = LedgerEntry(
    fingerprint: Option<string>,
    status: Option<string>,
    severity: Option<string>,
    requirementId: Option<string>,
    component: Option<string>,
    summary: Option<string>)

  datatype Value = Null | Str(text: string) | Number(number: int) | Items(items: seq<string>)
      | Ledger(entries: seq<LedgerEntry>)

  datatype AuthorityField =
    WorkKey | MilestoneId | WorkPackageId | Objective | Acceptance | RequirementIds | AuthoritativeSources | TargetSha

  datatype ClosureField =
    | ReviewMode | BaselineId | BaselineHead | BaselineContextDigest | FrozenBlockerLedger | PreviousReviewedHead
    | PrNumber | ImplementationProvider | ReviewerProvider

  /** A JSON object, its fields sorted by what they are for. `others` are the fields nobody knows. */
  datatype Doc = Doc(
    schemaVersion: Option<Value>,
    contextDigest: Option<Value>,
    baseContextDigest: Option<Value>,
    authority: map<AuthorityField, Value>,
    closure: map<ClosureField, Value>,
    others: map<string, Value>)

  /** What is digested. */
  datatype Canon = Canon(authority: map<AuthorityField, Value>, closure: map<ClosureField, Value>)

  type Digest = Canon -> string

  const AUTHORITY_FIELDS :=
      [WorkKey, MilestoneId, WorkPackageId, Objective, Acceptance, RequirementIds, AuthoritativeSources, TargetSha]

  const CLOSURE_FIELDS := [
    ReviewMode, BaselineId, BaselineHead, BaselineContextDigest, FrozenBlockerLedger, PreviousReviewedHead,
    PrNumber, ImplementationProvider, ReviewerProvider]

  const BASELINE := "FULL_BASELINE"

  predicate IsMode(mode: string) {
    mode == BASELINE || mode == "CLOSURE_VERIFY" || mode == "FINAL_CONFIRMATION"
  }

  /** A missing field reads as null. */
  function Get<F>(fields: map<F, Value>, field: F): Value {
    if field in fields then fields[field] else Null
  }

  function Present<F>(fields: map<F, Value>): map<F, Value> {
    map f | f in fields && fields[f] != Null :: fields[f]
  }

  /** The closure fields enter the digest of every later phase and of a baseline that replaces one. */
  predicate Covers(closure: map<ClosureField, Value>) {
    Get(closure, ReviewMode) !in {Null, Str(""), Str(BASELINE)} || Get(closure, BaselineId) != Null
  }

  function Canonical(authority: map<AuthorityField, Value>, closure: map<ClosureField, Value>): Canon {
    Canon(authority, if Covers(closure) then Present(closure) else map[])
  }

  /** Copying the listed fields one by one. */
  method CopyFields<F(==)>(order: seq<F>, fields: map<F, Value>, dropNull: bool) returns (copy: map<F, Value>)
    requires forall f | f in fields :: f in order
    ensures copy == if dropNull then Present(fields) else fields
  {
    copy := map[];
    for i := 0 to |order|
      invariant copy == map f | f in fields && f in order[..i] && (dropNull ==> fields[f] != Null) :: fields[f]
    {
      if order[i] in fields && !(dropNull && fields[order[i]] == Null) {
        copy := copy[order[i] := fields[order[i]]];
      }
    }
    assert order[..|order|] == order;
  }

  method CanonicalAuthority(authority: map<AuthorityField, Value>, closure: map<ClosureField, Value>)
    returns (canonical: Canon)
    ensures canonical == Canonical(authority, closure)
  {
    forall f: AuthorityField ensures f in AUTHORITY_FIELDS {
      AuthorityFieldIsListed(f);
    }
    var kept := CopyFields(AUTHORITY_FIELDS, authority, false);
    canonical := Canon(kept, map[]);
    if Covers(closure) {
      forall f: ClosureField ensures f in CLOSURE_FIELDS {
        ClosureFieldIsListed(f);
      }
      var covered := CopyFields(CLOSURE_FIELDS, closure, true);
      canonical := Canon(kept, covered);
    }
  }

  lemma {:induction false} AuthorityFieldIsListed(f: AuthorityField)
    ensures f in AUTHORITY_FIELDS
  {
    assert AUTHORITY_FIELDS[match f
                            case WorkKey => 0 case MilestoneId => 1 case WorkPackageId => 2 case Objective => 3
                            case Acceptance => 4 case RequirementIds => 5 case AuthoritativeSources => 6
                            case TargetSha => 7] == f;
  }

  lemma {:induction false} ClosureFieldIsListed(f: ClosureField)
    ensures f in CLOSURE_FIELDS
  {
    assert CLOSURE_FIELDS[match f
                          case ReviewMode => 0 case BaselineId => 1 case BaselineHead => 2
                          case BaselineContextDigest => 3 case FrozenBlockerLedger => 4
                          case PreviousReviewedHead => 5 case PrNumber => 6
                          case ImplementationProvider => 7 case ReviewerProvider => 8] == f;
  }

  // ---------------------------------------------------------------------------------------------
  // Building
  // ---------------------------------------------------------------------------------------------

  datatype Request = Request(
    milestoneId: string,
    packageId: string,
    objective: string,
    acceptance: seq<string>,
    requirementIds: seq<string>,
    sources: seq<string>,
    headSha: string,
    reviewMode: string,
    baselineId: Option<string>,
    baselineHead: Option<string>,
    baselineContextDigest: Option<string>,
    findings: seq<LedgerEntry>,
    previousReviewedHead: Option<string>,
    prNumber: Option<int>,
    implementationProvider: Option<string>,
    reviewerProvider: Option<string>)

  function WorkKeyOf(r: Request): string {
    r.milestoneId + "--" + r.packageId
  }

  function OrNull(text: Option<string>): Value {
    if text.Some? then Str(text.value) else Null
  }

  function HeadOrNull(head: Option<string>): Value {
    if head.Some? && head.value != "" then Str(Lower(head.value)) else Null
  }

  predicate LaterPhase(r: Request) {
    r.reviewMode != BASELINE || r.baselineId.Some?
  }

  function AuthorityOf(r: Request): (a: map<AuthorityField, Value>)
    ensures forall f: AuthorityField :: f in a
  {
    var a :=
      map[WorkKey := Str(WorkKeyOf(r)), MilestoneId := Str(r.milestoneId), WorkPackageId := Str(r.packageId),
          Objective := Str(r.objective), Acceptance := Items(r.acceptance), RequirementIds := Items(r.requirementIds),
          AuthoritativeSources := Items(r.sources), TargetSha := Str(Lower(r.headSha))];
    EveryFieldIsThere(a);
    a
  }

  lemma {:induction false} EveryFieldIsThere(a: map<AuthorityField, Value>)
    requires WorkKey in a && MilestoneId in a && WorkPackageId in a && Objective in a
    requires Acceptance in a && RequirementIds in a && AuthoritativeSources in a && TargetSha in a
    ensures forall f: AuthorityField :: f in a
  {
    forall f: AuthorityField ensures f in a {
      match f
      case WorkKey => case MilestoneId => case WorkPackageId => case Objective => case Acceptance =>
      case RequirementIds => case AuthoritativeSources => case TargetSha =>
    }
  }

  function ClosureOf(r: Request): map<ClosureField, Value> {
    if !LaterPhase(r) then map[ReviewMode := Str(BASELINE)]
    else
      map[ReviewMode := Str(r.reviewMode), BaselineId := OrNull(r.baselineId),
          BaselineHead := HeadOrNull(r.baselineHead),
          BaselineContextDigest := OrNull(r.baselineContextDigest), FrozenBlockerLedger := Ledger(r.findings),
          PreviousReviewedHead := HeadOrNull(r.previousReviewedHead),
          PrNumber := (if r.prNumber.Some? then Number(r.prNumber.value) else Null),
          ImplementationProvider := OrNull(r.implementationProvider), ReviewerProvider := OrNull(r.reviewerProvider)]
  }

  function Build(r: Request, digest: Digest): Doc {
    Doc(Some(Number(3)),
        Some(Str(digest(Canonical(AuthorityOf(r), ClosureOf(r))))),
        Some(Str(digest(Canonical(AuthorityOf(r), map[])))),
        AuthorityOf(r), ClosureOf(r), map[])
  }

  // ---------------------------------------------------------------------------------------------
  // Validating
  // ---------------------------------------------------------------------------------------------

  datatype Rejection =
    | UnsupportedSchema | MissingFields | UnknownFields | InvalidScalar | InvalidList | MissingAcceptanceOrSources
    | WrongWorkKey | InconsistentWorkKey | WrongTarget | InvalidReviewMode | InvalidLedger | InvalidDigest

  predicate IsText(v: Value) {
    v.Str? && v.text != ""
  }

  predicate IsList(v: Value) {
    v.Items? && forall item | item in v.items :: item != ""
  }

  predicate SoundEntry(e: LedgerEntry) {
    e.fingerprint.Some? && e.fingerprint.value != "" && e.status.Some? && e.status.value != ""
  }

  predicate SoundLedger(v: Value) {
    v == Null || (v.Ledger? && forall e | e in v.entries :: SoundEntry(e))
  }

  /** The first objection to the shape of the authority fields and their fit to the task, if any. */
  function AuthorityObjection(a: map<AuthorityField, Value>, workKey: string, targetSha: string): Option<Rejection>
    requires forall f: AuthorityField :: f in a
  {
    if !(IsText(a[WorkKey]) && IsText(a[MilestoneId]) && IsText(a[WorkPackageId]) && IsText(a[Objective])
        && IsText(a[TargetSha]))
    then Some(InvalidScalar)
    else if !(IsList(a[Acceptance]) && IsList(a[RequirementIds]) && IsList(a[AuthoritativeSources])) then
        Some(InvalidList)
    else if a[Acceptance].items == [] || a[AuthoritativeSources].items == [] then Some(MissingAcceptanceOrSources)
    else if a[WorkKey].text != workKey then Some(WrongWorkKey)
    else if a[WorkKey].text != a[MilestoneId].text + "--" + a[WorkPackageId].text then Some(InconsistentWorkKey)
    else if a[TargetSha].text != Lower(targetSha) then Some(WrongTarget)
    else None
  }

  function ClosureObjection(closure: map<ClosureField, Value>): Option<Rejection> {
    var mode := Get(closure, ReviewMode);
    if mode != Null && !(mode.Str? && IsMode(mode.text)) then Some(InvalidReviewMode)
    else if !SoundLedger(Get(closure, FrozenBlockerLedger)) then Some(InvalidLedger)
    else None
  }

  function Validate(doc: Doc, workKey: string, targetSha: string, digest: Digest): Result<Doc, Rejection> {
    if doc.schemaVersion !in {Some(Number(2)), Some(Number(3))} then Err(UnsupportedSchema)
    else if doc.contextDigest.None? || exists f: AuthorityField :: f !in doc.authority then Err(MissingFields)
    else if doc.others != map[] || (doc.schemaVersion == Some(Number(2)) && doc.closure != map[]) then
        Err(UnknownFields)
    else if !IsText(doc.contextDigest.value) then Err(InvalidScalar)
    else
      var objection := AuthorityObjection(doc.authority, workKey, targetSha);
      if objection.Some? then Err(objection.value)
      else if ClosureObjection(doc.closure).Some? then Err(ClosureObjection(doc.closure).value)
      else if doc.contextDigest.value.text != digest(Canonical(doc.authority, Present(doc.closure))) then
          Err(InvalidDigest)
      else Ok(doc)
  }

  ghost predicate Accepted(doc: Doc, workKey: string, targetSha: string, digest: Digest) {
    Validate(doc, workKey, targetSha, digest).Ok?
  }

  // ---------------------------------------------------------------------------------------------
  // What holds of them
  // ---------------------------------------------------------------------------------------------

  /** What a package and its baseline must provide. */
  predicate WellFormed(r: Request) {
    && r.milestoneId != "" && r.packageId != "" && r.objective != "" && r.headSha != ""
    && r.acceptance != [] && r.sources != []
    && "" !in r.acceptance && "" !in r.sources && "" !in r.requirementIds
    && IsMode(r.reviewMode)
    && (LaterPhase(r) ==> forall e | e in r.findings :: SoundEntry(e))
  }

  /** A context that may be relied on for this work key and head: complete, without foreign fields, with its
      texts and lists filled, made for that very work and head, readable in mode and ledger, and with the digest
      of what it says. */
  ghost predicate Reliable(doc: Doc, workKey: string, targetSha: string, digest: Digest) {
    && (forall f: AuthorityField :: f in doc.authority) && doc.others == map[]
    && (doc.schemaVersion == Some(Number(3)) || (doc.schemaVersion == Some(Number(2)) && doc.closure == map[]))
    && (var a := doc.authority;
        && IsText(a[Objective]) && IsText(a[MilestoneId]) && IsText(a[WorkPackageId]) && a[WorkKey] == Str(workKey)
        && workKey == a[MilestoneId].text + "--" + a[WorkPackageId].text
        && a[TargetSha] == Str(Lower(targetSha)) && targetSha != ""
        && IsList(a[RequirementIds]) && IsList(a[Acceptance]) && IsList(a[AuthoritativeSources])
        && a[Acceptance] != Items([]) && a[AuthoritativeSources] != Items([]))
    && (ReviewMode in doc.closure ==>
          doc.closure[ReviewMode] in {Null, Str("FULL_BASELINE"), Str("CLOSURE_VERIFY"), Str("FINAL_CONFIRMATION")})
    && (FrozenBlockerLedger in doc.closure ==> SoundLedger(doc.closure[FrozenBlockerLedger]))
    && var said := digest(Canonical(doc.authority, doc.closure)); said != "" && doc.contextDigest == Some(Str(said))
  }

  /** Validation accepts exactly the reliable contexts. */
  lemma {:induction false} AcceptedExactlyWhen(doc: Doc, workKey: string, targetSha: string, digest: Digest)
    ensures Accepted(doc, workKey, targetSha, digest) <==> Reliable(doc, workKey, targetSha, digest)
  {
    NullsAreNotDigested(doc.authority, doc.closure);
    if forall f: AuthorityField :: f in doc.authority {
      NoObjectionExactlyWhen(doc.authority, workKey, targetSha);
    }
  }

  lemma {:induction false} NoObjectionExactlyWhen(a: map<AuthorityField, Value>, workKey: string, targetSha: string)
    requires forall f: AuthorityField :: f in a
    ensures AuthorityObjection(a, workKey, targetSha).None?
            <==> && IsText(a[Objective]) && IsText(a[MilestoneId]) && IsText(a[WorkPackageId])
                 && a[WorkKey] == Str(workKey) && workKey == a[MilestoneId].text + "--" + a[WorkPackageId].text
                 && a[TargetSha] == Str(Lower(targetSha)) && targetSha != ""
                 && IsList(a[RequirementIds]) && IsList(a[Acceptance]) && IsList(a[AuthoritativeSources])
                 && a[Acceptance] != Items([]) && a[AuthoritativeSources] != Items([])
  {
    assert |Lower(targetSha)| == |targetSha|;
  }

  /** Leaving null fields out changes neither coverage nor the digest. */
  lemma {:induction false} NullsAreNotDigested(authority: map<AuthorityField, Value>, closure: map<ClosureField, Value>)
    ensures Canonical(authority, Present(closure)) == Canonical(authority, closure)
  {
    assert Get(Present(closure), ReviewMode) == Get(closure, ReviewMode);
    assert Get(Present(closure), BaselineId) == Get(closure, BaselineId);
    assert Present(Present(closure)) == Present(closure);
  }

  /** A built context passes validation for its own work key and head, in every review mode, exactly
      when what it was built from is well formed. */
  lemma {:induction false} BuiltContextValidates(r: Request, digest: Digest)
    requires forall c :: digest(c) != ""
    ensures Accepted(Build(r, digest), WorkKeyOf(r), r.headSha, digest) <==> WellFormed(r)
  {
    NullsAreNotDigested(AuthorityOf(r), ClosureOf(r));
    BuiltAuthorityIsSound(r);
    BuiltClosureIsSound(r);
  }

  lemma {:induction false} BuiltAuthorityIsSound(r: Request)
    ensures AuthorityObjection(AuthorityOf(r), WorkKeyOf(r), r.headSha).None? <==>
            && r.milestoneId != "" && r.packageId != "" && r.objective != "" && r.headSha != ""
            && r.acceptance != [] && r.sources != []
            && "" !in r.acceptance && "" !in r.sources && "" !in r.requirementIds
  {
    assert |WorkKeyOf(r)| >= 2;
    assert |Lower(r.headSha)| == |r.headSha|;
  }

  lemma {:induction false} BuiltClosureIsSound(r: Request)
    ensures ClosureObjection(ClosureOf(r)).None? <==>
            IsMode(r.reviewMode) && (LaterPhase(r) ==> forall e | e in r.findings :: SoundEntry(e))
  {}

  ghost predicate Injective(digest: Digest) {
    forall a, b | digest(a) == digest(b) :: a == b
  }

  /** Two accepted contexts with one digest are for one work key and head and agree on every authority
      field; they agree on whether the digest covers the closure fields and, when it does, on every one
      of those. */
  lemma {:induction false} SharedDigestSharesAuthority(
    a: Doc, keyA: string, shaA: string, b: Doc, keyB: string, shaB: string, digest: Digest)
    requires Injective(digest) && Accepted(a, keyA, shaA, digest) && Accepted(b, keyB, shaB, digest)
    requires a.contextDigest == b.contextDigest
    ensures keyA == keyB && Lower(shaA) == Lower(shaB)
    ensures a.authority == b.authority && forall f: AuthorityField :: f in a.authority
    ensures Covers(a.closure) == Covers(b.closure)
    ensures Covers(a.closure) ==> forall f :: Get(a.closure, f) == Get(b.closure, f)
  {
    NullsAreNotDigested(a.authority, a.closure);
    NullsAreNotDigested(b.authority, b.closure);
    assert Canonical(a.authority, a.closure) == Canonical(b.authority, b.closure);
    CoverageIsDigested(a.closure);
    CoverageIsDigested(b.closure);
    if Covers(a.closure) {
      forall f ensures Get(a.closure, f) == Get(b.closure, f) {
        assert Get(a.closure, f) == Get(Present(a.closure), f);
        assert Get(b.closure, f) == Get(Present(b.closure), f);
      }
    }
  }

  lemma {:induction false} CoverageIsDigested(closure: map<ClosureField, Value>)
    ensures Covers(closure) ==> Present(closure) != map[]
  {
    if Covers(closure) {
      assert ReviewMode in Present(closure) || BaselineId in Present(closure);
    }
  }

  /** In a first baseline the digest leaves the closure fields open: they may be set to anything that
      keeps the mode and the ledger readable and names no baseline, and the context still validates. */
  lemma {:induction false} FirstBaselineBindsNoClosureField(
    doc: Doc, workKey: string, targetSha: string, digest: Digest, closure: map<ClosureField, Value>)
    requires Accepted(doc, workKey, targetSha, digest) && doc.schemaVersion == Some(Number(3)) && !Covers(doc.closure)
    requires Get(closure, ReviewMode) in {Null, Str(BASELINE)} && Get(closure, BaselineId) == Null
    requires SoundLedger(Get(closure, FrozenBlockerLedger))
    ensures Accepted(doc.(closure := closure), workKey, targetSha, digest)
  {
    NullsAreNotDigested(doc.authority, doc.closure);
    NullsAreNotDigested(doc.authority, closure);
  }
}
