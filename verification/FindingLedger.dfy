/** The blocker ledger of a review: frozen after the baseline, reconciled with every closure review, and
    gated when a verdict is drawn from it. Text extraction, tokens, keyword tests and hashing are
    parameters. */
module FindingLedger {
  import opened Text

  datatype Status = Open | Resolved | Regression | FollowUp | Unknown(text: string)

  datatype Category = Correctness | RegressionCategory | Security | FollowUpCategory

  datatype Finding = Finding(
    fingerprint: string,
    requirementId: Option<string>,
    severity: string,
    category: Category,
    component: string,
    summary: string,
    blocking: bool,
    status: Status,
    firstSeenHead: string,
    lastVerifiedHead: string,
    evidence: Option<string>)

  /** A finding as it is read out of a review, before it has a place in the ledger. */
  datatype Candidate = Candidate(summary: string, component: string, requirementId: Option<string>, severity: string)

  /** How texts are read: the semantic fingerprint, the normalised tokens, and the keyword tests. The
      regression and critical tests include the test for a negated mention. */
  datatype Reader = Reader(
    fingerprint: (Option<string>, string, string) -> string,
    tokens: string -> set<string>,
    saysRegression: string -> bool,
    saysCritical: (string, string) -> bool,
    saysFollowUp: (string, string) -> bool)

  /** One parsed review. `structured` are the findings a payload gives for a baseline, with the
      fingerprint it states or the computed one; `late` those it gives without one later on. */
  datatype Review = Review(
    targetSha: string,
    dispositions: map<string, Status>,
    evidence: map<string, string>,
    extracted: seq<Candidate>,
    late: seq<Candidate>,
    structured: seq<(string, Candidate)>,
    generalPass: bool)

  predicate IsOpenBlocker(f: Finding) {
    f.blocking && f.status in {Open, Regression}
  }

  function OpenBlockers(ledger: seq<Finding>): seq<Finding> {
    if ledger == [] then []
    else
      var last := ledger[|ledger| - 1];
      OpenBlockers(ledger[..|ledger| - 1]) + (if IsOpenBlocker(last) then [last] else [])
  }

  ghost predicate DistinctFingerprints(ledger: seq<Finding>) {
    forall i, j | 0 <= i < j < |ledger| :: ledger[i].fingerprint != ledger[j].fingerprint
  }

  // ---------------------------------------------------------------------------------------------
  // Matching
  // ---------------------------------------------------------------------------------------------

  function FingerprintOf(w: Reader, c: Candidate): string {
    w.fingerprint(c.requirementId, c.component, c.summary)
  }

  /** Shared tokens per token of either text. */
  function Score(w: Reader, c: Candidate, f: Finding): real {
    var a, b := w.tokens(c.summary), w.tokens(f.summary);
    if a == {} || b == {} then 0.0 else |a * b| as real / |a + b| as real
  }

  const THRESHOLD := 0.35

  predicate Exact(w: Reader, c: Candidate, f: Finding) {
    f.fingerprint == FingerprintOf(w, c)
  }

  predicate Hits(w: Reader, c: Candidate, f: Finding) {
    Exact(w, c, f) || Score(w, c, f) > THRESHOLD
  }

  /** The score is the share of the tokens of both texts that they share: 0 without a shared token, 1 for the
      same tokens, and above the threshold exactly when more than 7 of 20 are shared. */
  lemma {:induction false} ScoreIsShare(w: Reader, c: Candidate, f: Finding)
    ensures var a, b := w.tokens(c.summary), w.tokens(f.summary);
            && 0.0 <= Score(w, c, f) <= 1.0
            && (Score(w, c, f) == 0.0 <==> a !! b)
            && (Score(w, c, f) == 1.0 <==> a == b && a != {})
            && (Score(w, c, f) > THRESHOLD <==> 20 * |a * b| > 7 * |a + b|)
  {
    var a, b := w.tokens(c.summary), w.tokens(f.summary);
    var both, either := |a * b|, |a + b|;
    assert |a + b| == |a - b| + |b - a| + |a * b| by {
      assert a + b == (a - b) + (b - a) + a * b;
    }
    assert both == 0 <==> a * b == {};
    assert both == either <==> a == b by {
      assert a == (a - b) + a * b && b == (b - a) + a * b;
    }
    if a != {} && b != {} {
      assert either > 0 by {
        assert a + b != {};
      }
      RatioCompares(both, either);
    }
  }

  /** Comparing two numbers, and comparing them times another. */
  lemma {:induction false} TimesCompare(a: real, b: real, n: real, p: real, q: real)
    requires n > 0.0 && p == a * n && q == b * n
    ensures (a > b <==> p > q) && (a < b <==> p < q)
  {
    var d := a - b;
    assert p - q == d * n;
    assert d > 0.0 ==> d * n > 0.0;
    assert d < 0.0 ==> (-d) * n > 0.0;
  }

  lemma {:induction false} RatioTimes(x: nat, y: nat)
    requires y > 0
    ensures (x as real / y as real) * y as real == x as real
  {
  }

  lemma {:induction false} RatioCompares(x: nat, y: nat)
    requires 0 < y && x <= y
    ensures var r := x as real / y as real;
            && 0.0 <= r <= 1.0 && (r == 0.0 <==> x == 0) && (r == 1.0 <==> x == y)
            && (r > THRESHOLD <==> 20 * x > 7 * y)
  {
    var r, n, m := x as real / y as real, y as real, x as real;
    RatioTimes(x, y);
    TimesCompare(r, 0.0, n, m, 0.0);
    TimesCompare(r, 1.0, n, m, n);
    TimesCompare(r, THRESHOLD, n, m, THRESHOLD * n);
  }

  /** The finding a candidate is taken for: the first of the same fingerprint, else the first of the
      closest in tokens above the threshold. */
  ghost predicate IsBestMatch(w: Reader, c: Candidate, ledger: seq<Finding>, i: int) {
    && 0 <= i < |ledger|
    && ((Exact(w, c, ledger[i]) && forall j | 0 <= j < i :: !Exact(w, c, ledger[j]))
        || (&& (forall j | 0 <= j < |ledger| :: !Exact(w, c, ledger[j]))
            && Score(w, c, ledger[i]) > THRESHOLD
            && (forall j | 0 <= j < |ledger| :: Score(w, c, ledger[j]) <= Score(w, c, ledger[i]))
            && (forall j | 0 <= j < i :: Score(w, c, ledger[j]) < Score(w, c, ledger[i]))))
  }

  predicate Known(w: Reader, c: Candidate, ledger: seq<Finding>) {
    exists i :: 0 <= i < |ledger| && Hits(w, c, ledger[i])
  }

  method MatchFinding(w: Reader, c: Candidate, ledger: seq<Finding>) returns (m: Option<nat>)
    ensures m.Some? ==> IsBestMatch(w, c, ledger, m.value)
    ensures m.Some? <==> Known(w, c, ledger)
  {
    for i := 0 to |ledger|
      invariant forall j | 0 <= j < i :: !Exact(w, c, ledger[j])
    {
      if Exact(w, c, ledger[i]) {
        assert Hits(w, c, ledger[i]);
        return Some(i);
      }
    }
    if w.tokens(c.summary) == {} {
      return None;
    }
    m := ClosestFinding(w, c, ledger);
  }

  method ClosestFinding(w: Reader, c: Candidate, ledger: seq<Finding>) returns (m: Option<nat>)
    requires forall j | 0 <= j < |ledger| :: !Exact(w, c, ledger[j])
    ensures m.Some? ==> IsBestMatch(w, c, ledger, m.value)
    ensures m.Some? <==> Known(w, c, ledger)
  {
    var best: Option<nat> := None;
    var bestScore := 0.0;
    for i := 0 to |ledger|
      invariant best.None? ==> bestScore == 0.0 && forall j | 0 <= j < i :: Score(w, c, ledger[j]) <= THRESHOLD
      invariant best.Some? ==>
                  && best.value < i && bestScore == Score(w, c, ledger[best.value]) > THRESHOLD
                  && (forall j | 0 <= j < i :: Score(w, c, ledger[j]) <= bestScore)
                  && (forall j | 0 <= j < best.value :: Score(w, c, ledger[j]) < bestScore)
    {
      if w.tokens(ledger[i].summary) != {} {
        var score := Score(w, c, ledger[i]);
        if score > THRESHOLD && score > bestScore {
          best, bestScore := Some(i), score;
        }
      }
    }
    if best.Some? {
      assert Hits(w, c, ledger[best.value]);
    }
    m := best;
  }

  // ---------------------------------------------------------------------------------------------
  // The baseline
  // ---------------------------------------------------------------------------------------------

  function BaselineFinding(w: Reader, sha: string, fingerprint: string, c: Candidate): Finding {
    var followUp := w.saysFollowUp(c.summary, c.severity);
    Finding(fingerprint, c.requirementId, c.severity, Correctness, c.component, c.summary, !followUp,
            if followUp then FollowUp else Open, sha, sha, None)
  }

  predicate Holds(findings: seq<Finding>, fingerprint: string) {
    exists i :: 0 <= i < |findings| && findings[i].fingerprint == fingerprint
  }

  function AddNew(ledger: seq<Finding>, f: Finding): seq<Finding> {
    if Holds(ledger, f.fingerprint) then ledger else ledger + [f]
  }

  function AddAll(ledger: seq<Finding>, findings: seq<Finding>): seq<Finding> {
    if findings == [] then ledger else AddNew(AddAll(ledger, findings[..|findings| - 1]), findings[|findings| - 1])
  }

  /** What a baseline review offers, in the order it is taken in. */
  function Offered(w: Reader, r: Review): seq<Finding> {
    seq(|r.extracted|, i requires 0 <= i < |r.extracted| =>
        BaselineFinding(w, r.targetSha, FingerprintOf(w, r.extracted[i]), r.extracted[i]))
    + seq(|r.structured|, i requires 0 <= i < |r.structured| =>
        BaselineFinding(w, r.targetSha, r.structured[i].0, r.structured[i].1))
  }

  function Baseline(w: Reader, r: Review): seq<Finding> {
    AddAll([], Offered(w, r))
  }

  function Places(findings: seq<Finding>): seq<(string, string)> {
    seq(|findings|, i requires 0 <= i < |findings| => (findings[i].component, findings[i].summary))
  }

  /** Freezing the ledger; the reasons name the open blockers, in ledger order. */
  method ReconcileBaseline(w: Reader, r: Review) returns (ledger: seq<Finding>, reasons: seq<(string, string)>)
    ensures ledger == Baseline(w, r)
    ensures reasons == Places(OpenBlockers(ledger))
  {
    forall i | 0 <= i < |Offered(w, r)| ensures var f := Offered(w, r)[i]; f.blocking <==> IsOpenBlocker(f) {
      OfferedBlocksWhenOpen(w, r, i);
    }
    ledger, reasons := TakeIn(Offered(w, r));
  }

  method TakeIn(offered: seq<Finding>) returns (ledger: seq<Finding>, reasons: seq<(string, string)>)
    requires forall i | 0 <= i < |offered| :: offered[i].blocking <==> IsOpenBlocker(offered[i])
    ensures ledger == AddAll([], offered)
    ensures reasons == Places(OpenBlockers(ledger))
  {
    ledger, reasons := [], [];
    var seen: set<string> := {};
    assert offered[..0] == [];
    for i := 0 to |offered|
      invariant ledger == AddAll([], offered[..i])
      invariant SeenAre(seen, ledger)
      invariant reasons == Places(OpenBlockers(ledger))
    {
      assert offered[..i + 1][..i] == offered[..i];
      ledger, seen, reasons := AddOffered(ledger, seen, reasons, offered[i]);
    }
    assert offered[..|offered|] == offered;
  }

  ghost predicate SeenAre(seen: set<string>, ledger: seq<Finding>) {
    forall fp :: fp in seen <==> exists j :: 0 <= j < |ledger| && ledger[j].fingerprint == fp
  }

  method AddOffered(before: seq<Finding>, seenBefore: set<string>, reasonsBefore: seq<(string, string)>, f: Finding)
    returns (ledger: seq<Finding>, seen: set<string>, reasons: seq<(string, string)>)
    requires SeenAre(seenBefore, before) && reasonsBefore == Places(OpenBlockers(before))
    requires f.blocking <==> IsOpenBlocker(f)
    ensures ledger == AddNew(before, f) && SeenAre(seen, ledger) && reasons == Places(OpenBlockers(ledger))
  {
    ledger, seen, reasons := before, seenBefore, reasonsBefore;
    if f.fingerprint !in seen {
      seen := seen + {f.fingerprint};
      OpenBlockersSnoc(ledger, f);
      ledger := ledger + [f];
      if f.blocking {
        reasons := reasons + [(f.component, f.summary)];
      }
      SeenGrows(seenBefore, before, f);
    }
  }

  lemma {:induction false} SeenGrows(seen: set<string>, ledger: seq<Finding>, f: Finding)
    requires SeenAre(seen, ledger)
    ensures SeenAre(seen + {f.fingerprint}, ledger + [f])
  {
    var grown := ledger + [f];
    assert grown[|ledger|].fingerprint == f.fingerprint;
    forall fp ensures fp in seen + {f.fingerprint} <==> exists j :: 0 <= j < |grown| && grown[j].fingerprint == fp {
      if j :| 0 <= j < |ledger| && ledger[j].fingerprint == fp {
        assert grown[j].fingerprint == fp;
      }
    }
  }

  lemma {:induction false} OfferedBlocksWhenOpen(w: Reader, r: Review, i: nat)
    requires i < |Offered(w, r)|
    ensures var f := Offered(w, r)[i];
            (f.blocking <==> IsOpenBlocker(f)) && f.status == (if f.blocking then Open else FollowUp)
  {}

  lemma {:induction false} OpenBlockersSnoc(ledger: seq<Finding>, f: Finding)
    ensures OpenBlockers(ledger + [f]) == OpenBlockers(ledger) + (if IsOpenBlocker(f) then [f] else [])
    ensures Places(OpenBlockers(ledger + [f])) ==
            Places(OpenBlockers(ledger)) + (if IsOpenBlocker(f) then [(f.component, f.summary)] else [])
  {
    assert (ledger + [f])[..|ledger|] == ledger;
  }

  /** The fingerprint and the text that a baseline review gives each of its findings. */
  function Offers(w: Reader, r: Review): seq<(string, Candidate)> {
    seq(|r.extracted|, i requires 0 <= i < |r.extracted| => (FingerprintOf(w, r.extracted[i]), r.extracted[i]))
    + r.structured
  }

  /** The finding is what the review says, at this head; it is open unless it is a mere suggestion. */
  ghost predicate Freezes(w: Reader, sha: string, offer: (string, Candidate), f: Finding) {
    && f.fingerprint == offer.0 && f.summary == offer.1.summary && f.component == offer.1.component
    && f.requirementId == offer.1.requirementId && f.severity == offer.1.severity
    && f.firstSeenHead == sha && f.lastVerifiedHead == sha
    && (f.blocking <==> !w.saysFollowUp(f.summary, f.severity))
    && f.status == (if f.blocking then Open else FollowUp)
  }

  /** A frozen ledger has distinct fingerprints, blocks exactly on what is no mere suggestion, and keeps the
      rest as follow-ups. Nothing that the review says is missing, and nothing else is there. */
  lemma {:induction false} BaselineIsSound(w: Reader, r: Review)
    ensures DistinctFingerprints(Baseline(w, r))
    ensures forall f | f in Baseline(w, r) :: exists o :: o in Offers(w, r) && Freezes(w, r.targetSha, o, f)
    ensures forall o | o in Offers(w, r) :: exists g :: g in Baseline(w, r) && g.fingerprint == o.0
  {
    var offered := Offered(w, r);
    AddAllIsSound([], offered);
    forall f | f in Baseline(w, r) ensures exists o :: o in Offers(w, r) && Freezes(w, r.targetSha, o, f) {
      var i :| 0 <= i < |offered| && offered[i] == f;
      OfferIsFrozen(w, r, i);
    }
    forall o | o in Offers(w, r) ensures exists g :: g in Baseline(w, r) && g.fingerprint == o.0 {
      var i :| 0 <= i < |Offers(w, r)| && Offers(w, r)[i] == o;
      OfferIsFrozen(w, r, i);
      assert offered[i] in offered;
    }
  }

  lemma {:induction false} OfferIsFrozen(w: Reader, r: Review, i: nat)
    requires i < |Offers(w, r)|
    ensures |Offered(w, r)| == |Offers(w, r)| && Offers(w, r)[i] in Offers(w, r)
    ensures Freezes(w, r.targetSha, Offers(w, r)[i], Offered(w, r)[i])
  {
  }

  lemma {:induction false} AddAllIsSound(ledger: seq<Finding>, findings: seq<Finding>)
    requires DistinctFingerprints(ledger)
    ensures ledger <= AddAll(ledger, findings) && DistinctFingerprints(AddAll(ledger, findings))
    ensures forall f | f in AddAll(ledger, findings) :: f in ledger || f in findings
    ensures forall f | f in findings :: exists g :: g in AddAll(ledger, findings) && g.fingerprint == f.fingerprint
  {
    if findings != [] {
      var front, last := findings[..|findings| - 1], findings[|findings| - 1];
      AddAllIsSound(ledger, front);
      var before, after := AddAll(ledger, front), AddAll(ledger, findings);
      forall f | f in findings ensures exists g :: g in after && g.fingerprint == f.fingerprint {
        if f in front {
          var g :| g in before && g.fingerprint == f.fingerprint;
          assert g in after;
        } else if after == before {
          var i :| 0 <= i < |before| && before[i].fingerprint == last.fingerprint;
          assert before[i] in after;
        } else {
          assert last in after;
        }
      }
    }
  }

  // ---------------------------------------------------------------------------------------------
  // A closure round
  // ---------------------------------------------------------------------------------------------

  /** What a closure review makes of one frozen finding. */
  function Reconciled(w: Reader, r: Review, f: Finding): Finding {
    if f.fingerprint in r.dispositions then
      f.(status := r.dispositions[f.fingerprint], lastVerifiedHead := r.targetSha,
         evidence := if f.fingerprint in r.evidence then Some(r.evidence[f.fingerprint]) else f.evidence)
    else if r.generalPass && f.status == Open then
      f.(status := Resolved, lastVerifiedHead := r.targetSha, evidence := Some("Verified resolved in closure pass"))
    else if exists c :: c in r.extracted && Hits(w, c, f) then
      f.(status := Open, lastVerifiedHead := r.targetSha)
    else f
  }

  function ReconciledAll(w: Reader, r: Review, frozen: seq<Finding>): seq<Finding> {
    seq(|frozen|, i requires 0 <= i < |frozen| => Reconciled(w, r, frozen[i]))
  }

  /** What becomes of a finding first seen after the freeze: a regression blocks, a critical one blocks
      unless it is only a suggestion, everything else is a follow-up. */
  function LateFinding(w: Reader, sha: string, c: Candidate): Finding {
    var regression := w.saysRegression(c.summary);
    var critical := w.saysCritical(c.summary, c.severity);
    var blocks := critical && !w.saysFollowUp(c.summary, c.severity);
    Finding(FingerprintOf(w, c), c.requirementId, c.severity,
            if regression then RegressionCategory else if critical then Security else FollowUpCategory,
            c.component, c.summary, regression || blocks,
            if regression then Regression else if blocks then Open else FollowUp, sha, sha, None)
  }

  function AddLate(w: Reader, sha: string, ledger: seq<Finding>, candidates: seq<Candidate>): seq<Finding> {
    if candidates == [] then ledger
    else
      var before := AddLate(w, sha, ledger, candidates[..|candidates| - 1]);
      var c := candidates[|candidates| - 1];
      if Known(w, c, before) then before else before + [LateFinding(w, sha, c)]
  }

  function Closure(w: Reader, frozen: seq<Finding>, r: Review): seq<Finding> {
    AddLate(w, r.targetSha, ReconciledAll(w, r, frozen), r.extracted + r.late)
  }

  /** One closure round over the frozen ledger. */
  method ReconcileClosure(w: Reader, frozen: seq<Finding>, r: Review)
    returns (ledger: seq<Finding>, reasons: seq<(string, string)>)
    ensures ledger == Closure(w, frozen, r)
    ensures reasons == Places(OpenBlockers(ledger))
  {
    ledger, reasons := [], [];
    for i := 0 to |frozen|
      invariant ledger == ReconciledAll(w, r, frozen[..i])
      invariant reasons == Places(OpenBlockers(ledger))
    {
      var f := ReconcileOne(w, r, frozen[i]);
      OpenBlockersSnoc(ledger, f);
      ledger := ledger + [f];
      if IsOpenBlocker(f) {
        reasons := reasons + [(f.component, f.summary)];
      }
    }
    assert frozen[..|frozen|] == frozen;
    ledger, reasons := AddLateFindings(w, r, ledger, reasons);
  }

  method ReconcileOne(w: Reader, r: Review, f: Finding) returns (g: Finding)
    ensures g == Reconciled(w, r, f)
  {
    g := f;
    if f.fingerprint in r.dispositions {
      g := g.(status := r.dispositions[f.fingerprint], lastVerifiedHead := r.targetSha);
      if f.fingerprint in r.evidence {
        g := g.(evidence := Some(r.evidence[f.fingerprint]));
      }
    } else if r.generalPass && f.status == Open {
      g := g.(status := Resolved, lastVerifiedHead := r.targetSha,
        evidence := Some("Verified resolved in closure pass"));
    } else {
      for i := 0 to |r.extracted|
        invariant forall j | 0 <= j < i :: !Hits(w, r.extracted[j], f)
      {
        var m := MatchFinding(w, r.extracted[i], [f]);
        if m.Some? {
          assert r.extracted[i] in r.extracted && Hits(w, r.extracted[i], f);
          g := g.(status := Open, lastVerifiedHead := r.targetSha);
          return;
        }
        assert !Hits(w, r.extracted[i], [f][0]);
      }
    }
  }

  method AddLateFindings(w: Reader, r: Review, frozen: seq<Finding>, openReasons: seq<(string, string)>)
    returns (ledger: seq<Finding>, reasons: seq<(string, string)>)
    requires openReasons == Places(OpenBlockers(frozen))
    ensures ledger == AddLate(w, r.targetSha, frozen, r.extracted + r.late)
    ensures reasons == Places(OpenBlockers(ledger))
  {
    ledger, reasons := frozen, openReasons;
    var candidates := r.extracted + r.late;
    assert candidates[..0] == [];
    for i := 0 to |candidates|
      invariant ledger == AddLate(w, r.targetSha, frozen, candidates[..i])
      invariant reasons == Places(OpenBlockers(ledger))
    {
      AddLateSnoc(w, r.targetSha, frozen, candidates, i);
      ledger, reasons := AddLateFinding(w, r.targetSha, ledger, reasons, candidates[i]);
    }
    assert candidates[..|candidates|] == candidates;
  }

  lemma {:induction false} AddLateSnoc(w: Reader, sha: string, frozen: seq<Finding>, candidates: seq<Candidate>, i: nat)
    requires i < |candidates|
    ensures var before := AddLate(w, sha, frozen, candidates[..i]);
            AddLate(w, sha, frozen, candidates[..i + 1])
            == if Known(w, candidates[i], before) then before else before + [LateFinding(w, sha, candidates[i])]
  {
    assert candidates[..i + 1][..i] == candidates[..i];
  }

  method AddLateFinding(w: Reader, sha: string, before: seq<Finding>, reasonsBefore: seq<(string, string)>,
      c: Candidate)
    returns (ledger: seq<Finding>, reasons: seq<(string, string)>)
    requires reasonsBefore == Places(OpenBlockers(before))
    ensures ledger == if Known(w, c, before) then before else before + [LateFinding(w, sha, c)]
    ensures reasons == Places(OpenBlockers(ledger))
  {
    ledger, reasons := before, reasonsBefore;
    var m := MatchFinding(w, c, ledger);
    if m.None? {
      var f := LateFinding(w, sha, c);
      OpenBlockersSnoc(ledger, f);
      ledger := ledger + [f];
      if f.blocking {
        reasons := reasons + [(f.component, f.summary)];
      }
    }
  }

  // ---------------------------------------------------------------------------------------------
  // Over the rounds
  // ---------------------------------------------------------------------------------------------

  /** Everything about a finding that no later review may touch. */
  ghost predicate SameIdentity(f: Finding, g: Finding) {
    && f.fingerprint == g.fingerprint && f.blocking == g.blocking && f.requirementId == g.requirementId
    && f.severity == g.severity && f.category == g.category && f.component == g.component && f.summary == g.summary
    && f.firstSeenHead == g.firstSeenHead
  }

  ghost predicate Keeps(before: seq<Finding>, after: seq<Finding>) {
    |before| <= |after| && forall i | 0 <= i < |before| :: SameIdentity(before[i], after[i])
  }

  /** What counts as a blocker once the ledger is frozen. */
  predicate BlocksLate(w: Reader, summary: string, severity: string) {
    w.saysRegression(summary) || (w.saysCritical(summary, severity) && !w.saysFollowUp(summary, severity))
  }

  /** A finding that came in after the freeze blocks exactly if it is a regression, or critical and no mere
      suggestion. */
  ghost predicate LateBlocker(w: Reader, f: Finding) {
    f.blocking <==> BlocksLate(w, f.summary, f.severity)
  }

  lemma {:induction false} AddLateKeeps(w: Reader, sha: string, ledger: seq<Finding>, candidates: seq<Candidate>)
    requires DistinctFingerprints(ledger)
    ensures var after := AddLate(w, sha, ledger, candidates);
            && ledger <= after && DistinctFingerprints(after)
            && (forall i | |ledger| <= i < |after| :: LateBlocker(w, after[i]))
            && (forall c | c in candidates :: Known(w, c, after))
  {
    if candidates != [] {
      var front, last := candidates[..|candidates| - 1], candidates[|candidates| - 1];
      AddLateKeeps(w, sha, ledger, front);
      var before, after := AddLate(w, sha, ledger, front), AddLate(w, sha, ledger, candidates);
      if after != before {
        var f := LateFinding(w, sha, last);
        assert after == before + [f];
        forall i | 0 <= i < |before| ensures before[i].fingerprint != f.fingerprint {
          assert !Hits(w, last, before[i]);
        }
        assert Hits(w, last, after[|before|]);
      }
      forall c | c in candidates ensures Known(w, c, after) {
        if c in front {
          KnownGrows(w, c, before, after);
        }
      }
    }
  }

  lemma {:induction false} KnownGrows(w: Reader, c: Candidate, before: seq<Finding>, after: seq<Finding>)
    requires Known(w, c, before) && Keeps(before, after)
    ensures Known(w, c, after)
  {
    var i :| 0 <= i < |before| && Hits(w, c, before[i]);
    assert Hits(w, c, after[i]);
  }

  /** One round keeps every finding in its place with its identity, adds only late blockers and
      follow-ups, keeps fingerprints distinct, and leaves no candidate of the review unknown. */
  lemma {:induction false} RoundKeeps(w: Reader, frozen: seq<Finding>, r: Review)
    requires DistinctFingerprints(frozen)
    ensures var after := Closure(w, frozen, r);
            && Keeps(frozen, after) && DistinctFingerprints(after)
            && (forall i | |frozen| <= i < |after| :: LateBlocker(w, after[i]))
            && (forall c | c in r.extracted + r.late :: Known(w, c, after))
  {
    var reconciled := ReconciledAll(w, r, frozen);
    assert forall i | 0 <= i < |frozen| :: SameIdentity(frozen[i], reconciled[i]);
    AddLateKeeps(w, r.targetSha, reconciled, r.extracted + r.late);
  }

  ghost function Rounds(w: Reader, frozen: seq<Finding>, reviews: seq<Review>): seq<Finding> {
    if reviews == [] then frozen
    else Closure(w, Rounds(w, frozen, reviews[..|reviews| - 1]), reviews[|reviews| - 1])
  }

  /** Over any number of closure rounds: frozen findings keep their order, fingerprint and blocking flag,
      fingerprints stay distinct, and every blocker added on the way is a regression or critical. */
  lemma {:induction false} RoundsKeep(w: Reader, frozen: seq<Finding>, reviews: seq<Review>)
    requires DistinctFingerprints(frozen)
    ensures var after := Rounds(w, frozen, reviews);
            && Keeps(frozen, after) && DistinctFingerprints(after)
            && forall i | |frozen| <= i < |after| :: LateBlocker(w, after[i])
  {
    if reviews != [] {
      var front := Rounds(w, frozen, reviews[..|reviews| - 1]);
      RoundsKeep(w, frozen, reviews[..|reviews| - 1]);
      RoundKeeps(w, front, reviews[|reviews| - 1]);
      var after := Rounds(w, frozen, reviews);
      forall i | |frozen| <= i < |after| ensures LateBlocker(w, after[i]) {
        if i < |front| {
          assert SameIdentity(front[i], after[i]);
        }
      }
      forall i | 0 <= i < |frozen| ensures SameIdentity(frozen[i], after[i]) {
        assert SameIdentity(front[i], after[i]);
      }
    }
  }

  lemma {:induction false} NothingLeftToAdd(w: Reader, sha: string, ledger: seq<Finding>, candidates: seq<Candidate>)
    requires forall c | c in candidates :: Known(w, c, ledger)
    ensures AddLate(w, sha, ledger, candidates) == ledger
  {
    if candidates != [] {
      NothingLeftToAdd(w, sha, ledger, candidates[..|candidates| - 1]);
      assert candidates[|candidates| - 1] in candidates;
    }
  }

  /** A review applied again, even after any number of other reviews, adds no finding. */
  lemma {:induction false} SameReviewAddsNothing(w: Reader, frozen: seq<Finding>, r: Review, between: seq<Review>)
    requires DistinctFingerprints(frozen)
    ensures var ledger := Rounds(w, Closure(w, frozen, r), between);
            |Closure(w, ledger, r)| == |ledger|
  {
    var first := Closure(w, frozen, r);
    RoundKeeps(w, frozen, r);
    RoundsKeep(w, first, between);
    var ledger := Rounds(w, first, between);
    var reconciled := ReconciledAll(w, r, ledger);
    forall c | c in r.extracted + r.late ensures Known(w, c, reconciled) {
      KnownGrows(w, c, first, ledger);
      KnownGrows(w, c, ledger, reconciled);
    }
    NothingLeftToAdd(w, r.targetSha, reconciled, r.extracted + r.late);
  }

  // ---------------------------------------------------------------------------------------------
  // What a round makes of the statuses
  // ---------------------------------------------------------------------------------------------

  /** The review reports the finding again. */
  ghost predicate Reported(w: Reader, r: Review, f: Finding) {
    exists c :: c in r.extracted && Hits(w, c, f)
  }

  /** The review says itself what became of the finding. */
  predicate Disposed(r: Review, f: Finding) {
    f.fingerprint in r.dispositions
  }

  /** A general pass meets an open finding that has no disposition of its own. */
  predicate PassesOver(r: Review, f: Finding) {
    !Disposed(r, f) && r.generalPass && f.status == Open
  }

  /** After a round a frozen finding has the status of its disposition; without one it is resolved exactly
      when a general pass met it open, or it was resolved and is not reported again, and it is open exactly
      when it is reported again or still open, and not passed over. A status that changes is verified at the
      head of this review. */
  lemma {:induction false} StatusAfterRound(w: Reader, frozen: seq<Finding>, r: Review, i: nat)
    requires i < |frozen|
    ensures i < |Closure(w, frozen, r)|
    ensures var f, g := frozen[i], Closure(w, frozen, r)[i];
            && (Disposed(r, f) ==> g.status == r.dispositions[f.fingerprint])
            && (!Disposed(r, f) ==>
                  && (g.status == Resolved <==> PassesOver(r, f) || (f.status == Resolved && !Reported(w, r, f)))
                  && (g.status == Open <==> !PassesOver(r, f) && (Reported(w, r, f) || f.status == Open))
                  && (g.status !in {Open, Resolved} ==> g.status == f.status))
            && (g.status != f.status ==> g.lastVerifiedHead == r.targetSha)
            && g.lastVerifiedHead in {f.lastVerifiedHead, r.targetSha}
            && (g.evidence != f.evidence ==>
                  PassesOver(r, f) || (Disposed(r, f) && f.fingerprint in r.evidence
                                       && g.evidence == Some(r.evidence[f.fingerprint])))
            && (Disposed(r, f) && f.fingerprint in r.evidence ==> g.evidence == Some(r.evidence[f.fingerprint]))
  {
    AddLateExtends(w, r.targetSha, ReconciledAll(w, r, frozen), r.extracted + r.late);
  }

  lemma {:induction false} AddLateExtends(w: Reader, sha: string, ledger: seq<Finding>, candidates: seq<Candidate>)
    ensures ledger <= AddLate(w, sha, ledger, candidates)
  {
    if candidates != [] {
      AddLateExtends(w, sha, ledger, candidates[..|candidates| - 1]);
    }
  }

  /** The round leaves nothing open of a frozen finding. */
  ghost predicate Closes(w: Reader, r: Review, f: Finding) {
    if Disposed(r, f) then r.dispositions[f.fingerprint] !in {Open, Regression}
    else PassesOver(r, f) || (f.status !in {Open, Regression} && !Reported(w, r, f))
  }

  /** The ledger that meets the candidate number `k` of a closure review. */
  function Meeting(w: Reader, frozen: seq<Finding>, r: Review, k: nat): seq<Finding>
    requires k <= |r.extracted + r.late|
  {
    AddLate(w, r.targetSha, ReconciledAll(w, r, frozen), (r.extracted + r.late)[..k])
  }

  /** Every candidate that would block is known by the time it comes up. */
  ghost predicate NothingNewBlocks(w: Reader, frozen: seq<Finding>, r: Review) {
    var all := r.extracted + r.late;
    forall k | 0 <= k < |all| && BlocksLate(w, all[k].summary, all[k].severity) ::
      Known(w, all[k], Meeting(w, frozen, r, k))
  }

  /** A candidate that is unknown when it comes up stands in the ledger as what it is, and if it blocks it is
      open or a regression. */
  lemma {:induction false} UnknownCandidateIsAdded(w: Reader, frozen: seq<Finding>, r: Review, k: nat)
    requires k < |r.extracted + r.late| && !Known(w, (r.extracted + r.late)[k], Meeting(w, frozen, r, k))
    ensures var c, n := (r.extracted + r.late)[k], |Meeting(w, frozen, r, k)|;
            && n < |Closure(w, frozen, r)|
            && var g := Closure(w, frozen, r)[n];
               && g.summary == c.summary && g.component == c.component && g.requirementId == c.requirementId
               && g.severity == c.severity && g.fingerprint == FingerprintOf(w, c) && g.firstSeenHead == r.targetSha
               && (IsOpenBlocker(g) <==> BlocksLate(w, c.summary, c.severity))
               && (g.status == Regression <==> w.saysRegression(c.summary))
  {
    var all := r.extracted + r.late;
    assert all[..k + 1][..k] == all[..k];
    MeetingGrows(w, r.targetSha, ReconciledAll(w, r, frozen), all, k + 1);
  }

  lemma {:induction false} MeetingGrows(w: Reader, sha: string, ledger: seq<Finding>, all: seq<Candidate>, k: nat)
    requires k <= |all|
    ensures AddLate(w, sha, ledger, all[..k]) <= AddLate(w, sha, ledger, all)
  {
    if k == |all| {
      assert all[..k] == all;
    } else {
      MeetingGrows(w, sha, ledger, all[..|all| - 1], k);
      assert all[..|all| - 1][..k] == all[..k];
    }
  }

  lemma {:induction false} LateAreSafe(w: Reader, sha: string, ledger: seq<Finding>, all: seq<Candidate>)
    requires forall k | 0 <= k < |all| && BlocksLate(w, all[k].summary, all[k].severity) ::
               Known(w, all[k], AddLate(w, sha, ledger, all[..k]))
    ensures var after := AddLate(w, sha, ledger, all);
            ledger <= after && forall i | |ledger| <= i < |after| :: !after[i].blocking
  {
    if all != [] {
      var front, last := all[..|all| - 1], all[|all| - 1];
      forall k | 0 <= k < |front| && BlocksLate(w, front[k].summary, front[k].severity)
        ensures Known(w, front[k], AddLate(w, sha, ledger, front[..k]))
      {
        assert front[..k] == all[..k] && front[k] == all[k];
      }
      LateAreSafe(w, sha, ledger, front);
    }
  }

  /** A round leaves no open blocker exactly when it closes every frozen blocker and nothing new blocks. */
  lemma {:induction false} NothingOpenExactlyWhen(w: Reader, frozen: seq<Finding>, r: Review)
    ensures OpenBlockers(Closure(w, frozen, r)) == []
            <==> (forall f | f in frozen && f.blocking :: Closes(w, r, f)) && NothingNewBlocks(w, frozen, r)
  {
    var after, all := Closure(w, frozen, r), r.extracted + r.late;
    OpenBlockersAreAll(after);
    AddLateExtends(w, r.targetSha, ReconciledAll(w, r, frozen), all);
    forall i | 0 <= i < |frozen| ensures IsOpenBlocker(after[i]) <==> frozen[i].blocking && !Closes(w, r, frozen[i]) {
      StatusAfterRound(w, frozen, r, i);
    }
    if OpenBlockers(after) == [] {
      forall f | f in frozen && f.blocking ensures Closes(w, r, f) {
        var i :| 0 <= i < |frozen| && frozen[i] == f;
        assert after[i] in after;
      }
      forall k | 0 <= k < |all| && BlocksLate(w, all[k].summary, all[k].severity)
        ensures Known(w, all[k], Meeting(w, frozen, r, k))
      {
        if !Known(w, all[k], Meeting(w, frozen, r, k)) {
          UnknownCandidateIsAdded(w, frozen, r, k);
        }
      }
    }
    if (forall f | f in frozen && f.blocking :: Closes(w, r, f)) && NothingNewBlocks(w, frozen, r) {
      LateAreSafe(w, r.targetSha, ReconciledAll(w, r, frozen), all);
      forall i | 0 <= i < |frozen| ensures !IsOpenBlocker(after[i]) {
        assert frozen[i] in frozen;
      }
      NoneIsOpen(after);
    }
  }

  lemma {:induction false} NoneIsOpen(ledger: seq<Finding>)
    requires forall i | 0 <= i < |ledger| :: !IsOpenBlocker(ledger[i])
    ensures OpenBlockers(ledger) == []
  {
    if ledger != [] {
      NoneIsOpen(ledger[..|ledger| - 1]);
    }
  }

  // ---------------------------------------------------------------------------------------------
  // The gate
  // ---------------------------------------------------------------------------------------------

  datatype Verdict = Approved | Contradiction | ChangesRequested | PayloadInvalid | Raw

  datatype Judgement = Judgement(ok: bool, verdict: Verdict, ledger: seq<Finding>)

  /** What the reviewer said outright, in the run or in the payload. */
  datatype Stated = StatedApproval | StatedChanges | StatedNothing

  /** A review as the gate sees it: what it says, and the blocking findings that its payload counts. */
  datatype Reading = Reading(review: Review, stated: Stated, structuredBlockers: nat)

  /** `frozen` is None when no ledger was passed. */
  function Reconcile(w: Reader, closure: bool, frozen: Option<seq<Finding>>, r: Review): seq<Finding> {
    if closure then Closure(w, if frozen.Some? then frozen.value else [], r) else Baseline(w, r)
  }

  function VerdictOn(blocked: bool, closes: bool, stated: Stated): Verdict {
    if stated == StatedApproval then if blocked then Contradiction else Approved
    else if closes && !blocked then Approved
    else if blocked then ChangesRequested
    else if stated == StatedChanges then PayloadInvalid
    else Raw
  }

  function Judge(w: Reader, closure: bool, frozen: Option<seq<Finding>>, read: Reading): Judgement {
    var ledger := Reconcile(w, closure, frozen, read.review);
    var blocked := OpenBlockers(ledger) != [] || read.structuredBlockers > 0;
    var verdict := VerdictOn(blocked, closure && frozen.Some?, read.stated);
    Judgement(verdict == Approved, verdict, ledger)
  }

  method CollectOpen(ledger: seq<Finding>) returns (open: seq<Finding>)
    ensures open == OpenBlockers(ledger)
  {
    open := [];
    for i := 0 to |ledger|
      invariant open == OpenBlockers(ledger[..i])
    {
      assert ledger[..i + 1][..i] == ledger[..i];
      if IsOpenBlocker(ledger[i]) {
        open := open + [ledger[i]];
      }
    }
    assert ledger[..|ledger|] == ledger;
  }

  method EvaluateReview(w: Reader, closure: bool, frozen: Option<seq<Finding>>, read: Reading) returns (j: Judgement)
    ensures j == Judge(w, closure, frozen, read)
    ensures j.ok <==> OpenBlockers(j.ledger) == [] && read.structuredBlockers == 0
                      && (read.stated == StatedApproval || (closure && frozen.Some?))
    // an accepted review leaves no OPEN or REGRESSION blocker
    ensures j.ok ==> forall f | f in j.ledger && f.blocking :: f.status !in {Open, Regression}
    ensures j.verdict == Contradiction <==>
              read.stated == StatedApproval && (OpenBlockers(j.ledger) != [] || read.structuredBlockers > 0)
    ensures j.verdict == ChangesRequested <==>
              read.stated != StatedApproval && (OpenBlockers(j.ledger) != [] || read.structuredBlockers > 0)
    ensures j.verdict == PayloadInvalid <==>
              !j.ok && read.stated == StatedChanges && OpenBlockers(j.ledger) == [] && read.structuredBlockers == 0
  {
    var ledger, reasons;
    if closure {
      ledger, reasons := ReconcileClosure(w, if frozen.Some? then frozen.value else [], read.review);
    } else {
      ledger, reasons := ReconcileBaseline(w, read.review);
    }
    var open := CollectOpen(ledger);
    OpenBlockersAreAll(ledger);
    var blocked := open != [] || read.structuredBlockers > 0;
    if read.stated == StatedApproval {
      j := if blocked then Judgement(false, Contradiction, ledger) else Judgement(true, Approved, ledger);
    } else if closure && frozen.Some? && !blocked {
      j := Judgement(true, Approved, ledger);
    } else if blocked {
      j := Judgement(false, ChangesRequested, ledger);
    } else if read.stated == StatedChanges {
      j := Judgement(false, PayloadInvalid, ledger);
    } else {
      j := Judgement(false, Raw, ledger);
    }
  }

  /** The ledger a review leaves: distinct fingerprints, nothing open when the review is accepted, and in a
      closure every frozen finding still itself. */
  lemma {:induction false} JudgedLedgerIsSound(w: Reader, closure: bool, frozen: Option<seq<Finding>>, read: Reading)
    requires frozen.Some? ==> DistinctFingerprints(frozen.value)
    ensures var j := Judge(w, closure, frozen, read);
            && DistinctFingerprints(j.ledger)
            && (j.ok ==> forall f | f in j.ledger :: !IsOpenBlocker(f))
            && (closure && frozen.Some? ==> Keeps(frozen.value, j.ledger))
  {
    if closure {
      RoundKeeps(w, if frozen.Some? then frozen.value else [], read.review);
    } else {
      BaselineIsSound(w, read.review);
    }
    OpenBlockersAreAll(Judge(w, closure, frozen, read).ledger);
  }

  /** Every finding of a first review is a suggestion, or repeats the fingerprint of an earlier one. */
  ghost predicate OnlySuggests(w: Reader, r: Review) {
    var offers := Offers(w, r);
    forall k | 0 <= k < |offers| && !w.saysFollowUp(offers[k].1.summary, offers[k].1.severity) ::
      RepeatsEarlier(offers, k)
  }

  predicate RepeatsEarlier(offers: seq<(string, Candidate)>, k: nat)
    requires k < |offers|
  {
    exists j :: 0 <= j < k && offers[j].0 == offers[k].0
  }

  /** What a review must be to be accepted, said of the review and the frozen ledger alone. A closure needs
      no stated approval. */
  ghost predicate Acceptable(w: Reader, closure: bool, frozen: Option<seq<Finding>>, read: Reading) {
    && read.structuredBlockers == 0
    && if closure then
         && (frozen.Some? || read.stated == StatedApproval)
         && (frozen.Some? ==> forall f | f in frozen.value && f.blocking :: Closes(w, read.review, f))
         && NothingNewBlocks(w, if frozen.Some? then frozen.value else [], read.review)
       else read.stated == StatedApproval && OnlySuggests(w, read.review)
  }

  /** A review is accepted exactly when it is acceptable: an accepted closure has closed every frozen blocker
      and reports no new one, an accepted first review says so and only suggests. */
  lemma {:induction false} AcceptedExactlyWhen(w: Reader, closure: bool, frozen: Option<seq<Finding>>, read: Reading)
    ensures Judge(w, closure, frozen, read).ok <==> Acceptable(w, closure, frozen, read)
  {
    if closure {
      NothingOpenExactlyWhen(w, if frozen.Some? then frozen.value else [], read.review);
    } else {
      BaselineOpensExactlyWhen(w, read.review);
    }
  }

  lemma {:induction false} BaselineOpensExactlyWhen(w: Reader, r: Review)
    ensures OpenBlockers(Baseline(w, r)) == [] <==> OnlySuggests(w, r)
  {
    var offered, offers, ledger := Offered(w, r), Offers(w, r), Baseline(w, r);
    forall k | 0 <= k < |offers|
      ensures |offered| == |offers| && Freezes(w, r.targetSha, offers[k], offered[k])
              && (RepeatsEarlier(offers, k) <==> !IsFirst(offered, k))
    {
      OfferIsFrozen(w, r, k);
      FirstsAlike(w, r, k);
    }
    if OpenBlockers(ledger) == [] {
      OpenBlockersAreAll(ledger);
      forall k | 0 <= k < |offers| && !w.saysFollowUp(offers[k].1.summary, offers[k].1.severity)
        ensures RepeatsEarlier(offers, k)
      {
        if IsFirst(offered, k) {
          FirstIsKept(offered, k);
        }
      }
    }
    if OnlySuggests(w, r) {
      forall i | 0 <= i < |ledger| ensures !IsOpenBlocker(ledger[i]) {
        var k := KeptIsFirst(offered, ledger[i]);
      }
      NoneIsOpen(ledger);
    }
  }

  predicate IsFirst(findings: seq<Finding>, k: int)
    requires 0 <= k < |findings|
  {
    forall j | 0 <= j < k :: findings[j].fingerprint != findings[k].fingerprint
  }

  lemma {:induction false} FirstsAlike(w: Reader, r: Review, k: nat)
    requires k < |Offers(w, r)|
    ensures |Offered(w, r)| == |Offers(w, r)|
    ensures RepeatsEarlier(Offers(w, r), k) <==> !IsFirst(Offered(w, r), k)
  {
    forall j | 0 <= j <= k
      ensures |Offered(w, r)| == |Offers(w, r)| && Offered(w, r)[j].fingerprint == Offers(w, r)[j].0
    {
      OfferIsFrozen(w, r, j);
    }
  }

  lemma {:induction false} HoldsSnoc(findings: seq<Finding>, f: Finding, fingerprint: string)
    ensures Holds(findings + [f], fingerprint) <==> Holds(findings, fingerprint) || f.fingerprint == fingerprint
  {
    var grown := findings + [f];
    assert grown[|findings|] == f;
    assert forall i | 0 <= i < |findings| :: grown[i] == findings[i];
  }

  lemma {:induction false} SameAreHeld(findings: seq<Finding>, fingerprint: string)
    ensures Holds(AddAll([], findings), fingerprint) <==> Holds(findings, fingerprint)
  {
    if findings != [] {
      var front, last := findings[..|findings| - 1], findings[|findings| - 1];
      SameAreHeld(front, fingerprint);
      HoldsSnoc(front, last, fingerprint);
      HoldsSnoc(AddAll([], front), last, fingerprint);
      assert findings == front + [last];
    }
  }

  lemma {:induction false} LastIsFirst(findings: seq<Finding>)
    requires findings != []
    ensures var n := |findings| - 1;
            var before := AddAll([], findings[..n]);
            AddAll([], findings) == if IsFirst(findings, n) then before + [findings[n]] else before
  {
    SameAreHeld(findings[..|findings| - 1], findings[|findings| - 1].fingerprint);
    FirstIsNotHeld(findings);
  }

  lemma {:induction false} FirstIsNotHeld(findings: seq<Finding>)
    requires findings != []
    ensures var n := |findings| - 1;
            IsFirst(findings, n) <==> !Holds(findings[..n], findings[n].fingerprint)
  {
    var front := findings[..|findings| - 1];
    assert forall j | 0 <= j < |front| :: front[j] == findings[j];
  }

  /** The baseline holds exactly the first finding of every fingerprint. */
  lemma {:induction false} FirstIsKept(findings: seq<Finding>, k: nat)
    requires k < |findings| && IsFirst(findings, k)
    ensures findings[k] in AddAll([], findings)
  {
    LastIsFirst(findings);
    if k < |findings| - 1 {
      FirstIsKept(findings[..|findings| - 1], k);
    }
  }

  lemma {:induction false} KeptIsFirst(findings: seq<Finding>, f: Finding) returns (k: nat)
    requires f in AddAll([], findings)
    ensures k < |findings| && findings[k] == f && IsFirst(findings, k)
  {
    LastIsFirst(findings);
    var front := findings[..|findings| - 1];
    if f in AddAll([], front) {
      k := KeptIsFirst(front, f);
    } else {
      k := |findings| - 1;
    }
  }

  lemma {:induction false} OpenBlockersAreAll(ledger: seq<Finding>)
    ensures forall f :: f in OpenBlockers(ledger) <==> f in ledger && IsOpenBlocker(f)
  {
    if ledger != [] {
      var front, last := ledger[..|ledger| - 1], ledger[|ledger| - 1];
      OpenBlockersAreAll(front);
      assert ledger == front + [last];
    }
  }
}
