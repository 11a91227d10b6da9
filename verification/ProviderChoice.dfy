/** Which provider implements a package: the priority rules, and the exact share the weighting gives
    each provider over a run of fresh standard packages. Scores are exact rationals. */
module ProviderChoice {
  import opened Text

  datatype Provider = Agy | Muse | OtherProvider

  datatype Category = Auxiliary | HighSemanticComplexity | Standard

  datatype Reason = AlternateRetry | CooldownFallback | DurableWork | DefaultFallback | SingleAvailable
                  | AuxiliaryPreference | HighComplexity | HighComplexityFallback | WeightedBalance

  /** What was written down about the last choice for a record. */
  datatype Selection = Selection(initialProvider: Option<Provider>, provider: Option<Provider>, reason: Reason)

  /** The fields of a package record that the choice reads. `retryable` is status READY or FAILED. */
  datatype Record = Record(
    provider: Option<Provider>,
    initialProvider: Option<Provider>,
    selection: Option<Selection>,
    taskAttempts: nat,
    retryable: bool,
    replanAttempted: bool)

  datatype Package = Package(category: Category, critical: bool, preferred: Provider)

  datatype Choice = Choice(provider: Provider, reason: Reason)

  const FRESH := Record(None, None, None, 0, true, false)

  function Alternate(p: Provider): Provider {
    if p == Muse then Agy else Muse
  }

  /** The provider a record counts for in the balance, if any. */
  function CountsFor(r: Record): Option<Provider> {
    if r.initialProvider.Some? then r.initialProvider
    else
      var noted :=
        match r.selection
        case None => None
        case Some(s) =>
          if s.initialProvider.Some? then s.initialProvider
          else if s.reason in {WeightedBalance, AuxiliaryPreference, HighComplexity} then s.provider
          else None;
      if noted.Some? then noted
      else if r.provider.Some? && r.taskAttempts <= 1 && !r.replanAttempted then r.provider
      else None
  }

  function Count(records: seq<Record>, p: Provider): nat {
    if records == [] then 0
    else (if CountsFor(records[0]) == Some(p) then 1 else 0) + Count(records[1..], p)
  }

  lemma {:induction false} CountAppend(a: seq<Record>, b: seq<Record>, p: Provider)
    ensures Count(a + b, p) == Count(a, p) + Count(b, p)
  {
    if a == [] {
      assert a + b == b;
    } else {
      CountAppend(a[1..], b, p);
      assert (a + b)[1..] == a[1..] + b;
    }
  }

  function AtLeastOne(weight: int): (w: int)
    ensures w >= 1
  {
    if weight < 1 then 1 else weight
  }

  /** The balance: the provider with the smaller count per weight, agy on a tie. */
  ghost function Balanced(agy: nat, muse: nat, agyWeight: int, museWeight: int): Provider {
    var scoreAgy := agy as real / AtLeastOne(agyWeight) as real;
    var scoreMuse := muse as real / AtLeastOne(museWeight) as real;
    if scoreMuse < scoreAgy then Muse else Agy
  }

  /** The whole rule. The two named providers are compared against `available`. */
  method SelectImplementationProvider(
    package: Package, record: Record, records: seq<Record>, available: set<Provider>, agyWeight: int, museWeight: int)
    returns (choice: Choice)
    ensures record.provider in {Some(Agy), Some(Muse)} ==>
              // work that exists stays with its provider, except on a retry, and except when that provider is away
              var own, alt := record.provider.value, Alternate(record.provider.value);
              var retry := record.taskAttempts > 0 && record.retryable;
              && (retry && alt in available ==> choice == Choice(alt, AlternateRetry))
              && (retry && alt !in available && own in available ==> choice == Choice(own, CooldownFallback))
              && (!retry && own in available ==> choice == Choice(own, DurableWork))
              && (!retry && own !in available && alt in available ==> choice == Choice(alt, CooldownFallback))
    ensures record.provider !in {Some(Agy), Some(Muse)} && {Agy, Muse} <= available && package.category == Standard ==>
              choice == Choice(Balanced(Count(records, Agy), Count(records, Muse), agyWeight, museWeight),
                WeightedBalance)
    ensures record.provider !in {Some(Agy), Some(Muse)} && {Agy, Muse} <= available && package.category != Standard ==>
              // auxiliary work goes to agy; complex work to muse when it is critical or muse is preferred
              && (choice.provider == Muse <==>
                    package.category == HighSemanticComplexity && (package.critical || package.preferred == Muse))
              && choice.provider in {Agy, Muse} && choice.reason != WeightedBalance
    ensures record.provider !in {Some(Agy), Some(Muse)} && (Agy in available <==> Muse !in available) ==>
              choice == Choice(if Agy in available then Agy else Muse, SingleAvailable)
    ensures Agy in available || Muse in available ==> choice.provider in available
    ensures Agy !in available && Muse !in available ==> choice == Choice(package.preferred, DefaultFallback)
  {
    if record.provider in {Some(Agy), Some(Muse)} {
      var own := record.provider.value;
      if record.taskAttempts > 0 && record.retryable {
        if Alternate(own) in available {
          return Choice(Alternate(own), AlternateRetry);
        }
        if own in available {
          return Choice(own, CooldownFallback);
        }
      }
      if own in available {
        return Choice(own, DurableWork);
      }
      if Agy in available {
        return Choice(Agy, CooldownFallback);
      }
      if Muse in available {
        return Choice(Muse, CooldownFallback);
      }
    }
    if Agy !in available && Muse !in available {
      return Choice(package.preferred, DefaultFallback);
    }
    if Agy !in available {
      return Choice(Muse, SingleAvailable);
    }
    if Muse !in available {
      return Choice(Agy, SingleAvailable);
    }
    if package.category == Auxiliary {
      return Choice(Agy, AuxiliaryPreference);
    }
    if package.category == HighSemanticComplexity {
      if package.critical || package.preferred == Muse {
        return Choice(Muse, HighComplexity);
      }
      return Choice(Agy, HighComplexityFallback);
    }
    var agy, muse := FreshCounts(records);
    var scoreAgy := agy as real / AtLeastOne(agyWeight) as real;
    var scoreMuse := muse as real / AtLeastOne(museWeight) as real;
    if scoreAgy < scoreMuse {
      choice := Choice(Agy, WeightedBalance);
    } else if scoreMuse < scoreAgy {
      choice := Choice(Muse, WeightedBalance);
    } else {
      choice := Choice(Agy, WeightedBalance);
    }
  }

  method FreshCounts(records: seq<Record>) returns (agy: nat, muse: nat)
    ensures agy == Count(records, Agy) && muse == Count(records, Muse)
  {
    agy, muse := 0, 0;
    var i := 0;
    assert records[..0] == [];
    while i < |records|
      invariant 0 <= i <= |records|
      invariant agy == Count(records[..i], Agy) && muse == Count(records[..i], Muse)
    {
      CountAppend(records[..i], [records[i]], Agy);
      CountAppend(records[..i], [records[i]], Muse);
      assert records[..i + 1] == records[..i] + [records[i]];
      var counted := CountsFor(records[i]);
      if counted == Some(Agy) {
        agy := agy + 1;
      } else if counted == Some(Muse) {
        muse := muse + 1;
      }
      i := i + 1;
    }
    assert records[..i] == records;
  }

  // ---------------------------------------------------------------------------------------------
  // A run of fresh standard choices
  // ---------------------------------------------------------------------------------------------

  /** The record after its worker was spawned: the first provider is remembered for good. */
  function Spawned(r: Record, c: Choice): Record {
    var initial := if r.initialProvider.Some? then r.initialProvider else Some(c.provider);
    r.(provider := Some(c.provider), initialProvider := initial,
       selection := Some(Selection(initial, Some(c.provider), c.reason)), taskAttempts := r.taskAttempts + 1)
  }

  /** What happens to a record: a worker is spawned on a choice, or anything else about it changes. */
  datatype Change =
    | Spawn(choice: Choice)
    | Touch(provider: Option<Provider>, taskAttempts: nat, retryable: bool, replanAttempted: bool)

  function Changed(r: Record, changes: seq<Change>): Record {
    if changes == [] then r
    else
      var before, last := Changed(r, changes[..|changes| - 1]), changes[|changes| - 1];
      match last
      case Spawn(choice) => Spawned(before, choice)
      case Touch(provider, attempts, retryable, replanned) =>
        before.(provider := provider, taskAttempts := attempts, retryable := retryable, replanAttempted := replanned)
  }

  /** A record counts for the provider of its first spawn for good, whatever provider, retry or replan comes
      later. */
  lemma {:induction false} FirstProviderCounts(changes: seq<Change>, first: nat)
    requires first < |changes| && changes[first].Spawn? && forall j | 0 <= j < first :: !changes[j].Spawn?
    ensures var r := Changed(FRESH, changes);
            CountsFor(r) == Some(changes[first].choice.provider) == r.initialProvider
  {
    var front := changes[..|changes| - 1];
    if first < |front| {
      FirstProviderCounts(front, first);
    } else {
      NeverSpawned(front);
    }
  }

  lemma {:induction false} NeverSpawned(changes: seq<Change>)
    requires forall j | 0 <= j < |changes| :: !changes[j].Spawn?
    ensures Changed(FRESH, changes).initialProvider.None? && Changed(FRESH, changes).selection.None?
  {
    if changes != [] {
      NeverSpawned(changes[..|changes| - 1]);
    }
  }

  /** A record that wrote down no first provider counts for the one of its last weighing, and without any for
      the one it has, exactly while that can only be its first: in its first attempt and before a replan. */
  lemma {:induction false} UnnotedRecordCounts(r: Record)
    requires r.initialProvider.None? && (r.selection.Some? ==> r.selection.value.initialProvider.None?)
    ensures var weighed := r.selection.Some? && r.selection.value.provider.Some?
                           && r.selection.value.reason in {WeightedBalance, AuxiliaryPreference, HighComplexity};
            && (weighed ==> CountsFor(r) == r.selection.value.provider)
            && (!weighed && r.provider.Some? ==>
                  CountsFor(r) == if r.taskAttempts > 1 || r.replanAttempted then None else r.provider)
            && (!weighed && r.provider.None? ==> CountsFor(r).None?)
  {
  }

  /** The records of the n packages chosen so far, each chosen with the earlier ones on the books. */
  ghost function FreshRun(n: nat, agyWeight: int, museWeight: int): seq<Record> {
    if n == 0 then []
    else
      var records := FreshRun(n - 1, agyWeight, museWeight);
      var provider := Balanced(Count(records, Agy), Count(records, Muse), agyWeight, museWeight);
      records + [Spawned(FRESH, Choice(provider, WeightedBalance))]
  }

  /** The closed form of the share: the agy count after n choices. */
  function AgyShare(n: nat, agyWeight: int, museWeight: int): int {
    var wa, wm := AtLeastOne(agyWeight), AtLeastOne(museWeight);
    (n * wa + wm) / (wa + wm)
  }

  lemma {:induction false} ScoresCompare(agy: nat, muse: nat, wa: int, wm: int)
    requires wa >= 1 && wm >= 1
    ensures agy as real / wa as real > muse as real / wm as real <==> agy * wm > muse * wa
  {
    var x, y := agy as real / wa as real, muse as real / wm as real;
    assert x * wa as real == agy as real && y * wm as real == muse as real;
    var both := wa as real * wm as real;
    assert both > 0.0;
    assert both == (wa * wm) as real;
    assert x * both == agy as real * wm as real == (agy * wm) as real;
    assert y * both == muse as real * wa as real == (muse * wa) as real;
    if x > y {
      assert (x - y) * both > 0.0;
    } else {
      assert (y - x) * both >= 0.0;
    }
  }

  lemma {:induction false} QuotientIs(q: int, x: int, d: int)
    requires d > 0 && q * d <= x < (q + 1) * d
    ensures x / d == q
  {
    var e := x / d - q;
    assert (x / d) * d <= x < (x / d) * d + d;
    assert e * d == (x / d) * d - q * d;
    SmallMultiple(e, d);
  }

  lemma {:induction false} SmallMultiple(e: int, d: int)
    requires d > 0 && -d < e * d < d
    ensures e == 0
  {
    assert e >= 1 ==> e * d >= d;
    assert e <= -1 ==> -e * d >= d;
  }

  /** After n fresh standard choices agy has exactly floor((n wa + wm) / (wa + wm)) of them, muse the rest. */
  lemma {:induction false} WeightedShareIsExact(n: nat, agyWeight: int, museWeight: int)
    ensures var records := FreshRun(n, agyWeight, museWeight);
            && Count(records, Agy) == AgyShare(n, agyWeight, museWeight)
            && Count(records, Agy) + Count(records, Muse) == n
  {
    var wa, wm := AtLeastOne(agyWeight), AtLeastOne(museWeight);
    if n == 0 {
      QuotientIs(0, wm, wa + wm);
    } else {
      WeightedShareIsExact(n - 1, agyWeight, museWeight);
      NextIsExact(FreshRun(n - 1, agyWeight, museWeight), n - 1, agyWeight, museWeight);
    }
  }

  lemma {:induction false} NextIsExact(records: seq<Record>, n: nat, agyWeight: int, museWeight: int)
    requires Count(records, Agy) == AgyShare(n, agyWeight, museWeight)
    requires Count(records, Agy) + Count(records, Muse) == n
    ensures var provider := Balanced(Count(records, Agy), Count(records, Muse), agyWeight, museWeight);
            var next := records + [Spawned(FRESH, Choice(provider, WeightedBalance))];
            && Count(next, Agy) == AgyShare(n + 1, agyWeight, museWeight)
            && Count(next, Agy) + Count(next, Muse) == n + 1
  {
    var a, m := Count(records, Agy), Count(records, Muse);
    NextIsCounted(records, Balanced(a, m, agyWeight, museWeight));
    ChoiceByProducts(a, m, agyWeight, museWeight);
    ShareStep(a, n, AtLeastOne(agyWeight), AtLeastOne(museWeight));
  }

  lemma {:induction false} ChoiceByProducts(agy: nat, muse: nat, agyWeight: int, museWeight: int)
    ensures var wa, wm := AtLeastOne(agyWeight), AtLeastOne(museWeight);
            Balanced(agy, muse, agyWeight, museWeight) == if agy * wm > muse * wa then Muse else Agy
  {
    ScoresCompare(agy, muse, AtLeastOne(agyWeight), AtLeastOne(museWeight));
  }

  lemma {:induction false} NextIsCounted(records: seq<Record>, provider: Provider)
    ensures var next := records + [Spawned(FRESH, Choice(provider, WeightedBalance))];
            && Count(next, Agy) == Count(records, Agy) + (if provider == Agy then 1 else 0)
            && Count(next, Muse) == Count(records, Muse) + (if provider == Muse then 1 else 0)
  {
    var next := Spawned(FRESH, Choice(provider, WeightedBalance));
    assert CountsFor(next) == Some(provider);
    CountAppend(records, [next], Agy);
    CountAppend(records, [next], Muse);
  }

  lemma {:induction false} ShareStep(a: nat, n: nat, wa: int, wm: int)
    requires wa >= 1 && wm >= 1 && a == (n * wa + wm) / (wa + wm) && a <= n
    ensures ((n + 1) * wa + wm) / (wa + wm) == if a * wm > (n - a) * wa then a else a + 1
  {
    var w := wa + wm;
    var x := n * wa + wm;
    assert a * w <= x < (a + 1) * w;
    assert (n - a) * wa == n * wa - a * wa;
    assert a * w == a * wa + a * wm;
    assert (n + 1) * wa + wm == x + wa;
    assert (a + 1) * w == a * w + w && (a + 2) * w == a * w + 2 * w;
    if a * wm > (n - a) * wa {
      QuotientIs(a, x + wa, w);
    } else {
      QuotientIs(a + 1, x + wa, w);
    }
  }

  /** The agy count never leaves its exact share n wa / (wa + wm) by a whole choice. */
  lemma {:induction false} ShareStaysWithinOne(n: nat, agyWeight: int, museWeight: int)
    ensures var wa, wm := AtLeastOne(agyWeight), AtLeastOne(museWeight);
            var agy := Count(FreshRun(n, agyWeight, museWeight), Agy);
            -wa < agy * (wa + wm) - n * wa <= wm
  {
    var wa, wm := AtLeastOne(agyWeight), AtLeastOne(museWeight);
    WeightedShareIsExact(n, agyWeight, museWeight);
    QuotientBounds(n * wa + wm, wa + wm);
  }

  lemma {:induction false} QuotientBounds(x: int, d: int)
    requires d > 0
    ensures x - d < x / d * d <= x
  {}
}
